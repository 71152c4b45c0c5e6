/**
 * The remote side the service talks to through the Synapse SDK: the payments
 * ledger (the wallet's USDFC balance and the deposits it has accepted) and the
 * storage network (content-addressed pieces and the providers serving them).
 * The SDK's calls become methods on this state; how the network achieves them
 * is not modelled.
 */
module StorageNetwork {
  import opened Wrappers
  import opened JsonCodec

  type Address = string

  /**
   * A piece identifier. Filecoin derives it from the content, so it is modelled
   * as a commitment to the bytes: the same bytes always get the same identifier
   * and different bytes never share one.
   */
  datatype PieceCid = PieceCid(commitment: seq<byte>)

  function PieceCidOf(data: seq<byte>): PieceCid
  {
    PieceCid(data)
  }

  /** `ethers.MaxUint256`, the largest value of a 256-bit unsigned word. */
  const MaxUint256: nat := 0xFFFF_FFFF_FFFF_FFFF_FFFF_FFFF_FFFF_FFFF_FFFF_FFFF_FFFF_FFFF_FFFF_FFFF_FFFF_FFFF

  /** `TIME_CONSTANTS.EPOCHS_PER_MONTH`: 30 days of 2880 thirty-second epochs. */
  const EpochsPerMonth: nat := 30 * 2880

  /** The arguments of one `depositWithPermitAndApproveOperator` call. */
  datatype DepositCall = DepositCall(
    amount: int,
    operator: Address,
    rateAllowance: nat,
    lockupAllowance: nat,
    maxLockupPeriod: nat)

  /** The fields of a storage provider that `getStorageInfo` lists. */
  datatype Provider = Provider(id: nat, name: string, active: bool, serviceProvider: Address)

  class Network {
    /** The wallet's USDFC balance, in base units. */
    var walletBalance: nat
    /** Every deposit-and-approve call the ledger has accepted, oldest first. */
    var deposits: seq<DepositCall>
    /** The bytes stored under each piece identifier. */
    var pieces: map<PieceCid, seq<byte>>
    const providers: seq<Provider>
    /** The Warm Storage service contract, the operator that deposits are approved for. */
    const warmStorageAddress: Address

    /** Every stored piece sits under the identifier of its own bytes. */
    ghost predicate Valid()
      reads this
    {
      forall cid :: cid in pieces ==> cid == PieceCidOf(pieces[cid])
    }

    constructor (balance: nat, warmStorage: Address, providerList: seq<Provider>)
      ensures Valid()
      ensures walletBalance == balance && deposits == [] && pieces == map[]
      ensures warmStorageAddress == warmStorage && providers == providerList
    {
      walletBalance, deposits, pieces := balance, [], map[];
      warmStorageAddress, providers := warmStorage, providerList;
    }

    /** `payments.walletBalance(TOKENS.USDFC)`: reads the balance, changes nothing. */
    method WalletBalance() returns (balance: nat)
      ensures balance == walletBalance
    {
      balance := walletBalance;
    }

    /**
     * `payments.depositWithPermitAndApproveOperator(...)`, confirmed. The ledger
     * moves `amount` from the wallet into the payments account and records the
     * approval; it refuses a negative amount or one the wallet cannot cover.
     */
    method DepositWithPermitAndApproveOperator(call: DepositCall) returns (accepted: bool)
      requires Valid()
      modifies this
      ensures Valid()
      ensures accepted <==> 0 <= call.amount <= old(walletBalance)
      ensures walletBalance == if accepted then old(walletBalance) - call.amount else old(walletBalance)
      ensures deposits == if accepted then old(deposits) + [call] else old(deposits)
      ensures pieces == old(pieces)
    {
      accepted := 0 <= call.amount <= walletBalance;
      if accepted {
        walletBalance := walletBalance - call.amount;
        deposits := deposits + [call];
      }
    }

    /** `storage.upload(data)`: stores the whole buffer and reports its identifier and size. */
    method Upload(data: seq<byte>) returns (pieceCid: PieceCid, size: nat)
      requires Valid()
      modifies this`pieces
      ensures Valid()
      ensures pieceCid == PieceCidOf(data) && size == |data|
      ensures pieces == old(pieces)[pieceCid := data]
    {
      pieceCid, size := PieceCidOf(data), |data|;
      pieces := pieces[pieceCid := data];
    }

    /** `storage.download(pieceCid)`: the stored bytes, or nothing when no piece has that identifier. */
    method Download(pieceCid: PieceCid) returns (r: Option<seq<byte>>)
      requires Valid()
      ensures r == if pieceCid in pieces then Some(pieces[pieceCid]) else None
      ensures r.Some? ==> PieceCidOf(r.value) == pieceCid
    {
      r := if pieceCid in pieces then Some(pieces[pieceCid]) else None;
    }

    /** `storage.getStorageInfo().providers`. */
    method Providers() returns (list: seq<Provider>)
      ensures list == providers
    {
      list := providers;
    }
  }
}
