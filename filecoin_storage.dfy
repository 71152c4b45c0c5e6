/**
 * `FilecoinStorageService`: a session over the Synapse SDK that deposits USDFC
 * for storage payments, uploads event metadata, Proof of Fun results and
 * merchandise catalogs as JSON documents, and downloads documents by piece
 * identifier.
 *
 * The session is the pair `synapse` / `isInitialized`: `Initialize` opens it
 * (once), `Close` drops it, and every other operation throws "not initialized"
 * without touching the network while it is closed.
 */
module FilecoinStorage {
  import opened Wrappers
  import opened JsonCodec
  import opened Units
  import opened Documents
  import opened StorageNetwork

  /** USDFC amounts are converted with 18 decimals. */
  const UsdfcDecimals: nat := 18

  /** The amount `setupPayment` deposits when called without one. */
  const DefaultDepositAmount := "2.5"

  /** The Synapse SDK's RPC endpoint for the Calibration test network. */
  const CalibrationRpcUrl := "https://api.calibration.node.glif.io/rpc/v1"

  /** What the service throws. */
  datatype Error =
    | MissingPrivateKey            // PRIVATE_KEY is not configured
    | NotInitialized               // an operation ran while the session was closed
    | InvalidAmount(text: string)  // parseUnits refused the amount text
    | InsufficientBalance(amountText: string)
    | DepositRejected              // the ledger refused the deposit call
    | PieceNotFound(pieceCid: PieceCid)
    | InvalidJson(pieceCid: PieceCid)

  /** The `{ pieceCid, size }` pair each `store*` operation returns. */
  datatype UploadReceipt = UploadReceipt(pieceCid: PieceCid, size: nat)

  /** The environment variables the service reads. */
  datatype Environment = Environment(
    privateKey: Option<string>,
    rpcUrl: Option<string>,
    proofOfFunAddress: Option<string>)

  /** JavaScript's `value || fallback` on an optional string: an absent or empty value falls back. */
  function OrElse(value: Option<string>, fallback: string): (r: string)
    ensures value.Some? && value.value != "" ==> r == value.value
    ensures (value.None? || value.value == "") ==> r == fallback
  {
    if value.Some? && value.value != "" then value.value else fallback
  }

  /** A constructor argument that is not passed takes its default. */
  function ArgumentOr(argument: Option<string>, default: string): (r: string)
    ensures argument.Some? ==> r == argument.value
    ensures argument.None? ==> r == default
  {
    if argument.Some? then argument.value else default
  }

  /** The single call `setupPayment` submits to deposit `amount` base units. */
  function DepositFor(amount: int, operator: Address): DepositCall
  {
    DepositCall(amount, operator, MaxUint256, MaxUint256, EpochsPerMonth)
  }

  /**
   * What `setupPayment` does, decided from the session, the wallet balance and
   * the amount text: the deposit it submits, or the error it throws before
   * submitting anything.
   */
  function PaymentPlan(initialized: bool, balance: nat, amountText: string, operator: Address): (r: Result<DepositCall, Error>)
    ensures !initialized ==> r == Failure(NotInitialized)
    ensures initialized && ParseUnits(amountText, UsdfcDecimals).None? ==> r == Failure(InvalidAmount(amountText))
    ensures initialized && ParseUnits(amountText, UsdfcDecimals).Some? ==>
      var amount := ParseUnits(amountText, UsdfcDecimals).value;
      (balance < amount <==> r == Failure(InsufficientBalance(amountText))) &&
      (amount <= balance <==> r.Success?)
    ensures r.Success? ==>
      ParseUnits(amountText, UsdfcDecimals) == Some(r.value.amount) && r.value.amount <= balance &&
      r.value.operator == operator &&
      r.value.rateAllowance == MaxUint256 && r.value.lockupAllowance == MaxUint256 &&
      r.value.maxLockupPeriod == EpochsPerMonth
  {
    if !initialized then Failure(NotInitialized)
    else
      match ParseUnits(amountText, UsdfcDecimals)
      case None => Failure(InvalidAmount(amountText))
      case Some(amount) =>
        if balance < amount then Failure(InsufficientBalance(amountText))
        else Success(DepositFor(amount, operator))
  }

  /**
   * What `download` returns for a piece identifier, given the stored pieces:
   * the parsed document, or the error the SDK or `JSON.parse` throws.
   */
  function Fetch(pieces: map<PieceCid, seq<byte>>, pieceCid: PieceCid): (r: Result<Json, Error>)
    ensures pieceCid !in pieces <==> r == Failure(PieceNotFound(pieceCid))
    ensures r.Success? ==> pieceCid in pieces && Parse(pieces[pieceCid]) == Some(r.value)
    ensures pieceCid in pieces && Parse(pieces[pieceCid]).Some? ==> r == Success(Parse(pieces[pieceCid]).value)
    ensures pieceCid in pieces && Parse(pieces[pieceCid]).None? ==> r == Failure(InvalidJson(pieceCid))
  {
    if pieceCid !in pieces then Failure(PieceNotFound(pieceCid))
    else
      match Parse(pieces[pieceCid])
      case None => Failure(InvalidJson(pieceCid))
      case Some(j) => Success(j)
  }

  /** The Synapse SDK instance: bound to one account and one endpoint. */
  class Synapse {
    const privateKey: string
    const rpcUrl: string
    /** The chain and storage network `rpcUrl` leads to. */
    const network: Network

    constructor (privateKey: string, rpcUrl: string, network: Network)
      ensures this.privateKey == privateKey && this.rpcUrl == rpcUrl && this.network == network
    {
      this.privateKey, this.rpcUrl, this.network := privateKey, rpcUrl, network;
    }
  }

  class FilecoinStorageService {
    const privateKey: string
    const rpcUrl: string
    /** The chain and storage network `rpcUrl` leads to. */
    const network: Network
    var synapse: Synapse?
    var isInitialized: bool

    /** The session invariant: the two fields move together, and a session belongs to this account and endpoint. */
    ghost predicate Valid()
      reads this, network
    {
      privateKey != "" &&
      (isInitialized <==> synapse != null) &&
      (synapse != null ==>
        synapse.privateKey == privateKey && synapse.rpcUrl == rpcUrl && synapse.network == network) &&
      network.Valid()
    }

    constructor (privateKey: string, rpcUrl: string, network: Network)
      requires privateKey != "" && network.Valid()
      ensures Valid() && !isInitialized
      ensures this.privateKey == privateKey && this.rpcUrl == rpcUrl && this.network == network
    {
      this.privateKey, this.rpcUrl, this.network := privateKey, rpcUrl, network;
      synapse, isInitialized := null, false;
    }

    /**
     * `new FilecoinStorageService(privateKey?, rpcUrl?)`: arguments that are not
     * passed default to the environment, and the construction throws when the
     * resulting private key is empty, so no service exists without a credential.
     */
    static method Create(privateKey: Option<string>, rpcUrl: Option<string>, env: Environment, network: Network)
      returns (r: Result<FilecoinStorageService, Error>)
      requires network.Valid()
      ensures var key := ArgumentOr(privateKey, OrElse(env.privateKey, ""));
        (r.Failure? <==> key == "") &&
        (r.Failure? ==> r.error == MissingPrivateKey) &&
        (r.Success? ==>
          fresh(r.value) && r.value.Valid() && !r.value.isInitialized &&
          r.value.privateKey == key &&
          r.value.rpcUrl == ArgumentOr(rpcUrl, OrElse(env.rpcUrl, CalibrationRpcUrl)) &&
          r.value.network == network)
    {
      var key := ArgumentOr(privateKey, OrElse(env.privateKey, ""));
      var url := ArgumentOr(rpcUrl, OrElse(env.rpcUrl, CalibrationRpcUrl));
      if key == "" {
        return Failure(MissingPrivateKey);
      }
      var service := new FilecoinStorageService(key, url, network);
      return Success(service);
    }

    /** `initialize()`: opens the session; a second call returns without opening another. */
    method Initialize()
      requires Valid()
      modifies this
      ensures Valid() && isInitialized && synapse != null
      ensures old(isInitialized) ==> synapse == old(synapse)
      ensures !old(isInitialized) ==> fresh(synapse)
    {
      if isInitialized {
        return;
      }
      synapse := new Synapse(privateKey, rpcUrl, network);
      isInitialized := true;
    }

    /**
     * `setupPayment(amountInUSDFC)`: reads the wallet balance and, when it covers
     * the amount, submits exactly one deposit-and-approve call for the Warm
     * Storage operator. Otherwise it throws and submits nothing.
     */
    method SetupPayment(amountText: string) returns (r: Outcome<Error>)
      requires Valid()
      modifies network
      ensures Valid()
      ensures network.pieces == old(network.pieces)
      ensures match PaymentPlan(synapse != null, old(network.walletBalance), amountText, network.warmStorageAddress)
        case Failure(e) =>
          r == Fail(e) &&
          network.walletBalance == old(network.walletBalance) && network.deposits == old(network.deposits)
        case Success(call) =>
          if call.amount < 0 then
            r == Fail(DepositRejected) &&
            network.walletBalance == old(network.walletBalance) && network.deposits == old(network.deposits)
          else
            r == Pass &&
            network.deposits == old(network.deposits) + [call] &&
            network.walletBalance == old(network.walletBalance) - call.amount
    {
      if synapse == null {
        return Fail(NotInitialized);
      }
      var balance := synapse.network.WalletBalance();
      var amount := ParseUnits(amountText, UsdfcDecimals);
      if amount.None? {
        return Fail(InvalidAmount(amountText));
      }
      if balance < amount.value {
        return Fail(InsufficientBalance(amountText));
      }
      var accepted := synapse.network.DepositWithPermitAndApproveOperator(
        DepositFor(amount.value, synapse.network.warmStorageAddress));
      if !accepted {
        return Fail(DepositRejected);
      }
      return Pass;
    }

    /** Encodes an envelope and uploads it in one call; the shared tail of the three `store*` operations. */
    method UploadEnvelope(envelope: Envelope) returns (r: Result<UploadReceipt, Error>)
      requires Valid()
      modifies network
      ensures Valid()
      ensures network.walletBalance == old(network.walletBalance) && network.deposits == old(network.deposits)
      ensures synapse == null ==> r == Failure(NotInitialized) && network.pieces == old(network.pieces)
      ensures synapse != null ==>
        var bytes := EncodeEnvelope(envelope);
        r == Success(UploadReceipt(PieceCidOf(bytes), |bytes|)) &&
        network.pieces == old(network.pieces)[PieceCidOf(bytes) := bytes]
    {
      if synapse == null {
        return Failure(NotInitialized);
      }
      var data := EncodeEnvelope(envelope);
      var pieceCid, size := synapse.network.Upload(data);
      return Success(UploadReceipt(pieceCid, size));
    }

    /** `storeEventMetadata(eventData)`: uploads `{type: 'event_metadata', timestamp, data}`. */
    method StoreEventMetadata(eventData: EventMetadata, timestamp: string) returns (r: Result<UploadReceipt, Error>)
      requires Valid()
      modifies network
      ensures Valid()
      ensures network.walletBalance == old(network.walletBalance) && network.deposits == old(network.deposits)
      ensures synapse == null ==> r == Failure(NotInitialized) && network.pieces == old(network.pieces)
      ensures synapse != null ==>
        var bytes := EncodeEnvelope(EventDocument(timestamp, eventData));
        r == Success(UploadReceipt(PieceCidOf(bytes), |bytes|)) &&
        network.pieces == old(network.pieces)[PieceCidOf(bytes) := bytes]
    {
      r := UploadEnvelope(EventDocument(timestamp, eventData));
    }

    /**
     * `storeProofOfFunResults(eventId, results)`: uploads the results tagged with
     * the event, marked verified on Base Sepolia, with the configured contract
     * address (`PROOF_OF_FUN_ADDRESS`) when there is one.
     */
    method StoreProofOfFunResults(eventId: int, results: ProofOfFunResults, timestamp: string, contractAddress: Option<string>)
      returns (r: Result<UploadReceipt, Error>)
      requires Valid()
      modifies network
      ensures Valid()
      ensures network.walletBalance == old(network.walletBalance) && network.deposits == old(network.deposits)
      ensures synapse == null ==> r == Failure(NotInitialized) && network.pieces == old(network.pieces)
      ensures synapse != null ==>
        var bytes := EncodeEnvelope(ResultsDocument(eventId, timestamp, results, contractAddress));
        r == Success(UploadReceipt(PieceCidOf(bytes), |bytes|)) &&
        network.pieces == old(network.pieces)[PieceCidOf(bytes) := bytes]
    {
      r := UploadEnvelope(ResultsDocument(eventId, timestamp, results, contractAddress));
    }

    /** `storeMerchCatalog(items)`: uploads the items, in order, with their count. */
    method StoreMerchCatalog(items: seq<MerchItem>, timestamp: string) returns (r: Result<UploadReceipt, Error>)
      requires Valid()
      modifies network
      ensures Valid()
      ensures network.walletBalance == old(network.walletBalance) && network.deposits == old(network.deposits)
      ensures synapse == null ==> r == Failure(NotInitialized) && network.pieces == old(network.pieces)
      ensures synapse != null ==>
        var bytes := EncodeEnvelope(CatalogDocument(timestamp, items));
        r == Success(UploadReceipt(PieceCidOf(bytes), |bytes|)) &&
        network.pieces == old(network.pieces)[PieceCidOf(bytes) := bytes]
    {
      r := UploadEnvelope(CatalogDocument(timestamp, items));
    }

    /** `download(pieceCid)`: fetches the piece and parses it; changes nothing. */
    method Download(pieceCid: PieceCid) returns (r: Result<Json, Error>)
      requires Valid()
      ensures synapse == null ==> r == Failure(NotInitialized)
      ensures synapse != null ==> r == Fetch(network.pieces, pieceCid)
    {
      if synapse == null {
        return Failure(NotInitialized);
      }
      var bytes := synapse.network.Download(pieceCid);
      if bytes.None? {
        return Failure(PieceNotFound(pieceCid));
      }
      var j := Parse(bytes.value);
      if j.None? {
        return Failure(InvalidJson(pieceCid));
      }
      return Success(j.value);
    }

    /** `getStorageInfo()`: the providers it lists; changes nothing. */
    method GetStorageInfo() returns (r: Result<seq<Provider>, Error>)
      requires Valid()
      ensures synapse == null ==> r == Failure(NotInitialized)
      ensures synapse != null ==> r == Success(network.providers)
    {
      if synapse == null {
        return Failure(NotInitialized);
      }
      var providers := synapse.network.Providers();
      return Success(providers);
    }

    /** `close()`: drops the session; `Initialize` may open a new one. */
    method Close()
      requires Valid()
      modifies this
      ensures Valid() && !isInitialized && synapse == null
    {
      isInitialized := false;
      synapse := null;
    }
  }

  // ---------------------------------------------------------------------------
  // Properties relating several calls

  /**
   * The default amount is 2.5 * 10^18 base units: a wallet holding less (an
   * empty one, say) is refused, and one holding at least that much deposits it.
   */
  lemma DefaultAmountGate(balance: nat, operator: Address)
    ensures ParseUnits(DefaultDepositAmount, UsdfcDecimals) == Some(2_500_000_000_000_000_000)
    ensures balance < 2_500_000_000_000_000_000 ==>
      PaymentPlan(true, balance, DefaultDepositAmount, operator) == Failure(InsufficientBalance("2.5"))
    ensures balance >= 2_500_000_000_000_000_000 ==>
      PaymentPlan(true, balance, DefaultDepositAmount, operator) == Success(DepositFor(2_500_000_000_000_000_000, operator))
  {
    var text := DefaultDepositAmount;
    assert PointIndex(text) == 1;
    assert text[..1] == "2" && text[2..] == "5";
    assert DigitsValue("2") == 2 && DigitsValue("5") == 5;
    Pow10Of18();
    assert ParseMagnitude(text, UsdfcDecimals) == Some(2_500_000_000_000_000_000);
  }

  /** USDFC's scale: one token is 10^18 base units. */
  lemma Pow10Of18()
    ensures Pow10(17) == 100_000_000_000_000_000 && Pow10(18) == 1_000_000_000_000_000_000
  {
    assert Pow10(1) == 10;
    assert Pow10(2) == 100;
    assert Pow10(3) == 1_000;
    assert Pow10(4) == 10_000;
    assert Pow10(5) == 100_000;
    assert Pow10(6) == 1_000_000;
    assert Pow10(7) == 10_000_000;
    assert Pow10(8) == 100_000_000;
    assert Pow10(9) == 1_000_000_000;
    assert Pow10(10) == 10_000_000_000;
    assert Pow10(11) == 100_000_000_000;
    assert Pow10(12) == 1_000_000_000_000;
    assert Pow10(13) == 10_000_000_000_000;
    assert Pow10(14) == 100_000_000_000_000;
    assert Pow10(15) == 1_000_000_000_000_000;
    assert Pow10(16) == 10_000_000_000_000_000;
    assert Pow10(17) == 100_000_000_000_000_000;
    assert Pow10(18) == 1_000_000_000_000_000_000;
  }

  /**
   * A document stored by a `store*` operation downloads as the object it was
   * written as, and that object reads back as the same envelope.
   */
  lemma StoredDocumentDownloads(pieces: map<PieceCid, seq<byte>>, envelope: Envelope)
    ensures var bytes := EncodeEnvelope(envelope);
      var fetched := Fetch(pieces[PieceCidOf(bytes) := bytes], PieceCidOf(bytes));
      fetched == Success(EnvelopeJson(envelope)) && EnvelopeFrom(fetched.value) == Some(envelope)
  {
    ParseSerialize(EnvelopeJson(envelope));
    EnvelopeRoundTrip(envelope);
  }

  /** Uploading more documents never changes what an earlier identifier downloads. */
  lemma LaterUploadKeepsEarlier(pieces: map<PieceCid, seq<byte>>, pieceCid: PieceCid, data: seq<byte>)
    requires forall cid :: cid in pieces ==> cid == PieceCidOf(pieces[cid])
    requires pieceCid in pieces
    ensures Fetch(pieces[PieceCidOf(data) := data], pieceCid) == Fetch(pieces, pieceCid)
  {
    if PieceCidOf(data) == pieceCid {
      assert data == pieces[pieceCid];
    }
  }
}
