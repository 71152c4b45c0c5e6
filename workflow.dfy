/**
 * Clients of `FilecoinStorageService`, proved from its contracts alone: the
 * example workflow (deposit, store an event, its results and a catalog, then
 * download the results and read them) and a session that is closed and opened
 * again.
 */
module Workflow {
  import opened Wrappers
  import opened JsonCodec
  import opened Documents
  import opened StorageNetwork
  import opened FilecoinStorage

  /**
   * The example workflow. It stops at the first error. Without a private key
   * nothing is created; with a balance under 2.5 USDFC the payment is refused
   * before any upload; otherwise the downloaded results document has type
   * `proof_of_fun_results` and carries the overall rating that was stored.
   */
  method FullWorkflow(
    env: Environment, network: Network,
    eventData: EventMetadata, results: ProofOfFunResults, items: seq<MerchItem>,
    eventTime: string, resultsTime: string, catalogTime: string)
    returns (r: Result<Json, Error>)
    requires network.Valid()
    modifies network
    ensures network.Valid()
    ensures OrElse(env.privateKey, "") == "" ==> 
      r == Failure(MissingPrivateKey) && unchanged(network)
    ensures OrElse(env.privateKey, "") != "" && old(network.walletBalance) < 2_500_000_000_000_000_000 ==>
      r == Failure(InsufficientBalance("2.5")) &&
      network.walletBalance == old(network.walletBalance) && network.deposits == old(network.deposits) &&
      network.pieces == old(network.pieces)
    ensures OrElse(env.privateKey, "") != "" && old(network.walletBalance) >= 2_500_000_000_000_000_000 ==>
      r == Success(EnvelopeJson(ResultsDocument(1, resultsTime, results, env.proofOfFunAddress))) &&
      Member(r.value, "type") == Some(Str("proof_of_fun_results")) &&
      Member(r.value, "results") == Some(ResultsJson(results)) &&
      Member(ResultsJson(results), "overall_rating") == Some(DecimalJson(results.overallRating)) &&
      network.walletBalance == old(network.walletBalance) - 2_500_000_000_000_000_000 &&
      network.deposits == old(network.deposits) + [DepositFor(2_500_000_000_000_000_000, network.warmStorageAddress)]
  {
    var created := FilecoinStorageService.Create(None, None, env, network);
    if created.Failure? {
      return Failure(created.error);
    }
    var storage := created.value;
    storage.Initialize();

    DefaultAmountGate(network.walletBalance, network.warmStorageAddress);
    assert storage.synapse != null && storage.network == network;
    var paid := storage.SetupPayment(DefaultDepositAmount);
    if paid.Fail? {
      return Failure(paid.error);
    }

    var providers := storage.GetStorageInfo();
    r := StoreAndReadResults(storage, eventData, results, items, eventTime, resultsTime, catalogTime, env.proofOfFunAddress);
    var document := ResultsDocument(1, resultsTime, results, env.proofOfFunAddress);
    TypeMember(document);
    OverallRatingMember(document);
    storage.Close();
  }

  /**
   * The storing part of the example workflow: the event, its results and the
   * catalog are uploaded in that order, and the results downloaded afterwards
   * are the object that was stored, although the catalog was uploaded later.
   */
  method StoreAndReadResults(
    storage: FilecoinStorageService,
    eventData: EventMetadata, results: ProofOfFunResults, items: seq<MerchItem>,
    eventTime: string, resultsTime: string, catalogTime: string, contract: Option<string>)
    returns (r: Result<Json, Error>)
    requires storage.Valid() && storage.isInitialized
    modifies storage.network
    ensures storage.Valid()
    ensures storage.network.walletBalance == old(storage.network.walletBalance)
    ensures storage.network.deposits == old(storage.network.deposits)
    ensures r == Success(EnvelopeJson(ResultsDocument(1, resultsTime, results, contract)))
  {
    var eventReceipt := storage.StoreEventMetadata(eventData, eventTime);
    var proofReceipt := storage.StoreProofOfFunResults(1, results, resultsTime, contract);
    ghost var afterProof := storage.network.pieces;
    var merchReceipt := storage.StoreMerchCatalog(items, catalogTime);

    var document := ResultsDocument(1, resultsTime, results, contract);
    var cid := proofReceipt.value.pieceCid;
    StoredDocumentDownloads(afterProof - {cid}, document);
    assert afterProof == (afterProof - {cid})[cid := EncodeEnvelope(document)];
    LaterUploadKeepsEarlier(afterProof, cid, EncodeEnvelope(CatalogDocument(catalogTime, items)));
    r := storage.Download(cid);
  }

  /**
   * A closed session refuses to store, and opening it again makes storing work:
   * `close` is not final.
   */
  method ReopenAfterClose(storage: FilecoinStorageService, eventData: EventMetadata, timestamp: string)
    returns (whileClosed: Result<UploadReceipt, Error>, afterReopen: Result<UploadReceipt, Error>)
    requires storage.Valid()
    modifies storage, storage.network
    ensures storage.Valid() && storage.isInitialized
    ensures whileClosed == Failure(NotInitialized)
    ensures afterReopen.Success? && afterReopen.value.pieceCid == PieceCidOf(EncodeEnvelope(EventDocument(timestamp, eventData)))
  {
    storage.Initialize();
    storage.Close();
    whileClosed := storage.StoreEventMetadata(eventData, timestamp);
    storage.Initialize();
    afterReopen := storage.StoreEventMetadata(eventData, timestamp);
  }
}
