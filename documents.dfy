/**
 * The records the service stores (`EventMetadata`, `ProofOfFunResults`,
 * `MerchItem`), the envelopes each `store*` operation wraps them in, and the
 * JSON objects those envelopes become. Envelope members follow the order of
 * the object literals; record members follow the order the interfaces declare
 * them. A member whose value is `undefined` (the optional
 * `sizes` of an item, the contract address when it is not configured) is left
 * out of the object, as `JSON.stringify` leaves it out.
 *
 * `FromJson` functions are the typed reading of those objects: they accept
 * the member lists the `ToJson` functions write and read back what was written.
 */
module Documents {
  import opened Wrappers
  import opened JsonCodec

  /** A JavaScript number written in decimal: `mantissa` times ten to the `exponent` (4.5 is 45e-1). */
  datatype Decimal = Decimal(mantissa: int, exponent: int)

  datatype EventMetadata = EventMetadata(
    id: int,
    name: string,
    description: string,
    location: string,
    startDate: string,
    endDate: string,
    categories: seq<string>,
    contractAddress: string)

  /** One entry of `category_ratings`: the average, the vote count and the vote count per score. */
  datatype CategoryRating = CategoryRating(
    average: Decimal,
    totalVotes: int,
    distribution: seq<(string, int)>)

  /** `category_ratings` is a record keyed by category name, kept in insertion order. */
  datatype ProofOfFunResults = ProofOfFunResults(
    eventName: string,
    totalVotes: int,
    totalAttendees: int,
    participationRate: Decimal,
    categoryRatings: seq<(string, CategoryRating)>,
    overallRating: Decimal,
    verifiedOnChain: bool)

  datatype MerchItem = MerchItem(
    id: int,
    name: string,
    description: string,
    tokenPrice: Decimal,
    stock: int,
    sizes: Option<seq<string>>,
    category: string)

  /** What is uploaded: a record wrapped with its type tag and the time of the call. */
  datatype Envelope =
    | EventEnvelope(timestamp: string, data: EventMetadata)
    | ResultsEnvelope(
        eventId: int,
        timestamp: string,
        results: ProofOfFunResults,
        blockchainVerified: bool,
        network: string,
        contract: Option<string>)
    | CatalogEnvelope(timestamp: string, totalItems: int, items: seq<MerchItem>)

  const EventMetadataTag := "event_metadata"
  const ResultsTag := "proof_of_fun_results"
  const CatalogTag := "merch_catalog"
  const ResultsNetwork := "Base Sepolia"

  function TypeTag(e: Envelope): string
  {
    match e
    case EventEnvelope(_, _) => EventMetadataTag
    case ResultsEnvelope(_, _, _, _, _, _) => ResultsTag
    case CatalogEnvelope(_, _, _) => CatalogTag
  }

  // ---------------------------------------------------------------------------
  // The envelopes the three store operations build

  /** The object `storeEventMetadata` uploads. */
  function EventDocument(timestamp: string, eventData: EventMetadata): (e: Envelope)
    ensures TypeTag(e) == "event_metadata" && e.timestamp == timestamp && e.data == eventData
  {
    EventEnvelope(timestamp, eventData)
  }

  /**
   * The object `storeProofOfFunResults` uploads: always marked verified on
   * Base Sepolia; `contract` is the configured contract address, if any.
   */
  function ResultsDocument(eventId: int, timestamp: string, results: ProofOfFunResults, contract: Option<string>): (e: Envelope)
    ensures TypeTag(e) == "proof_of_fun_results"
    ensures e.eventId == eventId && e.timestamp == timestamp && e.results == results && e.contract == contract
    ensures e.blockchainVerified && e.network == "Base Sepolia"
  {
    ResultsEnvelope(eventId, timestamp, results, true, ResultsNetwork, contract)
  }

  /** The object `storeMerchCatalog` uploads: the items in their order and how many there are. */
  function CatalogDocument(timestamp: string, items: seq<MerchItem>): (e: Envelope)
    ensures TypeTag(e) == "merch_catalog" && e.timestamp == timestamp
    ensures e.items == items && e.totalItems == |items|
  {
    CatalogEnvelope(timestamp, |items|, items)
  }

  // ---------------------------------------------------------------------------
  // To JSON

  function IntJson(i: int): Json { Num(i, 0) }

  function DecimalJson(d: Decimal): Json { Num(d.mantissa, d.exponent) }

  function StringsJson(ss: seq<string>): (j: Json)
    ensures j.Arr? && |j.items| == |ss|
  {
    Arr(seq(|ss|, i requires 0 <= i < |ss| => Str(ss[i])))
  }

  function DistributionJson(counts: seq<(string, int)>): (j: Json)
    ensures j.Obj? && |j.fields| == |counts|
  {
    Obj(seq(|counts|, i requires 0 <= i < |counts| => Field(counts[i].0, IntJson(counts[i].1))))
  }

  function EventJson(e: EventMetadata): Json
  {
    Obj([
      Field("id", IntJson(e.id)),
      Field("name", Str(e.name)),
      Field("description", Str(e.description)),
      Field("location", Str(e.location)),
      Field("start_date", Str(e.startDate)),
      Field("end_date", Str(e.endDate)),
      Field("categories", StringsJson(e.categories)),
      Field("contract_address", Str(e.contractAddress))])
  }

  function RatingJson(r: CategoryRating): Json
  {
    Obj([
      Field("average", DecimalJson(r.average)),
      Field("total_votes", IntJson(r.totalVotes)),
      Field("distribution", DistributionJson(r.distribution))])
  }

  function RatingsJson(ratings: seq<(string, CategoryRating)>): (j: Json)
    ensures j.Obj? && |j.fields| == |ratings|
  {
    Obj(seq(|ratings|, i requires 0 <= i < |ratings| => Field(ratings[i].0, RatingJson(ratings[i].1))))
  }

  function ResultsJson(r: ProofOfFunResults): Json
  {
    Obj([
      Field("event_name", Str(r.eventName)),
      Field("total_votes", IntJson(r.totalVotes)),
      Field("total_attendees", IntJson(r.totalAttendees)),
      Field("participation_rate", DecimalJson(r.participationRate)),
      Field("category_ratings", RatingsJson(r.categoryRatings)),
      Field("overall_rating", DecimalJson(r.overallRating)),
      Field("verified_on_chain", Bool(r.verifiedOnChain))])
  }

  function ItemJson(m: MerchItem): Json
  {
    Obj([
      Field("id", IntJson(m.id)),
      Field("name", Str(m.name)),
      Field("description", Str(m.description)),
      Field("token_price", DecimalJson(m.tokenPrice)),
      Field("stock", IntJson(m.stock))]
      + (if m.sizes.Some? then [Field("sizes", StringsJson(m.sizes.value))] else [])
      + [Field("category", Str(m.category))])
  }

  function ItemsJson(items: seq<MerchItem>): (j: Json)
    ensures j.Arr? && |j.items| == |items|
  {
    Arr(seq(|items|, i requires 0 <= i < |items| => ItemJson(items[i])))
  }

  /** The object handed to `JSON.stringify`. */
  function EnvelopeJson(e: Envelope): Json
  {
    match e
    case EventEnvelope(timestamp, data) =>
      Obj([
        Field("type", Str(EventMetadataTag)),
        Field("timestamp", Str(timestamp)),
        Field("data", EventJson(data))])
    case ResultsEnvelope(eventId, timestamp, results, verified, network, contract) =>
      ResultsObject(eventId, timestamp, ResultsJson(results), verified, network, contract)
    case CatalogEnvelope(timestamp, totalItems, items) =>
      Obj([
        Field("type", Str(CatalogTag)),
        Field("timestamp", Str(timestamp)),
        Field("total_items", IntJson(totalItems)),
        Field("items", ItemsJson(items))])
  }

  /** The object of a results envelope, around the already converted results. */
  function ResultsObject(eventId: int, timestamp: string, results: Json, verified: bool, network: string, contract: Option<string>): Json
  {
    Obj([
      Field("type", Str(ResultsTag)),
      Field("event_id", IntJson(eventId)),
      Field("timestamp", Str(timestamp)),
      Field("results", results),
      Field("blockchain_verified", Bool(verified)),
      Field("network", Str(network))]
      + (if contract.Some? then [Field("contract", Str(contract.value))] else []))
  }

  /** The bytes uploaded for an envelope. */
  function EncodeEnvelope(e: Envelope): (bytes: seq<byte>)
    ensures |bytes| > 0
  {
    Serialize(EnvelopeJson(e))
  }

  // ---------------------------------------------------------------------------
  // From JSON

  function AsInt(j: Json): Option<int>
  {
    if j.Num? && j.exponent == 0 then Some(j.mantissa) else None
  }

  function AsDecimal(j: Json): Option<Decimal>
  {
    if j.Num? then Some(Decimal(j.mantissa, j.exponent)) else None
  }

  function AsString(j: Json): Option<string>
  {
    if j.Str? then Some(j.s) else None
  }

  function AsBool(j: Json): Option<bool>
  {
    if j.Bool? then Some(j.b) else None
  }

  /** The value of member `i` if it is named `key`. */
  function At(fields: seq<Field>, i: nat, key: string): Option<Json>
  {
    if i < |fields| && fields[i].key == key then Some(fields[i].value) else None
  }

  function StringsFrom(items: seq<Json>): Option<seq<string>>
  {
    if items == [] then Some([])
    else
      var head :- AsString(items[0]);
      var tail :- StringsFrom(items[1..]);
      Some([head] + tail)
  }

  function AsStrings(j: Json): Option<seq<string>>
  {
    if j.Arr? then StringsFrom(j.items) else None
  }

  function DistributionFrom(fields: seq<Field>): Option<seq<(string, int)>>
  {
    if fields == [] then Some([])
    else
      var count :- AsInt(fields[0].value);
      var tail :- DistributionFrom(fields[1..]);
      Some([(fields[0].key, count)] + tail)
  }

  function EventFrom(j: Json): Option<EventMetadata>
  {
    if !j.Obj? || |j.fields| != 8 then None
    else
      var fs := j.fields;
      var id :- At(fs, 0, "id");
      var id :- AsInt(id);
      var name :- At(fs, 1, "name");
      var name :- AsString(name);
      var description :- At(fs, 2, "description");
      var description :- AsString(description);
      var location :- At(fs, 3, "location");
      var location :- AsString(location);
      var startDate :- At(fs, 4, "start_date");
      var startDate :- AsString(startDate);
      var endDate :- At(fs, 5, "end_date");
      var endDate :- AsString(endDate);
      var categories :- At(fs, 6, "categories");
      var categories :- AsStrings(categories);
      var contractAddress :- At(fs, 7, "contract_address");
      var contractAddress :- AsString(contractAddress);
      Some(EventMetadata(id, name, description, location, startDate, endDate, categories, contractAddress))
  }

  function RatingFrom(j: Json): Option<CategoryRating>
  {
    if !j.Obj? || |j.fields| != 3 then None
    else
      var fs := j.fields;
      var average :- At(fs, 0, "average");
      var average :- AsDecimal(average);
      var totalVotes :- At(fs, 1, "total_votes");
      var totalVotes :- AsInt(totalVotes);
      var distribution :- At(fs, 2, "distribution");
      if !distribution.Obj? then None
      else
        var distribution :- DistributionFrom(distribution.fields);
        Some(CategoryRating(average, totalVotes, distribution))
  }

  function RatingsFrom(fields: seq<Field>): Option<seq<(string, CategoryRating)>>
  {
    if fields == [] then Some([])
    else
      var rating :- RatingFrom(fields[0].value);
      var tail :- RatingsFrom(fields[1..]);
      Some([(fields[0].key, rating)] + tail)
  }

  function ResultsFrom(j: Json): Option<ProofOfFunResults>
  {
    if !j.Obj? || |j.fields| != 7 then None
    else
      var fs := j.fields;
      var eventName :- At(fs, 0, "event_name");
      var eventName :- AsString(eventName);
      var totalVotes :- At(fs, 1, "total_votes");
      var totalVotes :- AsInt(totalVotes);
      var totalAttendees :- At(fs, 2, "total_attendees");
      var totalAttendees :- AsInt(totalAttendees);
      var participationRate :- At(fs, 3, "participation_rate");
      var participationRate :- AsDecimal(participationRate);
      var ratings :- At(fs, 4, "category_ratings");
      if !ratings.Obj? then None
      else
        var ratings :- RatingsFrom(ratings.fields);
        var overallRating :- At(fs, 5, "overall_rating");
        var overallRating :- AsDecimal(overallRating);
        var verified :- At(fs, 6, "verified_on_chain");
        var verified :- AsBool(verified);
        Some(ProofOfFunResults(eventName, totalVotes, totalAttendees, participationRate, ratings, overallRating, verified))
  }

  function ItemFrom(j: Json): Option<MerchItem>
  {
    if !j.Obj? || |j.fields| < 6 then None
    else
      var fs := j.fields;
      var id :- At(fs, 0, "id");
      var id :- AsInt(id);
      var name :- At(fs, 1, "name");
      var name :- AsString(name);
      var description :- At(fs, 2, "description");
      var description :- AsString(description);
      var tokenPrice :- At(fs, 3, "token_price");
      var tokenPrice :- AsDecimal(tokenPrice);
      var stock :- At(fs, 4, "stock");
      var stock :- AsInt(stock);
      var sizes :- if |fs| == 6 then Some(None)
                   else if |fs| == 7 && fs[5].key == "sizes" then
                     var sizes :- AsStrings(fs[5].value); Some(Some(sizes))
                   else None;
      var category :- At(fs, |fs| - 1, "category");
      var category :- AsString(category);
      Some(MerchItem(id, name, description, tokenPrice, stock, sizes, category))
  }

  function ItemsFrom(items: seq<Json>): Option<seq<MerchItem>>
  {
    if items == [] then Some([])
    else
      var head :- ItemFrom(items[0]);
      var tail :- ItemsFrom(items[1..]);
      Some([head] + tail)
  }

  /** The typed reading of a downloaded document: which envelope it is, with its payload. */
  function EnvelopeFrom(j: Json): Option<Envelope>
  {
    if !j.Obj? || |j.fields| < 1 then None
    else
      var fs := j.fields;
      var tag :- At(fs, 0, "type");
      var tag :- AsString(tag);
      if tag == EventMetadataTag && |fs| == 3 then
        var timestamp :- At(fs, 1, "timestamp");
        var timestamp :- AsString(timestamp);
        var data :- At(fs, 2, "data");
        var data :- EventFrom(data);
        Some(EventEnvelope(timestamp, data))
      else if tag == ResultsTag && (|fs| == 6 || |fs| == 7) then
        ResultsEnvelopeFrom(fs)
      else if tag == CatalogTag && |fs| == 4 then
        var timestamp :- At(fs, 1, "timestamp");
        var timestamp :- AsString(timestamp);
        var totalItems :- At(fs, 2, "total_items");
        var totalItems :- AsInt(totalItems);
        var items :- At(fs, 3, "items");
        if !items.Arr? then None
        else
          var items :- ItemsFrom(items.items);
          Some(CatalogEnvelope(timestamp, totalItems, items))
      else None
  }

  /** The members of a results envelope after its `type`. */
  function ResultsEnvelopeFrom(fs: seq<Field>): Option<Envelope>
    requires |fs| == 6 || |fs| == 7
  {
    var eventId :- At(fs, 1, "event_id");
    var eventId :- AsInt(eventId);
    var timestamp :- At(fs, 2, "timestamp");
    var timestamp :- AsString(timestamp);
    var results :- At(fs, 3, "results");
    var results :- ResultsFrom(results);
    var verified :- At(fs, 4, "blockchain_verified");
    var verified :- AsBool(verified);
    var network :- At(fs, 5, "network");
    var network :- AsString(network);
    var contract :- if |fs| == 6 then Some(None)
                    else
                      var c :- At(fs, 6, "contract");
                      var c :- AsString(c);
                      Some(Some(c));
    Some(ResultsEnvelope(eventId, timestamp, results, verified, network, contract))
  }

  /** The typed reading of uploaded bytes. */
  function DecodeEnvelope(bytes: seq<byte>): Option<Envelope>
  {
    var j :- Parse(bytes);
    EnvelopeFrom(j)
  }

  // ---------------------------------------------------------------------------
  // Round trips

  lemma {:induction false} StringsRoundTrip(ss: seq<string>)
    ensures StringsFrom(StringsJson(ss).items) == Some(ss)
    decreases |ss|
  {
    if ss != [] {
      assert StringsJson(ss).items[1..] == StringsJson(ss[1..]).items;
      StringsRoundTrip(ss[1..]);
      assert [ss[0]] + ss[1..] == ss;
    }
  }

  lemma {:induction false} DistributionRoundTrip(counts: seq<(string, int)>)
    ensures DistributionFrom(DistributionJson(counts).fields) == Some(counts)
    decreases |counts|
  {
    if counts != [] {
      assert DistributionJson(counts).fields[1..] == DistributionJson(counts[1..]).fields;
      DistributionRoundTrip(counts[1..]);
      assert [(counts[0].0, counts[0].1)] + counts[1..] == counts;
    }
  }

  lemma EventRoundTrip(e: EventMetadata)
    ensures EventFrom(EventJson(e)) == Some(e)
  {
    StringsRoundTrip(e.categories);
  }

  lemma RatingRoundTrip(r: CategoryRating)
    ensures RatingFrom(RatingJson(r)) == Some(r)
  {
    DistributionRoundTrip(r.distribution);
  }

  lemma {:induction false} RatingsRoundTrip(ratings: seq<(string, CategoryRating)>)
    ensures RatingsFrom(RatingsJson(ratings).fields) == Some(ratings)
    decreases |ratings|
  {
    if ratings != [] {
      assert RatingsJson(ratings).fields[1..] == RatingsJson(ratings[1..]).fields;
      RatingRoundTrip(ratings[0].1);
      RatingsRoundTrip(ratings[1..]);
      assert [(ratings[0].0, ratings[0].1)] + ratings[1..] == ratings;
    }
  }

  lemma ResultsRoundTrip(r: ProofOfFunResults)
    ensures ResultsFrom(ResultsJson(r)) == Some(r)
  {
    RatingsRoundTrip(r.categoryRatings);
  }

  lemma ItemRoundTrip(m: MerchItem)
    ensures ItemFrom(ItemJson(m)) == Some(m)
  {
    if m.sizes.Some? {
      StringsRoundTrip(m.sizes.value);
    }
  }

  lemma {:induction false} ItemsRoundTrip(items: seq<MerchItem>)
    ensures ItemsFrom(ItemsJson(items).items) == Some(items)
    decreases |items|
  {
    if items != [] {
      assert ItemsJson(items).items[1..] == ItemsJson(items[1..]).items;
      ItemRoundTrip(items[0]);
      ItemsRoundTrip(items[1..]);
      assert [items[0]] + items[1..] == items;
    }
  }

  /** Reading back the object an envelope was written as gives the envelope. */
  lemma EnvelopeRoundTrip(e: Envelope)
    ensures EnvelopeFrom(EnvelopeJson(e)) == Some(e)
  {
    match e
    case EventEnvelope(_, _) => EventEnvelopeRoundTrip(e);
    case ResultsEnvelope(_, _, _, _, _, _) => ResultsEnvelopeRoundTrip(e);
    case CatalogEnvelope(_, _, _) => CatalogEnvelopeRoundTrip(e);
  }

  lemma EventEnvelopeRoundTrip(e: Envelope)
    requires e.EventEnvelope?
    ensures EnvelopeFrom(EnvelopeJson(e)) == Some(e)
  {
    EventRoundTrip(e.data);
  }

  lemma ResultsEnvelopeRoundTrip(e: Envelope)
    requires e.ResultsEnvelope?
    ensures EnvelopeFrom(EnvelopeJson(e)) == Some(e)
  {
    ResultsRoundTrip(e.results);
    ResultsObjectRoundTrip(e.eventId, e.timestamp, ResultsJson(e.results), e.results, e.blockchainVerified, e.network, e.contract);
  }

  lemma ResultsObjectRoundTrip(eventId: int, timestamp: string, resultsJson: Json, results: ProofOfFunResults,
                               verified: bool, network: string, contract: Option<string>)
    requires ResultsFrom(resultsJson) == Some(results)
    ensures var j := ResultsObject(eventId, timestamp, resultsJson, verified, network, contract);
      EnvelopeFrom(j) == Some(ResultsEnvelope(eventId, timestamp, results, verified, network, contract))
  {
  }

  lemma CatalogEnvelopeRoundTrip(e: Envelope)
    requires e.CatalogEnvelope?
    ensures EnvelopeFrom(EnvelopeJson(e)) == Some(e)
  {
    ItemsRoundTrip(e.items);
  }

  /** Decoding the uploaded bytes of an envelope gives the envelope back. */
  lemma DecodeEncode(e: Envelope)
    ensures DecodeEnvelope(EncodeEnvelope(e)) == Some(e)
  {
    ParseSerialize(EnvelopeJson(e));
    EnvelopeRoundTrip(e);
  }

  /** Two different envelopes are never uploaded as the same bytes. */
  lemma EncodeEnvelopeInjective(e1: Envelope, e2: Envelope)
    requires EncodeEnvelope(e1) == EncodeEnvelope(e2)
    ensures e1 == e2
  {
    DecodeEncode(e1);
    DecodeEncode(e2);
  }

  /** `doc.type` of any envelope's object is its type tag. */
  lemma TypeMember(e: Envelope)
    ensures Member(EnvelopeJson(e), "type") == Some(Str(TypeTag(e)))
  {
  }

  /** `doc.results.overall_rating` of a results envelope's object is the overall rating it was built from. */
  lemma OverallRatingMember(e: Envelope)
    requires e.ResultsEnvelope?
    ensures Member(EnvelopeJson(e), "results") == Some(ResultsJson(e.results))
    ensures Member(ResultsJson(e.results), "overall_rating") == Some(DecimalJson(e.results.overallRating))
  {
    LookupFirst(EnvelopeJson(e).fields, 3, "results");
    LookupFirst(ResultsJson(e.results).fields, 5, "overall_rating");
  }

  // ---------------------------------------------------------------------------
  // What a reader of each uploaded object finds

  /** `storeEventMetadata`'s object: `type` is "event_metadata", then the call's timestamp, then the event. */
  lemma EventDocumentMembers(timestamp: string, eventData: EventMetadata)
    ensures var j := EnvelopeJson(EventDocument(timestamp, eventData));
      Member(j, "type") == Some(Str("event_metadata")) &&
      Member(j, "timestamp") == Some(Str(timestamp)) &&
      Member(j, "data") == Some(EventJson(eventData))
  {
    var fields := EnvelopeJson(EventDocument(timestamp, eventData)).fields;
    LookupFirst(fields, 1, "timestamp");
    LookupFirst(fields, 2, "data");
  }

  /** `storeProofOfFunResults`'s object: tagged "proof_of_fun_results", with the event id and the results. */
  lemma ResultsDocumentMembers(eventId: int, timestamp: string, results: ProofOfFunResults, contract: Option<string>)
    ensures var j := EnvelopeJson(ResultsDocument(eventId, timestamp, results, contract));
      Member(j, "type") == Some(Str("proof_of_fun_results")) &&
      Member(j, "event_id") == Some(IntJson(eventId)) &&
      Member(j, "timestamp") == Some(Str(timestamp)) &&
      Member(j, "results") == Some(ResultsJson(results))
  {
    ResultsObjectMembers(eventId, timestamp, ResultsJson(results), true, ResultsNetwork, contract);
  }

  /**
   * `storeProofOfFunResults`'s object is always marked verified on Base
   * Sepolia, and has a `contract` member exactly when a contract address is
   * configured.
   */
  lemma ResultsDocumentMarks(eventId: int, timestamp: string, results: ProofOfFunResults, contract: Option<string>)
    ensures var j := EnvelopeJson(ResultsDocument(eventId, timestamp, results, contract));
      Member(j, "blockchain_verified") == Some(Bool(true)) &&
      Member(j, "network") == Some(Str("Base Sepolia")) &&
      Member(j, "contract") == (if contract.Some? then Some(Str(contract.value)) else None)
  {
    ResultsObjectMarks(eventId, timestamp, ResultsJson(results), true, ResultsNetwork, contract);
  }

  lemma ResultsObjectMembers(eventId: int, timestamp: string, results: Json, verified: bool, network: string, contract: Option<string>)
    ensures var j := ResultsObject(eventId, timestamp, results, verified, network, contract);
      Member(j, "type") == Some(Str(ResultsTag)) &&
      Member(j, "event_id") == Some(IntJson(eventId)) &&
      Member(j, "timestamp") == Some(Str(timestamp)) &&
      Member(j, "results") == Some(results)
  {
    var fields := ResultsObject(eventId, timestamp, results, verified, network, contract).fields;
    LookupFirst(fields, 1, "event_id");
    LookupFirst(fields, 2, "timestamp");
    LookupFirst(fields, 3, "results");
  }

  lemma ResultsObjectMarks(eventId: int, timestamp: string, results: Json, verified: bool, network: string, contract: Option<string>)
    ensures var j := ResultsObject(eventId, timestamp, results, verified, network, contract);
      Member(j, "blockchain_verified") == Some(Bool(verified)) &&
      Member(j, "network") == Some(Str(network)) &&
      Member(j, "contract") == (if contract.Some? then Some(Str(contract.value)) else None)
  {
    var fields := ResultsObject(eventId, timestamp, results, verified, network, contract).fields;
    LookupFirst(fields, 4, "blockchain_verified");
    LookupFirst(fields, 5, "network");
    if contract.Some? {
      LookupFirst(fields, 6, "contract");
    } else {
      LookupAbsent(fields, "contract");
    }
  }

  /** `storeMerchCatalog`'s object: tagged "merch_catalog", with the item count and the items. */
  lemma CatalogDocumentMembers(timestamp: string, items: seq<MerchItem>)
    ensures var j := EnvelopeJson(CatalogDocument(timestamp, items));
      Member(j, "type") == Some(Str("merch_catalog")) &&
      Member(j, "timestamp") == Some(Str(timestamp)) &&
      Member(j, "total_items") == Some(IntJson(|items|)) &&
      Member(j, "items") == Some(ItemsJson(items))
  {
    var fields := EnvelopeJson(CatalogDocument(timestamp, items)).fields;
    LookupFirst(fields, 1, "timestamp");
    LookupFirst(fields, 2, "total_items");
    LookupFirst(fields, 3, "items");
  }
}
