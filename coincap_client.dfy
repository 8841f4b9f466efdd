/**
 * CoinCapClient: the symbol-to-id listing and the latest-price lookup, over
 * replies that have already been fetched and decoded.
 */
module CoinCap {
  import opened Wrappers
  import opened Decimal
  import opened Text
  import opened Responses

  /** The RuntimeException messages the client throws. */
  datatype ClientError =
    | FailedToFetchValidAssets        // "Failed to fetch valid assets from CoinCap"
    | FailedToFetchPrice(assetId: string)  // "Failed to fetch price for asset ID: " + assetId
    | PriceNotFound(assetId: string)  // "Price not found for asset ID: " + assetId

  /** A listing element whose symbol and id both read as strings. */
  predicate Readable(e: Entry) {
    e.Entry? && e.symbol.Str? && e.id.Str?
  }

  /** The map key an element is filed under: its upper-cased symbol. */
  function Key(e: Entry): string
    requires Readable(e)
  {
    ToUpper(e.symbol.s)
  }

  /** The elements the listing loop walks over: none without a "data" member. */
  function ListedEntries(reply: Reply<ListingBody>): seq<Entry> {
    match reply
    case Reply(Some(ListingBody(Some(Entries(items))))) => items
    case _ => []
  }

  /**
   * The listing can be read without an exception: the request succeeded and
   * "data" is absent, or it is an array whose every element is readable.
   */
  predicate ListingReadable(reply: Reply<ListingBody>) {
    match reply
    case NoReply => false
    case Reply(None) => true
    case Reply(Some(ListingBody(None))) => true
    case Reply(Some(ListingBody(Some(Entries(items))))) =>
      forall j :: 0 <= j < |items| ==> Readable(items[j])
    case Reply(Some(ListingBody(Some(_)))) => false
  }

  /** No element after position j is filed under the same key as element j. */
  predicate LastOfKey(items: seq<Entry>, j: nat, upTo: nat)
    requires j < upTo <= |items|
    requires forall i :: 0 <= i < upTo ==> Readable(items[i])
  {
    forall i :: j < i < upTo ==> Key(items[i]) != Key(items[j])
  }

  /** Every element's key is in m. */
  predicate KeysPresent(entries: seq<Entry>, upTo: nat, m: map<string, string>)
    requires upTo <= |entries|
    requires forall j :: 0 <= j < upTo ==> Readable(entries[j])
  {
    forall j :: 0 <= j < upTo ==> Key(entries[j]) in m
  }

  /** Every key of m is some element's key. */
  predicate KeysListed(entries: seq<Entry>, upTo: nat, m: map<string, string>)
    requires upTo <= |entries|
    requires forall j :: 0 <= j < upTo ==> Readable(entries[j])
  {
    forall k :: k in m ==> exists j :: 0 <= j < upTo && Key(entries[j]) == k
  }

  /** Each key is filed with the id of the last element carrying it. */
  predicate LastWins(entries: seq<Entry>, upTo: nat, m: map<string, string>)
    requires upTo <= |entries|
    requires forall j :: 0 <= j < upTo ==> Readable(entries[j])
    requires KeysPresent(entries, upTo, m)
  {
    forall j :: 0 <= j < upTo && LastOfKey(entries, j, upTo) ==> m[Key(entries[j])] == entries[j].id.s
  }

  /** The map `entries` files every id under, later elements overwriting earlier ones. */
  predicate FilesAll(entries: seq<Entry>, upTo: nat, m: map<string, string>)
    requires upTo <= |entries|
    requires forall j :: 0 <= j < upTo ==> Readable(entries[j])
  {
    KeysPresent(entries, upTo, m) && KeysListed(entries, upTo, m) && LastWins(entries, upTo, m)
  }

  /**
   * fetchValidAssets: files every listed id under its upper-cased symbol,
   * later elements overwriting earlier ones; an unreadable element or a failed
   * request gives the single "Failed to fetch valid assets" error, never a
   * partial map.
   */
  method FetchValidAssets(reply: Reply<ListingBody>) returns (r: Result<map<string, string>, ClientError>)
    ensures r.Success? <==> ListingReadable(reply)
    ensures r.Failure? ==> r.error == FailedToFetchValidAssets
    ensures r.Success? ==> var entries := ListedEntries(reply);
      && (forall j :: 0 <= j < |entries| ==> Readable(entries[j]))
      && FilesAll(entries, |entries|, r.value)
      && (forall k :: k in r.value ==> ToUpper(k) == k)
  {
    var items: seq<Entry>;
    match reply {
      case NoReply =>
        return Failure(FailedToFetchValidAssets);
      case Reply(None) =>
        return Success(map[]);
      case Reply(Some(ListingBody(None))) =>
        return Success(map[]);
      case Reply(Some(ListingBody(Some(data)))) =>
        if !data.Entries? {
          return Failure(FailedToFetchValidAssets);
        }
        items := data.items;
    }
    var symbolToId: map<string, string> := map[];
    var i := 0;
    while i < |items|
      invariant 0 <= i <= |items|
      invariant forall j :: 0 <= j < i ==> Readable(items[j])
      invariant FilesAll(items, i, symbolToId)
      invariant forall k :: k in symbolToId ==> ToUpper(k) == k
    {
      var asset := items[i];
      if !Readable(asset) {
        // a cast fails, or a null reaches toUpperCase or ConcurrentHashMap.put
        return Failure(FailedToFetchValidAssets);
      }
      var symbol := ToUpper(asset.symbol.s);
      ToUpperIdempotent(asset.symbol.s);
      PutKeepsFiling(items, i, symbolToId);
      symbolToId := symbolToId[symbol := asset.id.s];
      i := i + 1;
    }
    return Success(symbolToId);
  }

  /** Filing element i on top of a map that files the first i elements files the first i + 1. */
  lemma PutKeepsFiling(entries: seq<Entry>, i: nat, m: map<string, string>)
    requires i < |entries|
    requires forall j :: 0 <= j <= i ==> Readable(entries[j])
    requires FilesAll(entries, i, m)
    ensures FilesAll(entries, i + 1, m[Key(entries[i]) := entries[i].id.s])
  {
    PutKeepsListed(entries, i, m);
    PutKeepsLastWins(entries, i, m);
  }

  lemma PutKeepsListed(entries: seq<Entry>, i: nat, m: map<string, string>)
    requires i < |entries|
    requires forall j :: 0 <= j <= i ==> Readable(entries[j])
    requires KeysListed(entries, i, m)
    ensures KeysListed(entries, i + 1, m[Key(entries[i]) := entries[i].id.s])
  {
    var m' := m[Key(entries[i]) := entries[i].id.s];
    forall k | k in m' ensures exists j :: 0 <= j < i + 1 && Key(entries[j]) == k {
      if k != Key(entries[i]) {
        var j :| 0 <= j < i && Key(entries[j]) == k;
      }
    }
  }

  lemma PutKeepsLastWins(entries: seq<Entry>, i: nat, m: map<string, string>)
    requires i < |entries|
    requires forall j :: 0 <= j <= i ==> Readable(entries[j])
    requires KeysPresent(entries, i, m) && LastWins(entries, i, m)
    ensures KeysPresent(entries, i + 1, m[Key(entries[i]) := entries[i].id.s])
    ensures LastWins(entries, i + 1, m[Key(entries[i]) := entries[i].id.s])
  {
    var m' := m[Key(entries[i]) := entries[i].id.s];
    forall j | 0 <= j < i + 1 && LastOfKey(entries, j, i + 1)
      ensures m'[Key(entries[j])] == entries[j].id.s
    {
      if j < i {
        assert Key(entries[i]) != Key(entries[j]);
        assert LastOfKey(entries, j, i);
      }
    }
  }

  /** The "data" key is present in a decoded, non-null body. */
  predicate HasData(reply: Reply<PriceBody>) {
    reply.Reply? && reply.body.Some? && reply.body.value.data.Some?
  }

  /** The exact "priceUsd" a reply quotes, when it quotes one. */
  function ReplyPrice(reply: Reply<PriceBody>): Option<real> {
    if HasData(reply) then QuotedPrice(reply.body.value.data.value) else None
  }

  /**
   * getLatestPrice: the quoted priceUsd rounded half up to cents. A reply
   * without "data" is "Price not found"; every other failure, the request's
   * included, is "Failed to fetch price".
   */
  function GetLatestPrice(assetId: string, reply: Reply<PriceBody>): (r: Result<real, ClientError>)
    ensures r.Success? <==> ReplyPrice(reply).Some?
    ensures r.Success? ==> r.value == RoundHalfUp(ReplyPrice(reply).value, 2)
    ensures r.Success? ==> HasScale(r.value, 2) && -0.005 <= r.value - ReplyPrice(reply).value <= 0.005
    ensures r.Failure? && HasData(reply) ==> r.error == FailedToFetchPrice(assetId)
    ensures r.Failure? && reply.Reply? && !HasData(reply) ==> r.error == PriceNotFound(assetId)
    ensures reply.NoReply? ==> r == Failure(FailedToFetchPrice(assetId))
  {
    match reply
    case NoReply => Failure(FailedToFetchPrice(assetId))
    case Reply(Some(PriceBody(Some(data)))) =>
      (match QuotedPrice(data)
       case Some(v) =>
         assert Unit(2) == 100.0;
         Success(RoundHalfUp(v, 2))
       case None => Failure(FailedToFetchPrice(assetId)))
    case Reply(_) => Failure(PriceNotFound(assetId))
  }
}
