/**
 * WalletServiceImpl: the price refresh over all stored assets and the wallet
 * summary. The repository's findAll() is the array of assets handed in, each
 * repository.save(asset) is recorded in the order it happens, and each
 * asset's HTTP reply is an input.
 */
module WalletService {
  import opened Wrappers
  import opened Decimal
  import opened Text
  import opened Responses
  import opened Assets
  import opened Valuation
  import CoinCap

  /** The fixed prefix of every price request. */
  const PriceBaseUrl: string := "https://api.coincap.io/v2/assets/"

  /** The URL an asset's price is requested from: the base followed by the lower-cased symbol. */
  function PriceUrl(symbol: string): string {
    PriceBaseUrl + ToLower(symbol)
  }

  /**
   * Two symbols are priced from the same URL exactly when they agree up to
   * ASCII case, so the upper-case keys of the symbol listing and the held
   * symbols, whatever their case, meet at the same request.
   */
  lemma PriceUrlSameIff(a: string, b: string)
    ensures PriceUrl(a) == PriceUrl(b) <==> ToUpper(a) == ToUpper(b)
  {
    SameLowerIffSameUpper(a, b);
    if PriceUrl(a) == PriceUrl(b) {
      assert ToLower(a) == PriceUrl(a)[|PriceBaseUrl|..];
      assert ToLower(b) == PriceUrl(b)[|PriceBaseUrl|..];
    }
  }

  /** The single exception parsePriceFromResponse throws, whatever went wrong. */
  datatype PriceFailure =
    | RequestFailed        // restTemplate.getForObject threw
    | FailedToParsePrice   // "Failed to parse price from response"

  /**
   * parsePriceFromResponse: the "priceUsd" of the "data" object, rounded half
   * up to 2 decimals; any missing, null or ill-typed piece is one failure.
   */
  function ParsePriceFromResponse(body: Option<PriceBody>): (r: Result<real, PriceFailure>)
    ensures r.Failure? ==> r.error == FailedToParsePrice
    ensures r.Success? <==> body.Some? && body.value.data.Some? && QuotedPrice(body.value.data.value).Some?
    ensures r.Success? ==> var v := QuotedPrice(body.value.data.value).value;
      && r.value == RoundHalfUp(v, 2)
      && HasScale(r.value, 2)
      && -0.005 <= r.value - v <= 0.005
  {
    match body
    case Some(PriceBody(Some(data))) =>
      (match QuotedPrice(data)
       case Some(v) =>
         assert Unit(2) == 100.0;
         Success(RoundHalfUp(v, 2))
       case None => Failure(FailedToParsePrice))
    case _ => Failure(FailedToParsePrice)
  }

  /** One asset's task: the GET, then the parse. */
  function Quote(reply: Reply<PriceBody>): Result<real, PriceFailure> {
    match reply
    case NoReply => Failure(RequestFailed)
    case Reply(body) => ParsePriceFromResponse(body)
  }

  /**
   * The service's own parse and CoinCapClient.getLatestPrice accept the same
   * replies and give the same price.
   */
  lemma QuoteAgreesWithClient(assetId: string, reply: Reply<PriceBody>)
    ensures Quote(reply).Success? <==> CoinCap.GetLatestPrice(assetId, reply).Success?
    ensures Quote(reply).Success? ==> Quote(reply).value == CoinCap.GetLatestPrice(assetId, reply).value
  {
  }

  /** The task for h succeeds, and h is saved: it has a symbol and its reply yields a price. */
  predicate Saves(h: Holding, reply: Reply<PriceBody>) {
    h.symbol.Some? && Quote(reply).Success?
  }

  /**
   * An asset after its task: on success latestPrice becomes the quoted
   * priceUsd rounded half up to cents; on any failure, a null symbol's
   * NullPointerException included, the asset is left as it was. No other
   * field ever changes.
   */
  function Refreshed(h: Holding, reply: Reply<PriceBody>): (r: Holding)
    ensures r.(latestPrice := h.latestPrice) == h
    ensures Saves(h, reply) ==> r.latestPrice == Some(Quote(reply).value)
    ensures !Saves(h, reply) ==> r == h
  {
    if Saves(h, reply) then h.(latestPrice := Some(Quote(reply).value)) else h
  }

  /** What a refreshed asset's latestPrice is, in terms of the reply alone. */
  lemma RefreshedPrice(h: Holding, reply: Reply<PriceBody>)
    requires h.symbol.Some?
    ensures CoinCap.ReplyPrice(reply).Some? ==>
      Refreshed(h, reply).latestPrice == Some(RoundHalfUp(CoinCap.ReplyPrice(reply).value, 2))
    ensures CoinCap.ReplyPrice(reply).None? ==> Refreshed(h, reply) == h
  {
  }

  /** The URL a task requests for h: none when h has no symbol, which throws first. */
  function RequestUrl(h: Holding): Option<string> {
    if h.symbol.Some? then Some(PriceUrl(h.symbol.value)) else None
  }

  /**
   * One submitted task: with a symbol it requests PriceUrl(symbol), parses
   * the reply and, on success, sets latestPrice and saves the asset; any
   * failure is caught and the asset is left as it was. A null symbol throws
   * before the request, so nothing is requested.
   */
  method RefreshTask(asset: WalletAsset, reply: Reply<PriceBody>)
    returns (save: bool, ghost url: Option<string>)
    modifies asset
    ensures asset.View() == Refreshed(old(asset.View()), reply)
    ensures save <==> Saves(old(asset.View()), reply)
    ensures url == RequestUrl(old(asset.View()))
  {
    save, url := false, None;
    if asset.symbol.Some? {
      url := Some(PriceUrl(asset.symbol.value));
      var latestPrice := Quote(reply);
      if latestPrice.Success? {
        asset.SetLatestPrice(Some(latestPrice.value));
        save := true;
      }
    }
  }

  /**
   * updatePricesConcurrently, one task after another: every asset gets its
   * Refreshed value, a failure affecting only its own asset; saved lists, in
   * order and each once, exactly the assets whose task succeeded, and
   * requested maps each asset with a symbol to the URL its price was
   * requested from. The call returns after every asset has been processed.
   */
  method UpdatePricesConcurrently(assets: array<WalletAsset>, replies: seq<Reply<PriceBody>>)
    returns (saved: seq<nat>, ghost requested: seq<Option<string>>)
    requires |replies| == assets.Length
    requires forall i, j :: 0 <= i < j < assets.Length ==> assets[i] != assets[j]
    modifies assets[..]
    ensures forall i :: 0 <= i < assets.Length ==>
      assets[i].View() == Refreshed(old(assets[i].View()), replies[i])
    ensures forall k :: 0 <= k < |saved| ==>
      saved[k] < assets.Length && Saves(old(assets[saved[k]].View()), replies[saved[k]])
    ensures forall i :: 0 <= i < assets.Length && Saves(old(assets[i].View()), replies[i]) ==> i in saved
    ensures forall k, l :: 0 <= k < l < |saved| ==> saved[k] < saved[l]
    ensures |requested| == assets.Length
    ensures forall i :: 0 <= i < assets.Length ==> requested[i] == RequestUrl(old(assets[i].View()))
  {
    saved, requested := [], [];
    var i := 0;
    while i < assets.Length
      invariant 0 <= i <= assets.Length
      invariant forall j :: 0 <= j < i ==> assets[j].View() == Refreshed(old(assets[j].View()), replies[j])
      invariant forall j :: i <= j < assets.Length ==> assets[j].View() == old(assets[j].View())
      invariant forall k :: 0 <= k < |saved| ==>
        saved[k] < i && Saves(old(assets[saved[k]].View()), replies[saved[k]])
      invariant forall j :: 0 <= j < i && Saves(old(assets[j].View()), replies[j]) ==> j in saved
      invariant forall k, l :: 0 <= k < l < |saved| ==> saved[k] < saved[l]
      invariant |requested| == i
      invariant forall j :: 0 <= j < i ==> requested[j] == RequestUrl(old(assets[j].View()))
    {
      label BeforeTask:
      var save, url := RefreshTask(assets[i], replies[i]);
      assert forall j :: 0 <= j < assets.Length && j != i ==> assets[j].View() == old@BeforeTask(assets[j].View());
      requested := requested + [url];
      if save {
        saved := saved + [i];
      }
      i := i + 1;
    }
  }

  /**
   * getWalletSummary: one pass over the assets accumulating the total and the
   * best and worst performer, then the printed summary; a null field or a
   * zero price aborts it with the exception the Java code throws.
   */
  method GetWalletSummary(assets: array<WalletAsset>) returns (r: Result<WalletSummary, SummaryError>)
    ensures r == Summarize(Snapshot(assets[..]))
  {
    var hs := Snapshot(assets[..]);
    var totalValue := 0.0;
    var bestAsset: Option<nat>, worstAsset: Option<nat> := None, None;
    var bestPerformance, worstPerformance := -MaxDouble, MaxDouble;
    var i := 0;
    while i < assets.Length
      invariant 0 <= i <= assets.Length
      invariant Tallied(hs[..i]) == Success(Tally(totalValue, bestAsset, bestPerformance, worstAsset, worstPerformance))
    {
      var asset := assets[i];
      var latest, price, quantity := asset.latestPrice, asset.price, asset.quantity;
      assert hs[i].latestPrice == latest && hs[i].price == price && hs[i].quantity == quantity by {
        assert asset.View() == hs[i];
      }
      TalliedSnoc(hs, i);
      if latest.None? || price.None? {
        FailureSticks(hs, i + 1);
        return Failure(NullPointer);
      }
      if price.value == 0.0 {
        FailureSticks(hs, i + 1);
        return Failure(DivisionByZero);
      }
      ghost var before := Tally(totalValue, bestAsset, bestPerformance, worstAsset, worstPerformance);
      var performance := Performance(latest.value, price.value);
      if quantity.None? {
        FailureSticks(hs, i + 1);
        return Failure(NullPointer);
      }
      totalValue := totalValue + Value(quantity.value, latest.value);
      if performance > bestPerformance {
        bestPerformance := performance;
        bestAsset := Some(i);
      }
      if performance < worstPerformance {
        worstPerformance := performance;
        worstAsset := Some(i);
      }
      assert Step(before, hs[i], i) == Tally(totalValue, bestAsset, bestPerformance, worstAsset, worstPerformance);
      i := i + 1;
    }
    assert hs[..i] == hs;
    r := Success(Render(hs, Tally(totalValue, bestAsset, bestPerformance, worstAsset, worstPerformance)));
  }
}
