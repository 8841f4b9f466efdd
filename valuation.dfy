/**
 * The valuation rules of WalletServiceImpl.getWalletSummary, as functions of
 * the holdings' values: each holding's performance, the running total, and
 * the best and worst holding kept by strict comparison.
 */
module Valuation {
  import opened Wrappers
  import opened Decimal
  import opened Assets

  /**
   * Double.MAX_VALUE, exactly as BigDecimal.valueOf(double) reads it
   * (1.7976931348623157E308). The search for the best holding starts from
   * -MaxDouble and the search for the worst from +MaxDouble.
   */
  const MaxDouble: real := 179769313486231570000000000000000000000000000000000000000000000000000000000000000000000000000000000000000000000000000000000000000000000000000000000000000000000000000000000000000000000000000000000000000000000000000000000000000000000000000000000000000000000000000000000000000000000000000000000000000000000000000.0

  /** The exceptions that abort a summary. */
  datatype SummaryError =
    | NullPointer     // a null latestPrice, price or quantity is dereferenced
    | DivisionByZero  // BigDecimal.divide by a zero price throws ArithmeticException

  /** The exception valuing h throws, in the order the Java expression meets them. */
  function Fault(h: Holding): Option<SummaryError> {
    if h.latestPrice.None? || h.price.None? then Some(NullPointer)
    else if h.price.value == 0.0 then Some(DivisionByZero)
    else if h.quantity.None? then Some(NullPointer)
    else None
  }

  predicate Valuable(h: Holding) {
    Fault(h).None?
  }

  predicate AllValuable(hs: seq<Holding>) {
    forall j :: 0 <= j < |hs| ==> Valuable(hs[j])
  }

  /**
   * Performance in percent: the relative change (latest - price) / price,
   * rounded half up to 4 decimals, times 100.
   */
  function Performance(latest: real, price: real): real
    requires price != 0.0
  {
    RoundHalfUp((latest - price) / price, 4) * 100.0
  }

  function PerformanceOf(h: Holding): real
    requires Valuable(h)
  {
    Performance(h.latestPrice.value, h.price.value)
  }

  /** A holding's value: quantity * latestPrice. */
  function Value(quantity: real, latest: real): real {
    quantity * latest
  }

  function ValueOf(h: Holding): real
    requires Valuable(h)
  {
    Value(h.quantity.value, h.latestPrice.value)
  }

  /** The wallet's exact value, summed from the last holding back to the first. */
  function TotalValue(hs: seq<Holding>): real
    requires AllValuable(hs)
  {
    if hs == [] then 0.0 else ValueOf(hs[0]) + TotalValue(hs[1..])
  }

  /** The loop's accumulators: totalValue, bestAsset, bestPerformance, worstAsset, worstPerformance. */
  datatype Tally = Tally(total: real, best: Option<nat>, bestPerformance: real,
                         worst: Option<nat>, worstPerformance: real)

  const Start := Tally(0.0, None, -MaxDouble, None, MaxDouble)

  /** One iteration of the loop, for holding h at position k. */
  function Step(t: Tally, h: Holding, k: nat): Tally
    requires Valuable(h)
  {
    var p := PerformanceOf(h);
    var t' := if p > t.bestPerformance then t.(best := Some(k), bestPerformance := p) else t;
    var t'' := if p < t'.worstPerformance then t'.(worst := Some(k), worstPerformance := p) else t';
    t''.(total := t.total + ValueOf(h))
  }

  /** The loop run over hs: the accumulators at its end, or the exception it stops on. */
  function Tallied(hs: seq<Holding>): Result<Tally, SummaryError>
  {
    if hs == [] then Success(Start)
    else
      var n := |hs| - 1;
      match Tallied(hs[..n])
      case Failure(e) => Failure(e)
      case Success(t) =>
        if Fault(hs[n]).Some? then Failure(Fault(hs[n]).value) else Success(Step(t, hs[n], n))
  }

  /**
   * best names the first holding of maximal performance, and v is that
   * performance; when no performance exceeds -MaxDouble there is none and v
   * stays -MaxDouble.
   */
  predicate IsBest(hs: seq<Holding>, best: Option<nat>, v: real)
    requires AllValuable(hs)
  {
    match best
    case None => v == -MaxDouble && forall j :: 0 <= j < |hs| ==> PerformanceOf(hs[j]) <= -MaxDouble
    case Some(b) =>
      && b < |hs| && v == PerformanceOf(hs[b]) && -MaxDouble < v
      && (forall j :: 0 <= j < |hs| ==> PerformanceOf(hs[j]) <= v)
      && (forall j :: 0 <= j < b ==> PerformanceOf(hs[j]) < v)
  }

  /** The mirror image of IsBest: the first holding of minimal performance, below MaxDouble. */
  predicate IsWorst(hs: seq<Holding>, worst: Option<nat>, v: real)
    requires AllValuable(hs)
  {
    match worst
    case None => v == MaxDouble && forall j :: 0 <= j < |hs| ==> PerformanceOf(hs[j]) >= MaxDouble
    case Some(w) =>
      && w < |hs| && v == PerformanceOf(hs[w]) && v < MaxDouble
      && (forall j :: 0 <= j < |hs| ==> PerformanceOf(hs[j]) >= v)
      && (forall j :: 0 <= j < w ==> PerformanceOf(hs[j]) > v)
  }

  /** Position j holds the first holding that cannot be valued. */
  predicate FirstFault(hs: seq<Holding>, j: nat) {
    j < |hs| && Fault(hs[j]).Some? && forall i :: 0 <= i < j ==> Valuable(hs[i])
  }

  /** One more holding: the loop either throws on it or takes one more Step. */
  lemma TalliedSnoc(hs: seq<Holding>, i: nat)
    requires i < |hs|
    ensures Tallied(hs[..i + 1]) ==
      match Tallied(hs[..i])
      case Failure(e) => Failure(e)
      case Success(t) => if Fault(hs[i]).Some? then Failure(Fault(hs[i]).value) else Success(Step(t, hs[i], i))
  {
    assert hs[..i + 1][..i] == hs[..i];
  }

  /** Once the loop has thrown, later holdings change nothing: the exception leaves the method. */
  lemma {:induction false} FailureSticks(hs: seq<Holding>, n: nat)
    requires n <= |hs| && Tallied(hs[..n]).Failure?
    ensures Tallied(hs) == Tallied(hs[..n])
    decreases |hs| - n
  {
    if n < |hs| {
      assert hs[..n + 1][..n] == hs[..n];
      FailureSticks(hs, n + 1);
    } else {
      assert hs[..n] == hs;
    }
  }

  /** The total can equally be accumulated front to back, as the loop does. */
  lemma {:induction false} TotalValueSnoc(hs: seq<Holding>)
    requires AllValuable(hs) && |hs| > 0
    ensures TotalValue(hs) == TotalValue(hs[..|hs| - 1]) + ValueOf(hs[|hs| - 1])
  {
    var n := |hs| - 1;
    if n > 0 {
      var tail := hs[1..];
      TotalValueSnoc(tail);
      assert tail[..|tail| - 1] == hs[..n][1..];
      assert hs[..n][0] == hs[0];
    }
  }

  /**
   * What the loop computes: it fails exactly when some holding cannot be
   * valued, with the exception of the first such holding; otherwise its total
   * is the exact sum of quantity * latestPrice and it has kept the first
   * holding of maximal and of minimal performance.
   */
  lemma {:induction false} TalliedMeaning(hs: seq<Holding>)
    ensures Tallied(hs).Success? <==> AllValuable(hs)
    ensures Tallied(hs).Failure? ==>
      exists j :: 0 <= j < |hs| && FirstFault(hs, j) && Tallied(hs).error == Fault(hs[j]).value
    ensures Tallied(hs).Success? ==>
      var t := Tallied(hs).value;
      && t.total == TotalValue(hs)
      && IsBest(hs, t.best, t.bestPerformance)
      && IsWorst(hs, t.worst, t.worstPerformance)
  {
    if hs != [] {
      var n := |hs| - 1;
      var front := hs[..n];
      TalliedMeaning(front);
      assert forall j :: 0 <= j < n ==> front[j] == hs[j];
      if Tallied(front).Failure? {
        var j :| 0 <= j < |front| && FirstFault(front, j) && Tallied(front).error == Fault(front[j]).value;
        assert FirstFault(hs, j);
      } else if Fault(hs[n]).Some? {
        assert FirstFault(hs, n);
      } else {
        var t := Tallied(front).value;
        TotalValueSnoc(hs);
        StepKeepsBest(front, hs, t);
        StepKeepsWorst(front, hs, t);
      }
    }
  }

  lemma StepKeepsBest(front: seq<Holding>, hs: seq<Holding>, t: Tally)
    requires |hs| > 0 && front == hs[..|hs| - 1] && AllValuable(hs)
    requires AllValuable(front) && IsBest(front, t.best, t.bestPerformance)
    ensures var t' := Step(t, hs[|hs| - 1], |hs| - 1); IsBest(hs, t'.best, t'.bestPerformance)
  {
    var n := |hs| - 1;
    assert forall j :: 0 <= j < n ==> front[j] == hs[j];
  }

  lemma StepKeepsWorst(front: seq<Holding>, hs: seq<Holding>, t: Tally)
    requires |hs| > 0 && front == hs[..|hs| - 1] && AllValuable(hs)
    requires AllValuable(front) && IsWorst(front, t.worst, t.worstPerformance)
    ensures var t' := Step(t, hs[|hs| - 1], |hs| - 1); IsWorst(hs, t'.worst, t'.worstPerformance)
  {
    var n := |hs| - 1;
    assert forall j :: 0 <= j < n ==> front[j] == hs[j];
  }

  /** The five values getWalletSummary formats: "Total: %.2f, Best Asset: %s (%.2f%%), Worst Asset: %s (%.2f%%)". */
  datatype WalletSummary = WalletSummary(totalValue: real, bestAsset: string, bestPerformance: real,
                                         worstAsset: string, worstPerformance: real)

  /** What %s prints for a holding's symbol: "null" when it has none. */
  function SymbolText(h: Holding): string {
    if h.symbol.Some? then h.symbol.value else "null"
  }

  /** The asset column: "N/A" when no holding was kept. */
  function Label(hs: seq<Holding>, k: Option<nat>): string {
    if k.Some? && k.value < |hs| then SymbolText(hs[k.value]) else "N/A"
  }

  /** The summary as printed: %.2f on a BigDecimal rounds HALF_UP to 2 places. */
  function Render(hs: seq<Holding>, t: Tally): WalletSummary {
    WalletSummary(RoundHalfUp(t.total, 2), Label(hs, t.best), RoundHalfUp(t.bestPerformance, 2),
                  Label(hs, t.worst), RoundHalfUp(t.worstPerformance, 2))
  }

  /** getWalletSummary over the holdings' values: the printed summary, or the exception. */
  function Summarize(hs: seq<Holding>): Result<WalletSummary, SummaryError> {
    match Tallied(hs)
    case Success(t) => Success(Render(hs, t))
    case Failure(e) => Failure(e)
  }

  /**
   * The performance is the percentage change rounded half up to 2 decimals,
   * so %.2f prints it unchanged.
   */
  lemma PerformanceAsPercent(latest: real, price: real)
    requires price != 0.0
    ensures Performance(latest, price) == RoundHalfUp((latest - price) / price * 100.0, 2)
    ensures RoundHalfUp(Performance(latest, price), 2) == Performance(latest, price)
  {
    RoundHalfUpRescale((latest - price) / price);
    RoundHalfUpExact(Performance(latest, price), 2);
  }

  /** With a positive price and a non-negative latest price, a holding cannot lose more than 100%. */
  lemma PerformanceAtLeastMinus100(latest: real, price: real)
    requires price > 0.0 && latest >= 0.0
    ensures Performance(latest, price) >= -100.0
  {
    var ratio := (latest - price) / price;
    assert ratio >= -1.0 by {
      assert ratio * price == latest - price;
      assert (ratio + 1.0) * price == latest;
    }
    assert HasScale(-1.0, 4) by {
      assert Unit(4) == 10000.0;
    }
    RoundHalfUpExact(-1.0, 4);
    RoundHalfUpMonotone(-1.0, ratio, 4);
  }

  /** An empty wallet: total 0, both assets "N/A", performances the two sentinels. */
  lemma EmptyWalletSummary()
    ensures Summarize([]) == Success(WalletSummary(0.0, "N/A", -MaxDouble, "N/A", MaxDouble))
  {
    assert Unit(2) == 100.0;
    RoundHalfUpExact(0.0, 2);
    RoundHalfUpExact(MaxDouble, 2);
    RoundHalfUpExact(-MaxDouble, 2);
  }

  /** The summary fails exactly when some holding cannot be valued, with the first one's exception. */
  lemma SummaryFailure(hs: seq<Holding>)
    ensures Summarize(hs).Failure? <==> !AllValuable(hs)
    ensures Summarize(hs).Failure? ==>
      exists j :: 0 <= j < |hs| && FirstFault(hs, j) && Summarize(hs).error == Fault(hs[j]).value
  {
    TalliedMeaning(hs);
  }

  /**
   * A wallet whose holdings can all be valued: the total is the exact sum of
   * quantity * latestPrice rounded to cents, and when the performances lie
   * strictly between the sentinels and the wallet is not empty, best and
   * worst name the first holdings of maximal and minimal performance, shown
   * exactly, and best performs at least as well as worst.
   */
  lemma SummaryOfValuableWallet(hs: seq<Holding>)
    requires AllValuable(hs)
    ensures Summarize(hs).Success?
    ensures Summarize(hs).value.totalValue == RoundHalfUp(TotalValue(hs), 2)
    ensures |hs| > 0 && (forall j :: 0 <= j < |hs| ==> -MaxDouble < PerformanceOf(hs[j]) < MaxDouble) ==>
      var s := Summarize(hs).value;
      exists b, w ::
        && 0 <= b < |hs| && 0 <= w < |hs|
        && IsBest(hs, Some(b), PerformanceOf(hs[b])) && IsWorst(hs, Some(w), PerformanceOf(hs[w]))
        && s.bestAsset == SymbolText(hs[b]) && s.bestPerformance == PerformanceOf(hs[b])
        && s.worstAsset == SymbolText(hs[w]) && s.worstPerformance == PerformanceOf(hs[w])
        && s.bestPerformance >= s.worstPerformance
  {
    TalliedMeaning(hs);
    var t := Tallied(hs).value;
    if |hs| > 0 && (forall j :: 0 <= j < |hs| ==> -MaxDouble < PerformanceOf(hs[j]) < MaxDouble) {
      assert -MaxDouble < PerformanceOf(hs[0]) < MaxDouble;
      var b, w := t.best.value, t.worst.value;
      PerformanceAsPercent(hs[b].latestPrice.value, hs[b].price.value);
      PerformanceAsPercent(hs[w].latestPrice.value, hs[w].price.value);
      assert PerformanceOf(hs[w]) <= PerformanceOf(hs[b]);
    }
  }

  /**
   * A worked example: four holdings (quantity, price, latestPrice) BTC (0.5,
   * 40000, 45000), ETH (2, 2500, 2700), DOGE (1000, 0.08, 0.10) and ADA (50,
   * 300, 350) are worth 45500.00; DOGE is best at 25.00% and ETH worst at
   * 8.00% (ADA's 16.67% lies between BTC's 12.50% and DOGE's).
   */
  lemma ExampleSummary()
    ensures Summarize([
      Holding(Some(1), Some("BTC"), Some(0.5), Some(40000.0), Some(45000.0)),
      Holding(Some(2), Some("ETH"), Some(2.0), Some(2500.0), Some(2700.0)),
      Holding(Some(3), Some("DOGE"), Some(1000.0), Some(0.08), Some(0.10)),
      Holding(Some(4), Some("ADA"), Some(50.0), Some(300.0), Some(350.0))])
      == Success(WalletSummary(45500.0, "DOGE", 25.0, "ETH", 8.0))
  {
    var btc := Holding(Some(1), Some("BTC"), Some(0.5), Some(40000.0), Some(45000.0));
    var eth := Holding(Some(2), Some("ETH"), Some(2.0), Some(2500.0), Some(2700.0));
    var doge := Holding(Some(3), Some("DOGE"), Some(1000.0), Some(0.08), Some(0.10));
    var ada := Holding(Some(4), Some("ADA"), Some(50.0), Some(300.0), Some(350.0));
    var hs := [btc, eth, doge, ada];
    assert Unit(4) == 10000.0 && Unit(2) == 100.0;
    assert PerformanceOf(btc) == 12.5;
    assert PerformanceOf(eth) == 8.0;
    assert PerformanceOf(doge) == 25.0;
    assert PerformanceOf(ada) == 16.67;
    assert hs[..3] == [btc, eth, doge] && hs[..3][..2] == [btc, eth] && hs[..3][..2][..1] == [btc];
    assert [btc][..0] == [];
    assert Tallied([btc]) == Success(Tally(22500.0, Some(0), 12.5, Some(0), 12.5));
    assert Tallied([btc, eth]) == Success(Tally(27900.0, Some(0), 12.5, Some(1), 8.0));
    assert Tallied([btc, eth, doge]) == Success(Tally(28000.0, Some(2), 25.0, Some(1), 8.0));
    assert Tallied(hs) == Success(Tally(45500.0, Some(2), 25.0, Some(1), 8.0));
    RoundHalfUpExact(45500.0, 2);
    RoundHalfUpExact(25.0, 2);
    RoundHalfUpExact(8.0, 2);
  }
}
