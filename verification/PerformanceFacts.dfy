/** What the fixed-quantity model reports, said of the candles and allocations themselves. */
module PerformanceFacts {
  import opened Results
  import opened Performance

  // ---- closes ----

  /** The last usable candle of the day has this close. */
  predicate Closed(candles: seq<Candle>, today: int, d: int, close: real) {
    exists k :: 0 <= k < |candles| && LastOf(candles, k, d) && candles[k].close == close && d <= today
  }

  predicate LastOf(candles: seq<Candle>, k: nat, d: int)
    requires k < |candles|
  {
    && candles[k].date == Some(d) && candles[k].close > 0.0
    && forall j :: k < j < |candles| && candles[j].date == Some(d) ==> candles[j].close <= 0.0
  }

  lemma LastOfNext(candles: seq<Candle>, d: int, close: real, today: int)
    requires candles != []
    ensures var last := candles[|candles| - 1];
            Closed(candles, today, d, close) <==>
              if last.date == Some(d) && last.close > 0.0 then last.close == close && d <= today
              else Closed(candles[..|candles| - 1], today, d, close)
  {
    var n := |candles| - 1;
    var front := candles[..n];
    if candles[n].date == Some(d) && candles[n].close > 0.0 {
      assert LastOf(candles, n, d);
      assert forall k :: 0 <= k < n ==> !LastOf(candles, k, d);
    } else {
      forall k | 0 <= k < n ensures LastOf(candles, k, d) <==> LastOf(front, k, d) {
        assert front[k] == candles[k];
      }
      assert forall k :: 0 <= k < n ==> front[k].close == candles[k].close;
      assert !LastOf(candles, n, d);
    }
  }

  /** The recorded closes are exactly those of the last usable candle of each day up to today. */
  lemma {:induction false} ClosesAre(candles: seq<Candle>, today: int, d: int, close: real)
    ensures d in Closes(candles, today) && Closes(candles, today)[d] == close <==> Closed(candles, today, d, close)
  {
    if candles != [] {
      ClosesAre(candles[..|candles| - 1], today, d, close);
      LastOfNext(candles, d, close, today);
      if candles[|candles| - 1].date == Some(d) && candles[|candles| - 1].close > 0.0 && d > today {
        assert d !in Closes(candles, today);
      }
    }
  }

  /** A symbol's close on a day is that of its last usable candle of the day. */
  lemma CloseOnIs(symbol: Symbol, underlying: Underlying, today: int, d: int, close: real)
    requires close > 0.0
    ensures CloseOn(symbol, d, underlying, today) == close <==>
              symbol in underlying && Closed(underlying[symbol].candles, today, d, close)
  {
    if symbol in underlying { ClosesAre(underlying[symbol].candles, today, d, close); }
  }

  /** The symbol is priced on the day. */
  predicate Quoted(symbol: Symbol, underlying: Underlying, today: int, d: int) {
    && symbol in underlying && d <= today
    && exists k :: 0 <= k < |underlying[symbol].candles|
                   && underlying[symbol].candles[k].date == Some(d) && underlying[symbol].candles[k].close > 0.0
  }

  lemma {:induction false} DatesAre(candles: seq<Candle>, today: int, d: int)
    ensures d in Dates(candles, today) <==>
              d <= today && exists k :: 0 <= k < |candles| && candles[k].date == Some(d) && candles[k].close > 0.0
  {
    if candles != [] {
      var n := |candles| - 1;
      DatesAre(candles[..n], today, d);
      assert forall k :: 0 <= k < n ==> candles[..n][k] == candles[k];
      assert Counts(candles[n], today) && candles[n].date == Some(d) ==> d in Dates(candles, today);
    }
  }

  lemma CloseDatesAre(symbol: Symbol, underlying: Underlying, today: int, d: int)
    ensures d in CloseDates(symbol, underlying, today) <==> Quoted(symbol, underlying, today, d)
  {
    if symbol in underlying { DatesAre(underlying[symbol].candles, today, d); }
  }

  // ---- why a symbol fails ----

  predicate InDollars(symbol: Symbol, underlying: Underlying) {
    symbol in underlying && underlying[symbol].currency == "USD" && underlying[symbol].symbol == symbol
  }

  /** Some close is at most four days old. */
  ghost predicate Recent(symbol: Symbol, underlying: Underlying, today: int) {
    exists d :: Quoted(symbol, underlying, today, d) && d >= today - 4
  }

  /** Some close is within four days of the base date. */
  ghost predicate Based(symbol: Symbol, underlying: Underlying, today: int) {
    exists d :: Quoted(symbol, underlying, today, d) && 20_697 <= d <= 20_701
  }

  ghost predicate Healthy(symbol: Symbol, underlying: Underlying, today: int) {
    InDollars(symbol, underlying) && Recent(symbol, underlying, today) && Based(symbol, underlying, today)
  }

  ghost predicate Ails(symbol: Symbol, underlying: Underlying, today: int, reason: Reason) {
    var priced := InDollars(symbol, underlying) && exists d :: Quoted(symbol, underlying, today, d);
    match reason
    case ClosesUnavailable(s) => s == symbol && !priced
    case ClosesStale(s) => s == symbol && priced && !Recent(symbol, underlying, today)
    case BaseUnavailable(s) =>
      && s == symbol && priced && Recent(symbol, underlying, today) && !Based(symbol, underlying, today)
    case _ => false
  }

  /** The newest date decides whether any is recent. */
  lemma NewestDecides(dates: seq<int>, today: int)
    requires Ascending(dates) && dates != []
    ensures (exists d :: d in dates && d >= today - 4) <==> dates[|dates| - 1] >= today - 4
  {
    BeforeLast(dates);
    assert dates[|dates| - 1] in dates;
  }

  lemma AsDates(symbol: Symbol, underlying: Underlying, today: int)
    ensures var dates := CloseDates(symbol, underlying, today);
            && ((exists d :: Quoted(symbol, underlying, today, d)) <==> dates != [])
            && (Recent(symbol, underlying, today) <==> exists d :: d in dates && d >= today - 4)
            && (Based(symbol, underlying, today) <==> exists d :: d in dates && NearBase(d))
  {
    var dates := CloseDates(symbol, underlying, today);
    forall d ensures d in dates <==> Quoted(symbol, underlying, today, d) {
      CloseDatesAre(symbol, underlying, today, d);
    }
    if dates != [] { assert dates[0] in dates; }
    if Based(symbol, underlying, today) {
      var d :| Quoted(symbol, underlying, today, d) && 20_697 <= d <= 20_701;
      assert d in dates && NearBase(d);
    }
  }

  /** A symbol fails for the first of: no dollar closes, only old ones, none near the base date. */
  lemma SymbolFailureIs(symbol: Symbol, underlying: Underlying, today: int, reason: Reason)
    ensures SymbolFailure(symbol, underlying, today) == Some(reason) <==> Ails(symbol, underlying, today, reason)
    ensures SymbolFailure(symbol, underlying, today).None? <==> Healthy(symbol, underlying, today)
  {
    if InDollars(symbol, underlying) {
      AsDates(symbol, underlying, today);
      var dates := CloseDates(symbol, underlying, today);
      if dates != [] { NewestDecides(dates, today); }
    }
  }

  // ---- why a basket fails ----

  predicate Weighted(allocations: seq<Allocation>) {
    && |allocations| >= 2 && |allocations| <= 20
    && (forall i, j :: 0 <= i < |allocations| && 0 <= j < |allocations| ==>
          allocations[i].symbol == allocations[j].symbol ==> i == j)
    && (forall i :: 0 <= i < |allocations| ==> allocations[i].weight >= 1)
    && WeightSum(allocations) == 10_000
  }

  /** The first failing symbol, and nothing before it fails. */
  ghost predicate FirstAils(allocations: seq<Allocation>, underlying: Underlying, today: int, reason: Reason) {
    exists k :: 0 <= k < |allocations| && Ails(allocations[k].symbol, underlying, today, reason)
                && HealthyUpTo(allocations, k, underlying, today)
  }

  ghost predicate HealthyUpTo(allocations: seq<Allocation>, k: nat, underlying: Underlying, today: int)
    requires k <= |allocations|
  {
    forall j :: 0 <= j < k ==> Healthy(allocations[j].symbol, underlying, today)
  }

  lemma FirstAilsNext(allocations: seq<Allocation>, underlying: Underlying, today: int, reason: Reason)
    requires allocations != []
    ensures var n := |allocations| - 1;
            FirstAils(allocations, underlying, today, reason) <==>
              || FirstAils(allocations[..n], underlying, today, reason)
              || (HealthyUpTo(allocations, n, underlying, today)
                  && Ails(allocations[n].symbol, underlying, today, reason))
  {
    var n := |allocations| - 1;
    var front := allocations[..n];
    assert forall j :: 0 <= j < n ==> front[j] == allocations[j];
    if FirstAils(front, underlying, today, reason) {
      var k :| 0 <= k < n && Ails(front[k].symbol, underlying, today, reason)
               && HealthyUpTo(front, k, underlying, today);
      assert HealthyUpTo(allocations, k, underlying, today);
    }
    if FirstAils(allocations, underlying, today, reason) {
      var k :| 0 <= k < |allocations| && Ails(allocations[k].symbol, underlying, today, reason)
               && HealthyUpTo(allocations, k, underlying, today);
      if k < n { assert front[k] == allocations[k] && HealthyUpTo(front, k, underlying, today); }
    }
  }

  lemma {:induction false} SymbolsFailureIs(allocations: seq<Allocation>, underlying: Underlying, today: int,
                                            reason: Reason)
    ensures SymbolsFailure(allocations, underlying, today) == Some(reason) <==>
              FirstAils(allocations, underlying, today, reason)
    ensures SymbolsFailure(allocations, underlying, today).None? <==>
              HealthyUpTo(allocations, |allocations|, underlying, today)
  {
    if allocations != [] {
      var n := |allocations| - 1;
      var front := allocations[..n];
      SymbolsFailureIs(front, underlying, today, reason);
      SymbolFailureIs(allocations[n].symbol, underlying, today, reason);
      assert forall j :: 0 <= j < n ==> front[j] == allocations[j];
      assert HealthyUpTo(front, n, underlying, today) <==> HealthyUpTo(allocations, n, underlying, today);
      FirstAilsNext(allocations, underlying, today, reason);
    }
  }

  ghost predicate Sickly(basket: Basket, underlying: Underlying, today: int, reason: Reason) {
    if Weighted(basket.allocations) then FirstAils(basket.allocations, underlying, today, reason)
    else reason == WeightsIncomplete
  }

  ghost predicate Sound(basket: Basket, underlying: Underlying, today: int) {
    && Weighted(basket.allocations)
    && HealthyUpTo(basket.allocations, |basket.allocations|, underlying, today)
  }

  /** A basket fails for its weights before any symbol, and for its first failing symbol only. */
  lemma BasketFailureIs(basket: Basket, underlying: Underlying, today: int, reason: Reason)
    ensures BasketFailure(basket, underlying, today) == Some(reason) <==> Sickly(basket, underlying, today, reason)
    ensures BasketFailure(basket, underlying, today).None? <==> Sound(basket, underlying, today)
  {
    assert Weighted(basket.allocations) <==> WeightsComplete(basket.allocations);
    SymbolsFailureIs(basket.allocations, underlying, today, reason);
  }

  /** The last failing basket of that id. */
  ghost predicate LastUnsound(baskets: seq<Basket>, i: nat, underlying: Underlying, today: int, id: string)
    requires i < |baskets|
  {
    && baskets[i].id == id && !Sound(baskets[i], underlying, today)
    && SoundFrom(baskets, i + 1, underlying, today, id)
  }

  ghost predicate SoundFrom(baskets: seq<Basket>, i: nat, underlying: Underlying, today: int, id: string) {
    forall j :: i <= j < |baskets| && baskets[j].id == id ==> Sound(baskets[j], underlying, today)
  }

  lemma {:induction false} UnrecordedIsSound(baskets: seq<Basket>, underlying: Underlying, today: int, id: string)
    ensures id !in Failures(baskets, underlying, today) <==> SoundFrom(baskets, 0, underlying, today, id)
  {
    if baskets != [] {
      var n := |baskets| - 1;
      UnrecordedIsSound(baskets[..n], underlying, today, id);
      assert forall j :: 0 <= j < n ==> baskets[..n][j] == baskets[j];
      BasketFailureIs(baskets[n], underlying, today, WeightsIncomplete);
    }
  }

  /** What is recorded under an id is the failure of the last failing basket of that id. */
  lemma {:induction false} RecordedIsLast(baskets: seq<Basket>, underlying: Underlying, today: int, id: string)
    returns (i: nat)
    requires id in Failures(baskets, underlying, today)
    ensures i < |baskets| && LastUnsound(baskets, i, underlying, today, id)
    ensures Sickly(baskets[i], underlying, today, Failures(baskets, underlying, today)[id])
  {
    var n := |baskets| - 1;
    var failure := BasketFailure(baskets[n], underlying, today);
    BasketFailureIs(baskets[n], underlying, today, if failure.Some? then failure.value else WeightsIncomplete);
    if baskets[n].id == id && failure.Some? {
      i := n;
    } else {
      i := RecordedIsLast(baskets[..n], underlying, today, id);
      assert forall j :: 0 <= j < n ==> baskets[..n][j] == baskets[j];
    }
  }

  lemma {:induction false} EligibleAre(baskets: seq<Basket>, underlying: Underlying, today: int, basket: Basket)
    ensures basket in Eligible(baskets, underlying, today) <==> basket in baskets && Sound(basket, underlying, today)
  {
    if baskets != [] {
      var n := |baskets| - 1;
      EligibleAre(baskets[..n], underlying, today, basket);
      assert baskets == baskets[..n] + [baskets[n]];
      BasketFailureIs(baskets[n], underlying, today, WeightsIncomplete);
    }
  }

  // ---- the shared dates ----

  /** Every symbol of every sound basket is priced on the day, and there is a sound basket. */
  ghost predicate Everywhere(baskets: seq<Basket>, underlying: Underlying, today: int, d: int) {
    && (exists basket :: basket in baskets && Sound(basket, underlying, today))
    && forall basket :: basket in baskets && Sound(basket, underlying, today) ==>
         AllQuoted(basket, underlying, today, d)
  }

  predicate AllQuoted(basket: Basket, underlying: Underlying, today: int, d: int) {
    forall k :: 0 <= k < |basket.allocations| ==> Quoted(basket.allocations[k].symbol, underlying, today, d)
  }

  lemma CommonIsQuoted(date: int, eligible: seq<Basket>, underlying: Underlying, today: int)
    ensures IsCommon(date, eligible, underlying, today) <==>
              forall basket :: basket in eligible ==> AllQuoted(basket, underlying, today, date)
  {
    forall symbol ensures date in CloseDates(symbol, underlying, today) <==> Quoted(symbol, underlying, today, date) {
      CloseDatesAre(symbol, underlying, today, date);
    }
    if forall basket :: basket in eligible ==> AllQuoted(basket, underlying, today, date) {
      forall i, k | 0 <= i < |eligible| && 0 <= k < |eligible[i].allocations|
        ensures date in CloseDates(eligible[i].allocations[k].symbol, underlying, today)
      {
        assert AllQuoted(eligible[i], underlying, today, date);
      }
    }
  }

  /** The common dates are exactly the days on which every symbol of every sound basket is priced. */
  lemma CommonDatesAre(baskets: seq<Basket>, underlying: Underlying, today: int, d: int)
    ensures d in CommonDates(Eligible(baskets, underlying, today), underlying, today) <==>
              Everywhere(baskets, underlying, today, d)
  {
    var eligible := Eligible(baskets, underlying, today);
    forall basket ensures basket in eligible <==> basket in baskets && Sound(basket, underlying, today) {
      EligibleAre(baskets, underlying, today, basket);
    }
    CommonIsQuoted(d, eligible, underlying, today);
    if eligible != [] {
      assert eligible[0] in eligible && Sound(eligible[0], underlying, today);
      if Everywhere(baskets, underlying, today, d) {
        assert AllQuoted(eligible[0], underlying, today, d);
        CloseDatesAre(eligible[0].allocations[0].symbol, underlying, today, d);
      }
    }
  }

  /** The base is the first common date of the five days from 1 September 2026 on. */
  ghost predicate IsBase(common: seq<int>, base: int) {
    && base in common && 20_697 <= base <= 20_701
    && forall d :: d in common && 20_697 <= d ==> base <= d
  }

  ghost predicate HasBase(common: seq<int>) {
    exists d :: d in common && 20_697 <= d <= 20_701
  }

  lemma BaseDateIs(common: seq<int>)
    requires Ascending(common)
    ensures if HasBase(common) then IsBase(common, BaseDate(common))
            else BaseDate(common) == 20_697 && BaseDate(common) !in common
  {
    var near := Keep(common, NearBase);
    if near != [] { assert near[0] in near && near[0] in common && NearBase(near[0]); }
    if HasBase(common) {
      var d :| d in common && 20_697 <= d <= 20_701;
      assert NearBase(d) && d in near;
      forall e | e in common && 20_697 <= e ensures near[0] <= e {
        if e <= 20_701 { assert NearBase(e) && e in near; }
      }
    }
  }

  /** The window starts at the latest common date that is not before the base and at least a week before the last. */
  ghost predicate IsStart(common: seq<int>, base: int, start: int) {
    && start in common && base <= start <= common[|common| - 1] - 7
    && forall d :: d in common && d <= common[|common| - 1] - 7 ==> d <= start
  }

  lemma WindowStartIs(common: seq<int>)
    requires Ascending(common) && common != []
    ensures match WindowStart(common)
            case Some(start) => IsStart(common, BaseDate(common), start)
            case None => forall d :: d in common && d >= BaseDate(common) ==> d > common[|common| - 1] - 7
  {
    var window := Keep(common, d => BaseDate(common) <= d <= common[|common| - 1] - 7);
    if window != [] {
      var start := window[|window| - 1];
      BeforeLast(window);
      assert start in window;
      forall d | d in common && d <= common[|common| - 1] - 7 ensures d <= start {
        if d >= BaseDate(common) { assert d in window; }
      }
    } else {
      assert forall d :: d !in window;
    }
  }

  /** Some common date, not before the base, is seven to eleven days before the last one. */
  ghost predicate HasWindow(common: seq<int>, base: int) {
    common != [] && exists d :: d in common && d >= base && 7 <= common[|common| - 1] - d <= 11
  }

  lemma WindowFits(common: seq<int>)
    requires Ascending(common) && common != []
    ensures HasWindow(common, BaseDate(common)) <==>
              WindowStart(common).Some? && common[|common| - 1] - 7 - WindowStart(common).value <= MAX_AGE
  {
    WindowStartIs(common);
    if WindowStart(common).Some? { assert IsStart(common, BaseDate(common), WindowStart(common).value); }
  }

  /** The three shared failures, in the order in which they are looked for. */
  lemma SharedFailureIs(common: seq<int>, today: int)
    requires Ascending(common)
    ensures SharedFailure(common, today) ==
              if !HasBase(common) then Some(SharedBaseUnavailable)
              else if today - common[|common| - 1] > 4 then Some(SharedStale)
              else if !HasWindow(common, BaseDate(common)) then Some(NoSevenDayBaseline) else None
  {
    BaseDateIs(common);
    if common != [] { WindowFits(common); }
  }

  // ---- values ----

  function Worth(units: real, close: real): real {
    units * close
  }

  /** What a holding of these units is worth on the day. */
  function Holding(allocations: seq<Allocation>, units: seq<real>, date: int, underlying: Underlying, today: int): real
    requires |units| == |allocations|
  {
    if allocations == [] then 0.0
    else
      var n := |allocations| - 1;
      Worth(units[n], CloseOn(allocations[n].symbol, date, underlying, today))
      + Holding(allocations[..n], units[..n], date, underlying, today)
  }

  /** Units that put each weight's percentage into its symbol at the base close. */
  predicate BoughtOne(a: Allocation, units: real, base: int, underlying: Underlying, today: int) {
    var close := CloseOn(a.symbol, base, underlying, today);
    close > 0.0 && units * close == a.weight as real / 100.0
  }

  predicate Bought(allocations: seq<Allocation>, units: seq<real>, base: int, underlying: Underlying, today: int) {
    && |units| == |allocations|
    && forall k :: 0 <= k < |units| ==> BoughtOne(allocations[k], units[k], base, underlying, today)
  }

  lemma UnitsTimesClose(weight: int, baseClose: real, units: real, close: real)
    requires baseClose > 0.0 && units * baseClose == weight as real / 100.0
    ensures Position(weight, baseClose, close) == Worth(units, close)
  {
    assert weight as real / 100.0 / baseClose == units;
    assert BASE_VALUE * weight as real / 10_000.0 == weight as real / 100.0;
  }

  lemma PositionIsWorth(a: Allocation, units: real, base: int, date: int, underlying: Underlying, today: int)
    requires BoughtOne(a, units, base, underlying, today)
    ensures PositionOn(a, base, date, underlying, today) == Worth(units, CloseOn(a.symbol, date, underlying, today))
  {
    UnitsTimesClose(a.weight, CloseOn(a.symbol, base, underlying, today), units,
                    CloseOn(a.symbol, date, underlying, today));
  }

  /** The model values units that were fixed at the base and never rebalanced. */
  lemma {:induction false} ValueIsHolding(allocations: seq<Allocation>, units: seq<real>, base: int, date: int,
                                          underlying: Underlying, today: int)
    requires Bought(allocations, units, base, underlying, today)
    ensures ValueAt(allocations, base, date, underlying, today)
              == Holding(allocations, units, date, underlying, today)
  {
    if allocations != [] {
      var n := |allocations| - 1;
      ValueIsHolding(allocations[..n], units[..n], base, date, underlying, today);
      PositionIsWorth(allocations[n], units[n], base, date, underlying, today);
    }
  }

  // ---- the response ----

  lemma {:induction false} ReadyCountIs(items: seq<Item>)
    ensures ReadyCount(items) == 0 <==> forall i :: 0 <= i < |items| ==> items[i].Unavailable?
    ensures ReadyCount(items) <= |items|
    ensures ReadyCount(items) == |items| <==> forall i :: 0 <= i < |items| ==> items[i].Ready?
  {
    if items != [] {
      var n := |items| - 1;
      ReadyCountIs(items[..n]);
      assert forall i :: 0 <= i < n ==> items[..n][i] == items[i];
    }
  }

  /** The status by the items alone; the shared dates are reported exactly when some item is ready. */
  lemma StatusIs(baskets: seq<Basket>, underlying: Underlying, today: int)
    ensures var r := Calculated(baskets, underlying, today);
            && (r.status == NoneReady <==> forall i :: 0 <= i < |r.items| ==> r.items[i].Unavailable?)
            && (r.status == AllReady <==> r.items != [] && forall i :: 0 <= i < |r.items| ==> r.items[i].Ready?)
            && r.fetchedOn == today
            && (r.status == NoneReady <==> r.asOf.None?) && (r.status == NoneReady <==> r.windowStart.None?)
  {
    var r := Calculated(baskets, underlying, today);
    ReadyCountIs(r.items);
    if ReadyCount(r.items) > 0 {
      var common := CommonDates(Eligible(baskets, underlying, today), underlying, today);
      var i :| 0 <= i < |r.items| && r.items[i].Ready?;
      ReadyItem(baskets[i], Failures(baskets, underlying, today), common, underlying, today);
    }
  }

  /** A point for each common date from the base on, in order, with the value of that date. */
  ghost predicate Plotted(series: seq<(int, real)>, basket: Basket, common: seq<int>, base: int,
                          underlying: Underlying, today: int)
  {
    && (forall k :: 0 <= k < |series| ==> PointOf(series[k], basket, common, base, underlying, today))
    && (forall d :: d in common && d >= base ==> HasPoint(series, d))
    && (forall k, l :: 0 <= k < l < |series| ==> series[k].0 < series[l].0)
  }

  predicate HasPoint(series: seq<(int, real)>, d: int) {
    exists k :: 0 <= k < |series| && series[k].0 == d
  }

  predicate PointOf(point: (int, real), basket: Basket, common: seq<int>, base: int, underlying: Underlying, today: int)
  {
    && point.0 in common && point.0 >= base
    && point.1 == if point.0 == base then 100.0 else ValueAt(basket.allocations, base, point.0, underlying, today)
  }

  lemma SeriesPlotted(dates: seq<int>, basket: Basket, common: seq<int>, base: int, underlying: Underlying,
                      today: int)
    requires Ascending(dates) && forall d :: d in dates <==> d in common && d >= base
    ensures Plotted(SeriesFrom(dates, basket.allocations, base, underlying, today), basket, common, base, underlying,
                    today)
  {
    var series := SeriesFrom(dates, basket.allocations, base, underlying, today);
    forall k | 0 <= k < |series| ensures PointOf(series[k], basket, common, base, underlying, today) {
      assert dates[k] in dates;
    }
    forall d | d in common && d >= base ensures HasPoint(series, d) {
      var k :| 0 <= k < |dates| && dates[k] == d;
      assert series[k].0 == d;
    }
  }

  /** The item of one basket: its recorded failure, a shared failure, or the numbers of the shared window. */
  ghost predicate Reported(item: Item, basket: Basket, failures: map<string, Reason>, common: seq<int>,
                           underlying: Underlying, today: int)
    requires Ascending(common)
  {
    var base := BaseDate(common);
    var shared := SharedFailure(common, today);
    && item.basketId == basket.id
    && if basket.id in failures then item.Unavailable? && item.reason == failures[basket.id]
       else if shared.Some? then item.Unavailable? && item.reason == shared.value
       else
         && common != []
         && var asOf := common[|common| - 1];
            && WindowStart(common).Some?
            && if ValueAt(basket.allocations, base, asOf, underlying, today) > 0.0
                  && ValueAt(basket.allocations, base, WindowStart(common).value, underlying, today) > 0.0
               then item.Ready? && item.asOf == asOf && item.windowStart == WindowStart(common).value
                    && Plotted(item.series, basket, common, base, underlying, today)
               else item.Unavailable? && item.reason == NoValue
  }

  lemma ItemReported(baskets: seq<Basket>, i: nat, failures: map<string, Reason>, common: seq<int>,
                     underlying: Underlying, today: int)
    requires i < |baskets| && Ascending(common)
    ensures Reported(ItemOf(baskets[i], failures, common, underlying, today), baskets[i], failures, common, underlying,
                     today)
  {
    if baskets[i].id !in failures && SharedFailure(common, today).None? {
      var base, asOf, start := BaseDate(common), common[|common| - 1], WindowStart(common).value;
      var dates := Keep(common, d => d >= base);
      ReturnIsGrowth(baskets[i].id, ValueAt(baskets[i].allocations, base, asOf, underlying, today),
                     ValueAt(baskets[i].allocations, base, start, underlying, today), asOf, start,
                     SeriesFrom(dates, baskets[i].allocations, base, underlying, today));
      SeriesPlotted(dates, baskets[i], common, base, underlying, today);
    }
  }

  /** Every item of the response, with the dates of the response where any item is ready. */
  lemma ItemsAreReported(baskets: seq<Basket>, underlying: Underlying, today: int, i: nat)
    requires i < |baskets|
    ensures var r := Calculated(baskets, underlying, today);
            var common := CommonDates(Eligible(baskets, underlying, today), underlying, today);
            && r.baseDate == BaseDate(common)
            && Reported(r.items[i], baskets[i], Failures(baskets, underlying, today), common, underlying, today)
            && (r.items[i].Ready? ==> r.asOf == Some(r.items[i].asOf) && r.windowStart == Some(r.items[i].windowStart))
  {
    var r := Calculated(baskets, underlying, today);
    var common := CommonDates(Eligible(baskets, underlying, today), underlying, today);
    ItemReported(baskets, i, Failures(baskets, underlying, today), common, underlying, today);
    if r.items[i].Ready? { ReadyCounted(r.items, i); }
  }

  // ---- the consumer ----

  predicate OnlyMatch(items: seq<Item>, id: string, i: nat)
    requires i < |items|
  {
    items[i].basketId == id && forall j :: 0 <= j < |items| && items[j].basketId == id ==> j == i
  }

  lemma {:induction false} MatchingAt(items: seq<Item>, id: string) returns (i: nat)
    requires Matching(items, id) != []
    ensures i < |items| && items[i].basketId == id && Matching(items, id)[|Matching(items, id)| - 1] == items[i]
    ensures forall j :: i < j < |items| ==> items[j].basketId != id
    ensures Matching(items, id) == Matching(items[..i], id) + [items[i]]
  {
    var n := |items| - 1;
    if items[n].basketId == id {
      i := n;
    } else {
      i := MatchingAt(items[..n], id);
      assert items[..n][..i] == items[..i];
    }
  }

  lemma {:induction false} NoMatching(items: seq<Item>, id: string, j: nat)
    requires Matching(items, id) == [] && j < |items|
    ensures items[j].basketId != id
  {
    if j < |items| - 1 { NoMatching(items[..|items| - 1], id, j); }
  }

  lemma OneMatching(items: seq<Item>, id: string)
    ensures |Matching(items, id)| == 1 <==> exists i :: 0 <= i < |items| && OnlyMatch(items, id, i)
    ensures forall i :: 0 <= i < |items| && OnlyMatch(items, id, i) ==> Matching(items, id) == [items[i]]
  {
    forall i | 0 <= i < |items| && OnlyMatch(items, id, i) ensures Matching(items, id) == [items[i]] {
      MatchingOne(items, id, i);
    }
    if |Matching(items, id)| == 1 {
      var i := MatchingAt(items, id);
      forall j | 0 <= j < i ensures items[j].basketId != id {
        NoMatching(items[..i], id, j);
      }
      assert OnlyMatch(items, id, i);
    }
  }

  /** The item agrees with its response, and its dates are recent and a week apart within four days. */
  predicate Shareable(item: Item, response: Response) {
    && item.Ready? && item.modelPrice > 0.0 && response.status != NoneReady
    && response.asOf == Some(item.asOf) && response.windowStart == Some(item.windowStart)
    && response.baseDate >= 20_697 && response.baseDate <= 20_701 && item.windowStart >= response.baseDate
    && response.fetchedOn >= item.asOf && response.fetchedOn <= item.asOf + 4
    && item.windowStart <= item.asOf - 7 && item.windowStart >= item.asOf - 11
  }

  /** Exactly a sample's only item is ever shared, and only when it stands up to the consumer's own checks. */
  lemma SharedIff(id: string, response: Response, shared: Performance.Shared)
    ensures GetShared(Some(id), response) == Some(shared) <==>
              exists i :: 0 <= i < |response.items| && OnlyMatch(response.items, id, i)
                          && Shareable(response.items[i], response)
                          && shared.basketId == id && shared.return7d == response.items[i].return7d
                          && shared.asOf == response.items[i].asOf
                          && shared.windowStart == response.items[i].windowStart
    ensures GetShared(None, response).None?
  {
    OneMatching(response.items, id);
    if |Matching(response.items, id)| == 1 {
      var i :| 0 <= i < |response.items| && OnlyMatch(response.items, id, i);
      assert forall j :: 0 <= j < |response.items| && OnlyMatch(response.items, id, j) ==> j == i;
      assert Matching(response.items, id) == [response.items[i]];
    }
  }
}
