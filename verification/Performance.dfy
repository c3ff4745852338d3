/**
 * The fixed-quantity basket model and the independent re-check of its output before it is shared.
 *
 * Dates are day numbers, closes and values are real numbers, and `today` is the market date of the fetch.
 */
module Performance {
  import opened Results

  const BASE_DATE: int := 20_697  // 2026-09-01 in days since 1970-01-01
  const BASE_VALUE := 100.0
  const MAX_AGE := 4
  const FULL_WEIGHT := 10_000

  type Symbol = string

  /** A date that does not parse has no day number. */
  datatype Candle = Candle(date: Option<int>, close: real)
  datatype Series = Series(symbol: Symbol, currency: string, candles: seq<Candle>)
  datatype Allocation = Allocation(symbol: Symbol, weight: int)
  datatype Basket = Basket(id: string, allocations: seq<Allocation>)

  datatype Reason =
    | WeightsIncomplete
    | ClosesUnavailable(symbol: Symbol) | ClosesStale(symbol: Symbol) | BaseUnavailable(symbol: Symbol)
    | SharedBaseUnavailable | SharedStale | NoSevenDayBaseline | NoValue

  datatype Item =
    | Ready(basketId: string, modelPrice: real, return7d: real, asOf: int, windowStart: int, series: seq<(int, real)>)
    | Unavailable(basketId: string, reason: Reason)

  datatype Status = AllReady | Partial | NoneReady
  datatype Response = Response(status: Status, fetchedOn: int, baseDate: int, asOf: Option<int>,
                               windowStart: Option<int>, items: seq<Item>)

  // ---- one symbol ----

  predicate Counts(candle: Candle, today: int) {
    candle.date.Some? && candle.date.value <= today && candle.close > 0.0
  }

  /** Usable closes by date; a later candle of the same date wins. */
  function Closes(candles: seq<Candle>, today: int): (m: map<int, real>)
    ensures forall d :: d in m ==> m[d] > 0.0 && d <= today
  {
    if candles == [] then map[]
    else
      var last := candles[|candles| - 1];
      var before := Closes(candles[..|candles| - 1], today);
      if Counts(last, today) then before[last.date.value := last.close] else before
  }

  predicate Ascending(s: seq<int>) {
    forall i, j :: 0 <= i < j < |s| ==> s[i] < s[j]
  }

  lemma AppendLater(s: seq<int>, last: int)
    requires Ascending(s) && forall x :: x in s ==> x < last
    ensures Ascending(s + [last])
  {
    assert forall i :: 0 <= i < |s| ==> s[i] in s;
  }

  /** Every element before the last one of an ascending list is smaller. */
  lemma BeforeLast(s: seq<int>)
    requires Ascending(s) && s != []
    ensures var (front, last) := (s[..|s| - 1], s[|s| - 1]); s == front + [last] && forall x :: x in front ==> x < last
  {
  }

  function Insert(s: seq<int>, d: int): (r: seq<int>)
    requires Ascending(s)
    ensures Ascending(r) && forall x :: x in r <==> x in s || x == d
  {
    if s == [] then [d]
    else
      var last := s[|s| - 1];
      if d > last then s + [d]
      else if d == last then s
      else
        var r := Insert(s[..|s| - 1], d);
        BeforeLast(s);
        AppendLater(r, last);
        r + [last]
  }

  /** The dates of the usable closes, in order. */
  function Dates(candles: seq<Candle>, today: int): (s: seq<int>)
    ensures Ascending(s) && forall d :: d in s <==> d in Closes(candles, today)
  {
    if candles == [] then []
    else
      var last := candles[|candles| - 1];
      var before := Dates(candles[..|candles| - 1], today);
      if Counts(last, today) then Insert(before, last.date.value) else before
  }

  predicate NearBase(date: int) {
    BASE_DATE <= date <= BASE_DATE + MAX_AGE
  }

  type Underlying = map<Symbol, Series>

  predicate Listed(symbol: Symbol, underlying: Underlying) {
    symbol in underlying && underlying[symbol].currency == "USD" && underlying[symbol].symbol == symbol
  }

  function DatesFailure(symbol: Symbol, dates: seq<int>, today: int): Option<Reason> {
    if dates == [] then Some(ClosesUnavailable(symbol))
    else if today - dates[|dates| - 1] > MAX_AGE then Some(ClosesStale(symbol))
    else if forall d :: d in dates ==> !NearBase(d) then Some(BaseUnavailable(symbol))
    else None
  }

  function SymbolFailure(symbol: Symbol, underlying: Underlying, today: int): Option<Reason> {
    if !Listed(symbol, underlying) then Some(ClosesUnavailable(symbol))
    else DatesFailure(symbol, Dates(underlying[symbol].candles, today), today)
  }

  // ---- which baskets are eligible ----

  function WeightSum(allocations: seq<Allocation>): int {
    if allocations == [] then 0 else WeightSum(allocations[..|allocations| - 1]) + allocations[|allocations| - 1].weight
  }

  predicate WeightsComplete(allocations: seq<Allocation>) {
    && 2 <= |allocations| <= 20
    && (forall i, j :: 0 <= i < j < |allocations| ==> allocations[i].symbol != allocations[j].symbol)
    && (forall i :: 0 <= i < |allocations| ==> allocations[i].weight > 0)
    && WeightSum(allocations) == FULL_WEIGHT
  }

  /** The first failing symbol decides. */
  function SymbolsFailure(allocations: seq<Allocation>, underlying: Underlying, today: int): Option<Reason> {
    if allocations == [] then None
    else
      var before := SymbolsFailure(allocations[..|allocations| - 1], underlying, today);
      if before.Some? then before else SymbolFailure(allocations[|allocations| - 1].symbol, underlying, today)
  }

  function BasketFailure(basket: Basket, underlying: Underlying, today: int): Option<Reason> {
    if !WeightsComplete(basket.allocations) then Some(WeightsIncomplete)
    else SymbolsFailure(basket.allocations, underlying, today)
  }

  /** Failures are recorded by basket id. */
  function Failures(baskets: seq<Basket>, underlying: Underlying, today: int): map<string, Reason> {
    if baskets == [] then map[]
    else
      var last := baskets[|baskets| - 1];
      var before := Failures(baskets[..|baskets| - 1], underlying, today);
      var failure := BasketFailure(last, underlying, today);
      if failure.Some? then before[last.id := failure.value] else before
  }

  function Eligible(baskets: seq<Basket>, underlying: Underlying, today: int): seq<Basket> {
    if baskets == [] then []
    else
      var last := baskets[|baskets| - 1];
      var before := Eligible(baskets[..|baskets| - 1], underlying, today);
      if BasketFailure(last, underlying, today).None? then before + [last] else before
  }

  // ---- the dates every eligible symbol has ----

  function CloseDates(symbol: Symbol, underlying: Underlying, today: int): (s: seq<int>)
    ensures Ascending(s)
  {
    if symbol in underlying then Dates(underlying[symbol].candles, today) else []
  }

  predicate IsCommon(date: int, baskets: seq<Basket>, underlying: Underlying, today: int) {
    forall i, k :: 0 <= i < |baskets| && 0 <= k < |baskets[i].allocations| ==>
      date in CloseDates(baskets[i].allocations[k].symbol, underlying, today)
  }

  function Keep(dates: seq<int>, p: int -> bool): (s: seq<int>)
    requires Ascending(dates)
    ensures Ascending(s) && forall d :: d in s <==> d in dates && p(d)
  {
    if dates == [] then []
    else
      var last := dates[|dates| - 1];
      var before := Keep(dates[..|dates| - 1], p);
      BeforeLast(dates);
      AppendLater(before, last);
      if p(last) then before + [last] else before
  }

  /** `eligible` baskets each have allocations; the first symbol's dates are filtered by all the others. */
  function CommonDates(eligible: seq<Basket>, underlying: Underlying, today: int): (s: seq<int>)
    ensures Ascending(s)
  {
    if eligible == [] || eligible[0].allocations == [] then []
    else Keep(CloseDates(eligible[0].allocations[0].symbol, underlying, today),
              d => IsCommon(d, eligible, underlying, today))
  }

  /** The first common date near the base, or the base itself. */
  function BaseDate(common: seq<int>): int
    requires Ascending(common)
  {
    var near := Keep(common, NearBase);
    if near == [] then BASE_DATE else near[0]
  }

  function Last(s: seq<int>): Option<int> {
    if s == [] then None else Some(s[|s| - 1])
  }

  /** The latest common date at least seven days before the last one. */
  function WindowStart(common: seq<int>): Option<int>
    requires Ascending(common)
  {
    if common == [] then None
    else Last(Keep(common, d => BaseDate(common) <= d <= common[|common| - 1] - 7))
  }

  function SharedFailure(common: seq<int>, today: int): Option<Reason>
    requires Ascending(common)
  {
    if BaseDate(common) !in common then Some(SharedBaseUnavailable)
    else if common == [] || today - common[|common| - 1] > MAX_AGE then Some(SharedStale)
    else if WindowStart(common).None? || common[|common| - 1] - 7 - WindowStart(common).value > MAX_AGE then
      Some(NoSevenDayBaseline)
    else None
  }

  // ---- valuation ----

  function CloseIn(closes: map<int, real>, date: int): real {
    if date in closes then closes[date] else 0.0
  }

  /** A symbol's close, 0 where it has none. */
  function CloseOn(symbol: Symbol, date: int, underlying: Underlying, today: int): (c: real)
    ensures c >= 0.0
  {
    if symbol in underlying then CloseIn(Closes(underlying[symbol].candles, today), date) else 0.0
  }

  /** Units bought at the base close, times the close on the date. */
  function Position(weight: int, baseClose: real, close: real): real {
    if baseClose == 0.0 then 0.0 else BASE_VALUE * weight as real / 10_000.0 / baseClose * close
  }

  function PositionOn(a: Allocation, base: int, date: int, underlying: Underlying, today: int): real {
    Position(a.weight, CloseOn(a.symbol, base, underlying, today), CloseOn(a.symbol, date, underlying, today))
  }

  function ValueAt(allocations: seq<Allocation>, base: int, date: int, underlying: Underlying, today: int): real {
    if allocations == [] then 0.0
    else
      var a := allocations[|allocations| - 1];
      ValueAt(allocations[..|allocations| - 1], base, date, underlying, today)
      + PositionOn(a, base, date, underlying, today)
  }

  function SeriesFrom(dates: seq<int>, allocations: seq<Allocation>, base: int, underlying: Underlying,
                      today: int): seq<(int, real)>
  {
    seq(|dates|, i requires 0 <= i < |dates| =>
      (dates[i], if dates[i] == base then BASE_VALUE else ValueAt(allocations, base, dates[i], underlying, today)))
  }

  /** The item of a basket worth `value` now and `baseline` at the start of the window. */
  function Valued(id: string, value: real, baseline: real, asOf: int, start: int, series: seq<(int, real)>): Item {
    if value <= 0.0 || baseline <= 0.0 then Unavailable(id, NoValue)
    else Ready(id, value, (value / baseline - 1.0) * 100.0, asOf, start, series)
  }

  /** An item is ready exactly when both values are positive, and its return is the growth from the one to the other. */
  lemma ReturnIsGrowth(id: string, value: real, baseline: real, asOf: int, start: int, series: seq<(int, real)>)
    ensures var item := Valued(id, value, baseline, asOf, start, series);
            && item.basketId == id && (item.Ready? <==> value > 0.0 && baseline > 0.0)
            && (item.Ready? ==>
                  && item.modelPrice == value && (1.0 + item.return7d / 100.0) * baseline == value
                  && item.asOf == asOf && item.windowStart == start && item.series == series)
            && (item.Unavailable? ==> item.reason == NoValue)
  {
    if value > 0.0 && baseline > 0.0 {
      var growth := value / baseline;
      assert growth * baseline == value;
      assert 1.0 + (growth - 1.0) * 100.0 / 100.0 == growth;
    }
  }

  function ItemOf(basket: Basket, failures: map<string, Reason>, common: seq<int>, underlying: Underlying,
                  today: int): Item
    requires Ascending(common)
  {
    var shared := SharedFailure(common, today);
    if basket.id in failures then Unavailable(basket.id, failures[basket.id])
    else if shared.Some? then Unavailable(basket.id, shared.value)
    else
      var base, asOf, start := BaseDate(common), common[|common| - 1], WindowStart(common).value;
      var value := ValueAt(basket.allocations, base, asOf, underlying, today);
      var baseline := ValueAt(basket.allocations, base, start, underlying, today);
      Valued(basket.id, value, baseline, asOf, start,
             SeriesFrom(Keep(common, d => d >= base), basket.allocations, base, underlying, today))
  }

  /** A ready item's price is what the fixed units are worth at `asOf`, its return their growth over the window. */
  predicate Grown(item: Item, basket: Basket, base: int, underlying: Underlying, today: int) {
    item.Ready? ==>
      && item.modelPrice == ValueAt(basket.allocations, base, item.asOf, underlying, today) > 0.0
      && (1.0 + item.return7d / 100.0) * ValueAt(basket.allocations, base, item.windowStart, underlying, today)
         == item.modelPrice
  }

  lemma ItemGrown(basket: Basket, failures: map<string, Reason>, common: seq<int>, underlying: Underlying, today: int)
    requires Ascending(common)
    ensures Grown(ItemOf(basket, failures, common, underlying, today), basket, BaseDate(common), underlying, today)
  {
    if basket.id !in failures && SharedFailure(common, today).None? {
      var base, asOf, start := BaseDate(common), common[|common| - 1], WindowStart(common).value;
      ReturnIsGrowth(basket.id, ValueAt(basket.allocations, base, asOf, underlying, today),
                     ValueAt(basket.allocations, base, start, underlying, today), asOf, start,
                     SeriesFrom(Keep(common, d => d >= base), basket.allocations, base, underlying, today));
    }
  }

  function Items(baskets: seq<Basket>, failures: map<string, Reason>, common: seq<int>, underlying: Underlying,
                 today: int): seq<Item>
    requires Ascending(common)
  {
    seq(|baskets|, i requires 0 <= i < |baskets| => ItemOf(baskets[i], failures, common, underlying, today))
  }

  function ReadyCount(items: seq<Item>): nat {
    if items == [] then 0 else ReadyCount(items[..|items| - 1]) + if items[|items| - 1].Ready? then 1 else 0
  }

  function Summary(items: seq<Item>, common: seq<int>, today: int): Response
    requires Ascending(common)
  {
    var ready := ReadyCount(items);
    Response(if ready == 0 then NoneReady else if ready == |items| then AllReady else Partial,
             today, BaseDate(common),
             if ready > 0 then Last(common) else None, if ready > 0 then WindowStart(common) else None, items)
  }

  function Calculated(baskets: seq<Basket>, underlying: Underlying, today: int): Response {
    var common := CommonDates(Eligible(baskets, underlying, today), underlying, today);
    Summary(Items(baskets, Failures(baskets, underlying, today), common, underlying, today), common, today)
  }

  /** Every ready item reports the value and the growth of its basket's fixed units. */
  lemma AllGrown(baskets: seq<Basket>, underlying: Underlying, today: int)
    ensures var response := Calculated(baskets, underlying, today);
            && |response.items| == |baskets|
            && forall i :: 0 <= i < |baskets| ==>
                 Grown(response.items[i], baskets[i], response.baseDate, underlying, today)
  {
    var failures := Failures(baskets, underlying, today);
    var common := CommonDates(Eligible(baskets, underlying, today), underlying, today);
    forall i | 0 <= i < |baskets|
      ensures Grown(Items(baskets, failures, common, underlying, today)[i], baskets[i], BaseDate(common), underlying,
                    today)
    {
      ItemGrown(baskets[i], failures, common, underlying, today);
    }
  }

  // ---- the loops that fill the failure and price maps ----

  /** A map of closes with its dates in order. */
  datatype Quotes = Quotes(dates: seq<int>, closes: map<int, real>)

  function QuotesOf(candles: seq<Candle>, today: int): Quotes {
    Quotes(Dates(candles, today), Closes(candles, today))
  }

  type Prices = map<Symbol, Quotes>

  predicate PricesMatch(prices: Prices, underlying: Underlying, today: int) {
    forall s :: s in prices ==> s in underlying && prices[s] == QuotesOf(underlying[s].candles, today)
  }

  predicate Priced(allocations: seq<Allocation>, prices: Prices) {
    forall k :: 0 <= k < |allocations| ==> allocations[k].symbol in prices
  }

  lemma PriceAdded(allocations: seq<Allocation>, k: nat, prices: Prices, underlying: Underlying, today: int)
    requires k < |allocations| && allocations[k].symbol in underlying
    requires PricesMatch(prices, underlying, today) && Priced(allocations[..k], prices)
    ensures var symbol := allocations[k].symbol;
            var more := prices[symbol := QuotesOf(underlying[symbol].candles, today)];
            PricesMatch(more, underlying, today) && Priced(allocations[..k + 1], more) && prices.Keys <= more.Keys
  {
  }

  lemma SymbolsFailureNext(allocations: seq<Allocation>, k: nat, underlying: Underlying, today: int)
    requires k < |allocations| && SymbolsFailure(allocations[..k], underlying, today).None?
    ensures SymbolsFailure(allocations[..k + 1], underlying, today)
              == SymbolFailure(allocations[k].symbol, underlying, today)
  {
    assert allocations[..k + 1][..k] == allocations[..k];
  }

  /** Checks one basket's symbols in order, recording the closes it reads. */
  method CheckSymbols(allocations: seq<Allocation>, underlying: Underlying, today: int, known: Prices)
    returns (failure: Option<Reason>, prices: Prices)
    requires PricesMatch(known, underlying, today)
    ensures failure == SymbolsFailure(allocations, underlying, today)
    ensures PricesMatch(prices, underlying, today) && known.Keys <= prices.Keys
    ensures failure.None? ==> Priced(allocations, prices)
  {
    prices, failure := known, None;
    for k := 0 to |allocations|
      invariant failure.None? && SymbolsFailure(allocations[..k], underlying, today).None?
      invariant PricesMatch(prices, underlying, today) && known.Keys <= prices.Keys && Priced(allocations[..k], prices)
    {
      var symbol := allocations[k].symbol;
      failure := SymbolFailure(symbol, underlying, today);
      SymbolsFailureNext(allocations, k, underlying, today);
      if failure.Some? {
        FirstFailureStays(allocations, k + 1, underlying, today);
        return;
      }
      PriceAdded(allocations, k, prices, underlying, today);
      prices := prices[symbol := QuotesOf(underlying[symbol].candles, today)];
    }
    assert allocations[..|allocations|] == allocations;
  }

  lemma {:induction false} FirstFailureStays(allocations: seq<Allocation>, k: nat, underlying: Underlying, today: int)
    requires k <= |allocations| && SymbolsFailure(allocations[..k], underlying, today).Some?
    ensures SymbolsFailure(allocations, underlying, today) == SymbolsFailure(allocations[..k], underlying, today)
  {
    if k < |allocations| {
      assert allocations[..|allocations| - 1][..k] == allocations[..k];
      FirstFailureStays(allocations[..|allocations| - 1], k, underlying, today);
    } else {
      assert allocations[..k] == allocations;
    }
  }

  predicate AllPriced(baskets: seq<Basket>, prices: Prices) {
    forall i :: 0 <= i < |baskets| ==> Priced(baskets[i].allocations, prices)
  }

  lemma StillPriced(baskets: seq<Basket>, before: Prices, after: Prices)
    requires AllPriced(baskets, before) && before.Keys <= after.Keys
    ensures AllPriced(baskets, after)
  {
  }

  predicate PricedUnlessFailed(baskets: seq<Basket>, failures: map<string, Reason>, prices: Prices) {
    forall i :: 0 <= i < |baskets| ==> baskets[i].id in failures || Priced(baskets[i].allocations, prices)
  }

  /** One turn of the filter: why a basket is not eligible, and the closes read on the way. */
  method CheckBasket(basket: Basket, underlying: Underlying, today: int, known: Prices)
    returns (failure: Option<Reason>, prices: Prices)
    requires PricesMatch(known, underlying, today)
    ensures failure == BasketFailure(basket, underlying, today)
    ensures PricesMatch(prices, underlying, today) && known.Keys <= prices.Keys
    ensures failure.None? ==> Priced(basket.allocations, prices)
  {
    if !WeightsComplete(basket.allocations) { return Some(WeightsIncomplete), known; }
    failure, prices := CheckSymbols(basket.allocations, underlying, today, known);
  }

  lemma FailureNext(baskets: seq<Basket>, n: nat, before: map<string, Reason>, after: map<string, Reason>,
                    known: Prices, prices: Prices, failure: Option<Reason>)
    requires n < |baskets| && PricedUnlessFailed(baskets[..n], before, known) && known.Keys <= prices.Keys
    requires failure.None? ==> Priced(baskets[n].allocations, prices)
    requires after == if failure.Some? then before[baskets[n].id := failure.value] else before
    ensures PricedUnlessFailed(baskets[..n + 1], after, prices)
  {
    var upTo := baskets[..n + 1];
    forall i | 0 <= i < |upTo| ensures upTo[i].id in after || Priced(upTo[i].allocations, prices) {
      assert i < n ==> baskets[..n][i] == upTo[i];
    }
  }

  /** The filter over all baskets: who is eligible, why others are not, and the closes read on the way. */
  method CheckBaskets(baskets: seq<Basket>, underlying: Underlying, today: int)
    returns (eligible: seq<Basket>, failures: map<string, Reason>, prices: Prices)
    ensures eligible == Eligible(baskets, underlying, today) && failures == Failures(baskets, underlying, today)
    ensures PricesMatch(prices, underlying, today) && AllPriced(eligible, prices)
    ensures PricedUnlessFailed(baskets, failures, prices)
  {
    eligible, failures, prices := [], map[], map[];
    for n := 0 to |baskets|
      invariant eligible == Eligible(baskets[..n], underlying, today)
      invariant failures == Failures(baskets[..n], underlying, today)
      invariant PricesMatch(prices, underlying, today) && AllPriced(eligible, prices)
      invariant PricedUnlessFailed(baskets[..n], failures, prices)
    {
      assert baskets[..n + 1][..n] == baskets[..n];
      var failure, more := CheckBasket(baskets[n], underlying, today, prices);
      StillPriced(eligible, prices, more);
      ghost var before := failures;
      if failure.Some? {
        failures := failures[baskets[n].id := failure.value];
      } else {
        eligible := eligible + [baskets[n]];
      }
      FailureNext(baskets, n, before, failures, prices, more, failure);
      prices := more;
    }
    assert baskets[..|baskets|] == baskets;
  }

  // ---- what is calculated from the price map ----

  lemma {:induction false} KeepSame(dates: seq<int>, p: int -> bool, q: int -> bool)
    requires Ascending(dates) && forall d :: d in dates ==> p(d) == q(d)
    ensures Keep(dates, p) == Keep(dates, q)
  {
    if dates != [] {
      KeepSame(dates[..|dates| - 1], p, q);
      assert dates[|dates| - 1] in dates;
    }
  }

  predicate HaveAll(baskets: seq<Basket>, prices: Prices, date: int)
    requires AllPriced(baskets, prices)
  {
    forall i, k :: 0 <= i < |baskets| && 0 <= k < |baskets[i].allocations| ==>
      date in prices[baskets[i].allocations[k].symbol].closes
  }

  lemma HaveAllIsCommon(baskets: seq<Basket>, prices: Prices, date: int, underlying: Underlying, today: int)
    requires AllPriced(baskets, prices) && PricesMatch(prices, underlying, today)
    ensures HaveAll(baskets, prices, date) <==> IsCommon(date, baskets, underlying, today)
  {
    forall i, k | 0 <= i < |baskets| && 0 <= k < |baskets[i].allocations|
      ensures date in prices[baskets[i].allocations[k].symbol].closes
              <==> date in CloseDates(baskets[i].allocations[k].symbol, underlying, today)
    {
      PricedHere(baskets, prices, i, k);
    }
  }

  lemma PricedHere(baskets: seq<Basket>, prices: Prices, i: nat, k: nat)
    requires AllPriced(baskets, prices) && i < |baskets| && k < |baskets[i].allocations|
    ensures baskets[i].allocations[k].symbol in prices
  {
    assert Priced(baskets[i].allocations, prices);
  }

  /** The dates in the price maps of all symbols of all eligible baskets. */
  method FindCommonDates(eligible: seq<Basket>, prices: Prices, ghost underlying: Underlying, ghost today: int)
    returns (common: seq<int>)
    requires AllPriced(eligible, prices) && PricesMatch(prices, underlying, today)
    ensures common == CommonDates(eligible, underlying, today)
  {
    if eligible == [] || eligible[0].allocations == [] { return []; }
    PricedHere(eligible, prices, 0, 0);
    var first := eligible[0].allocations[0].symbol;
    common := Keep(prices[first].dates, d => HaveAll(eligible, prices, d));
    forall d ensures HaveAll(eligible, prices, d) <==> IsCommon(d, eligible, underlying, today) {
      HaveAllIsCommon(eligible, prices, d, underlying, today);
    }
    KeepSame(prices[first].dates, d => HaveAll(eligible, prices, d), d => IsCommon(d, eligible, underlying, today));
  }

  /** Units bought at the base close, valued on another date. */
  method ValueOn(allocations: seq<Allocation>, base: int, date: int, prices: Prices, ghost underlying: Underlying,
                 ghost today: int)
    returns (value: real)
    requires Priced(allocations, prices) && PricesMatch(prices, underlying, today)
    ensures value == ValueAt(allocations, base, date, underlying, today)
  {
    value := 0.0;
    for k := 0 to |allocations|
      invariant value == ValueAt(allocations[..k], base, date, underlying, today)
    {
      assert allocations[..k + 1][..k] == allocations[..k];
      var closes := prices[allocations[k].symbol].closes;
      value := value + Position(allocations[k].weight, CloseIn(closes, base), CloseIn(closes, date));
    }
    assert allocations[..|allocations|] == allocations;
  }

  method ListSeries(dates: seq<int>, allocations: seq<Allocation>, base: int, prices: Prices,
                    ghost underlying: Underlying, ghost today: int)
    returns (series: seq<(int, real)>)
    requires Priced(allocations, prices) && PricesMatch(prices, underlying, today)
    ensures series == SeriesFrom(dates, allocations, base, underlying, today)
  {
    series := [];
    for k := 0 to |dates|
      invariant |series| == k
      invariant forall i :: 0 <= i < k ==> series[i] == SeriesFrom(dates, allocations, base, underlying, today)[i]
    {
      var value := ValueOn(allocations, base, dates[k], prices, underlying, today);
      series := series + [(dates[k], if dates[k] == base then BASE_VALUE else value)];
    }
  }

  method MakeItem(basket: Basket, failures: map<string, Reason>, common: seq<int>, prices: Prices,
                  ghost underlying: Underlying, today: int)
    returns (item: Item)
    requires Ascending(common) && PricesMatch(prices, underlying, today)
    requires basket.id in failures || Priced(basket.allocations, prices)
    ensures item == ItemOf(basket, failures, common, underlying, today)
  {
    var shared := SharedFailure(common, today);
    if basket.id in failures { return Unavailable(basket.id, failures[basket.id]); }
    if shared.Some? { return Unavailable(basket.id, shared.value); }
    var base, asOf, start := BaseDate(common), common[|common| - 1], WindowStart(common).value;
    var value := ValueOn(basket.allocations, base, asOf, prices, underlying, today);
    var baseline := ValueOn(basket.allocations, base, start, prices, underlying, today);
    var series := ListSeries(Keep(common, d => d >= base), basket.allocations, base, prices, underlying, today);
    return Valued(basket.id, value, baseline, asOf, start, series);
  }

  method MakeItems(baskets: seq<Basket>, failures: map<string, Reason>, common: seq<int>, prices: Prices,
                   ghost underlying: Underlying, today: int)
    returns (items: seq<Item>)
    requires Ascending(common) && PricesMatch(prices, underlying, today)
    requires PricedUnlessFailed(baskets, failures, prices)
    ensures items == Items(baskets, failures, common, underlying, today)
  {
    items := [];
    for k := 0 to |baskets|
      invariant |items| == k
      invariant forall i :: 0 <= i < k ==> items[i] == Items(baskets, failures, common, underlying, today)[i]
    {
      var item := MakeItem(baskets[k], failures, common, prices, underlying, today);
      items := items + [item];
    }
  }

  /** Failures, prices and common dates first, then one item for each basket. */
  method CalculateBasketPerformance(baskets: seq<Basket>, underlying: Underlying, today: int)
    returns (response: Response)
    ensures response == Calculated(baskets, underlying, today)
    ensures |response.items| == |baskets|
    ensures forall i :: 0 <= i < |baskets| ==>
              Grown(response.items[i], baskets[i], response.baseDate, underlying, today)
  {
    AllGrown(baskets, underlying, today);
    var eligible, failures, prices := CheckBaskets(baskets, underlying, today);
    var common := FindCommonDates(eligible, prices, underlying, today);
    var items := MakeItems(baskets, failures, common, prices, underlying, today);
    response := Summary(items, common, today);
  }

  // ---- the consumer's own check ----

  datatype Shared = Shared(basketId: string, return7d: real, asOf: int, windowStart: int)

  function Matching(items: seq<Item>, id: string): seq<Item> {
    if items == [] then []
    else Matching(items[..|items| - 1], id) + if items[|items| - 1].basketId == id then [items[|items| - 1]] else []
  }

  /** What a ready item has to share. */
  function SharedOf(item: Item): Option<Shared> {
    if item.Ready? then Some(Shared(item.basketId, item.return7d, item.asOf, item.windowStart)) else None
  }

  function GetShared(sampleId: Option<string>, response: Response): Option<Shared> {
    if sampleId.None? || response.status.NoneReady? then None
    else
      var matches := Matching(response.items, sampleId.value);
      if |matches| != 1 then None
      else
        var item := matches[0];
        if item.Unavailable? || item.modelPrice <= 0.0
           || Some(item.asOf) != response.asOf || Some(item.windowStart) != response.windowStart then None
        else
          var base, today, gap := response.baseDate, response.fetchedOn, item.asOf - 7 - item.windowStart;
          if base < BASE_DATE || base - BASE_DATE > MAX_AGE || item.windowStart < base
             || item.asOf > today || today - item.asOf > MAX_AGE || gap < 0 || gap > MAX_AGE then None
          else Some(Shared(sampleId.value, item.return7d, item.asOf, item.windowStart))
  }

  lemma {:induction false} MatchingOne(items: seq<Item>, id: string, i: nat)
    requires i < |items| && items[i].basketId == id
    requires forall j :: 0 <= j < |items| && items[j].basketId == id ==> j == i
    ensures Matching(items, id) == [items[i]]
  {
    var n := |items| - 1;
    if i < n { MatchingOne(items[..n], id, i); } else { MatchingNone(items[..n], id); }
  }

  lemma {:induction false} MatchingNone(items: seq<Item>, id: string)
    requires forall j :: 0 <= j < |items| ==> items[j].basketId != id
    ensures Matching(items, id) == []
  {
    if items != [] { MatchingNone(items[..|items| - 1], id); }
  }

  lemma {:induction false} ReadyCounted(items: seq<Item>, i: nat)
    requires i < |items| && items[i].Ready?
    ensures ReadyCount(items) > 0
  {
    if i < |items| - 1 { ReadyCounted(items[..|items| - 1], i); }
  }

  lemma CommonNotLater(eligible: seq<Basket>, underlying: Underlying, today: int)
    ensures forall d :: d in CommonDates(eligible, underlying, today) ==> d <= today
  {
  }

  /** Dates that pass the calculator's shared check pass the consumer's. */
  lemma SharedDatesPass(common: seq<int>, today: int)
    requires Ascending(common) && SharedFailure(common, today).None? && forall d :: d in common ==> d <= today
    ensures common != [] && WindowStart(common).Some?
    ensures BASE_DATE <= BaseDate(common) <= BASE_DATE + MAX_AGE
    ensures var (asOf, start) := (common[|common| - 1], WindowStart(common).value);
            && BaseDate(common) <= start && start in common && asOf <= today <= asOf + MAX_AGE
            && 0 <= asOf - 7 - start <= MAX_AGE
  {
    var near := Keep(common, NearBase);
    if near != [] { assert near[0] in near; }
    var asOf := common[|common| - 1];
    assert asOf in common;
    var window := Keep(common, d => BaseDate(common) <= d <= asOf - 7);
    assert window[|window| - 1] in window;
  }

  lemma ReadyItem(basket: Basket, failures: map<string, Reason>, common: seq<int>, underlying: Underlying, today: int)
    requires Ascending(common) && ItemOf(basket, failures, common, underlying, today).Ready?
    ensures SharedFailure(common, today).None? && common != [] && WindowStart(common).Some?
    ensures var item := ItemOf(basket, failures, common, underlying, today);
            item.modelPrice > 0.0 && item.asOf == common[|common| - 1] && item.windowStart == WindowStart(common).value
  {
  }

  /** A single ready item whose dates pass the checks is shared. */
  lemma ReadyShares(item: Item, response: Response)
    requires item.Ready? && item.modelPrice > 0.0 && Matching(response.items, item.basketId) == [item]
    requires !response.status.NoneReady? && response.asOf == Some(item.asOf)
    requires response.windowStart == Some(item.windowStart)
    requires BASE_DATE <= response.baseDate <= BASE_DATE + MAX_AGE && response.baseDate <= item.windowStart
    requires item.asOf <= response.fetchedOn <= item.asOf + MAX_AGE && 0 <= item.asOf - 7 - item.windowStart <= MAX_AGE
    ensures GetShared(Some(item.basketId), response) == SharedOf(item)
  {
  }

  lemma GetSharedIs(item: Item, items: seq<Item>, common: seq<int>, today: int)
    requires Ascending(common) && Matching(items, item.basketId) == [item] && item in items
    requires forall d :: d in common ==> d <= today
    requires item.Ready? ==>
               && SharedFailure(common, today).None? && common != [] && WindowStart(common).Some?
               && item.modelPrice > 0.0 && item.asOf == common[|common| - 1]
               && item.windowStart == WindowStart(common).value
    ensures GetShared(Some(item.basketId), Summary(items, common, today))
         == SharedOf(item)
  {
    if item.Ready? {
      var i :| 0 <= i < |items| && items[i] == item;
      ReadyCounted(items, i);
      SharedDatesPass(common, today);
      ReadyShares(item, Summary(items, common, today));
    }
  }

  lemma SharedFromItems(baskets: seq<Basket>, failures: map<string, Reason>, common: seq<int>, underlying: Underlying,
                        today: int, i: nat)
    requires Ascending(common) && forall d :: d in common ==> d <= today
    requires i < |baskets| && forall j :: 0 <= j < |baskets| && baskets[j].id == baskets[i].id ==> j == i
    ensures var items := Items(baskets, failures, common, underlying, today);
            && |items| == |baskets| && items[i].basketId == baskets[i].id
            && GetShared(Some(baskets[i].id), Summary(items, common, today)) == SharedOf(items[i])
  {
    var items := Items(baskets, failures, common, underlying, today);
    MatchingOne(items, baskets[i].id, i);
    if items[i].Ready? { ReadyItem(baskets[i], failures, common, underlying, today); }
    GetSharedIs(items[i], items, common, today);
  }

  /** The consumer shares a sample's model exactly when the calculator marked it ready, and shares its numbers. */
  lemma ReadyIffShared(baskets: seq<Basket>, underlying: Underlying, today: int, i: nat)
    requires i < |baskets| && forall j :: 0 <= j < |baskets| && baskets[j].id == baskets[i].id ==> j == i
    ensures var response := Calculated(baskets, underlying, today);
            && |response.items| == |baskets| && response.items[i].basketId == baskets[i].id
            && GetShared(Some(baskets[i].id), response) == SharedOf(response.items[i])
  {
    var eligible := Eligible(baskets, underlying, today);
    CommonNotLater(eligible, underlying, today);
    SharedFromItems(baskets, Failures(baskets, underlying, today), CommonDates(eligible, underlying, today),
                    underlying, today, i);
  }

  // ---- what the values mean ----

  lemma {:induction false} FailureRecorded(baskets: seq<Basket>, underlying: Underlying, today: int, i: nat)
    requires i < |baskets| && baskets[i].id !in Failures(baskets, underlying, today)
    ensures BasketFailure(baskets[i], underlying, today).None? && baskets[i] in Eligible(baskets, underlying, today)
  {
    var n := |baskets| - 1;
    if i < n {
      FailureRecorded(baskets[..n], underlying, today, i);
    }
  }

  /** Every symbol of an eligible basket has a positive close on every common date. */
  lemma CommonClose(eligible: seq<Basket>, underlying: Underlying, today: int, basket: Basket, k: nat, date: int)
    requires basket in eligible && k < |basket.allocations| && date in CommonDates(eligible, underlying, today)
    ensures CloseOn(basket.allocations[k].symbol, date, underlying, today) > 0.0
  {
    var i :| 0 <= i < |eligible| && eligible[i] == basket;
    assert IsCommon(date, eligible, underlying, today);
    assert date in CloseDates(eligible[i].allocations[k].symbol, underlying, today);
  }

  lemma PositionAtBase(weight: int, close: real)
    requires close > 0.0
    ensures Position(weight, close, close) == weight as real / 100.0
  {
    var invested := BASE_VALUE * weight as real / 10_000.0;
    assert invested / close * close == invested;
  }

  lemma {:induction false} ValueAtBaseIsWeight(allocations: seq<Allocation>, base: int, underlying: Underlying,
                                               today: int)
    requires forall k :: 0 <= k < |allocations| ==> CloseOn(allocations[k].symbol, base, underlying, today) > 0.0
    ensures ValueAt(allocations, base, base, underlying, today) == WeightSum(allocations) as real / 100.0
  {
    if allocations != [] {
      var n := |allocations| - 1;
      ValueAtBaseIsWeight(allocations[..n], base, underlying, today);
      PositionAtBase(allocations[n].weight, CloseOn(allocations[n].symbol, base, underlying, today));
    }
  }

  lemma EligibleWorthBase(eligible: seq<Basket>, underlying: Underlying, today: int, basket: Basket, base: int)
    requires basket in eligible && WeightsComplete(basket.allocations)
    requires base in CommonDates(eligible, underlying, today)
    ensures ValueAt(basket.allocations, base, base, underlying, today) == BASE_VALUE
  {
    forall k | 0 <= k < |basket.allocations|
      ensures CloseOn(basket.allocations[k].symbol, base, underlying, today) > 0.0
    {
      CommonClose(eligible, underlying, today, basket, k, base);
    }
    ValueAtBaseIsWeight(basket.allocations, base, underlying, today);
  }

  lemma SeriesIsValue(dates: seq<int>, allocations: seq<Allocation>, base: int, underlying: Underlying, today: int)
    requires ValueAt(allocations, base, base, underlying, today) == BASE_VALUE
    ensures forall k :: 0 <= k < |dates| ==>
              SeriesFrom(dates, allocations, base, underlying, today)[k].1
                == ValueAt(allocations, base, dates[k], underlying, today)
              && SeriesFrom(dates, allocations, base, underlying, today)[k].0 == dates[k]
  {
  }

  lemma ReadyItemSeries(basket: Basket, failures: map<string, Reason>, common: seq<int>, underlying: Underlying,
                        today: int)
    requires Ascending(common) && ItemOf(basket, failures, common, underlying, today).Ready?
    requires BaseDate(common) in common ==>
               ValueAt(basket.allocations, BaseDate(common), BaseDate(common), underlying, today) == BASE_VALUE
    ensures BaseDate(common) in common && basket.id !in failures
    ensures forall k :: 0 <= k < |ItemOf(basket, failures, common, underlying, today).series| ==>
              var point := ItemOf(basket, failures, common, underlying, today).series[k];
              point.1 == ValueAt(basket.allocations, BaseDate(common), point.0, underlying, today)
  {
    SeriesIsValue(Keep(common, d => d >= BaseDate(common)), basket.allocations, BaseDate(common), underlying, today);
  }

  /** Every ready basket is worth exactly 100 at the base date, as its series says. */
  lemma BaseValueIsExact(baskets: seq<Basket>, underlying: Underlying, today: int, i: nat)
    requires i < |baskets| && Calculated(baskets, underlying, today).items[i].Ready?
    ensures var response := Calculated(baskets, underlying, today);
            && ValueAt(baskets[i].allocations, response.baseDate, response.baseDate, underlying, today) == BASE_VALUE
            && forall k :: 0 <= k < |response.items[i].series| ==>
                 var point := response.items[i].series[k];
                 point.1 == ValueAt(baskets[i].allocations, response.baseDate, point.0, underlying, today)
  {
    var eligible, failures := Eligible(baskets, underlying, today), Failures(baskets, underlying, today);
    var common := CommonDates(eligible, underlying, today);
    ReadyIsEligible(baskets, failures, common, underlying, today, i);
    EligibleWorthBase(eligible, underlying, today, baskets[i], BaseDate(common));
    ReadyItemSeries(baskets[i], failures, common, underlying, today);
  }

  lemma ReadyIsEligible(baskets: seq<Basket>, failures: map<string, Reason>, common: seq<int>, underlying: Underlying,
                        today: int, i: nat)
    requires i < |baskets| && failures == Failures(baskets, underlying, today) && Ascending(common)
    requires ItemOf(baskets[i], failures, common, underlying, today).Ready?
    ensures BaseDate(common) in common && WeightsComplete(baskets[i].allocations)
    ensures baskets[i] in Eligible(baskets, underlying, today)
  {
    FailureRecorded(baskets, underlying, today, i);
  }

  // ---- scaling one symbol's closes ----

  type Scale = real -> real

  /** All that matters of a scaling: it keeps zero, signs and the value of every position. */
  ghost predicate KeepsRatios(scale: Scale) {
    && scale(0.0) == 0.0
    && (forall x :: scale(x) > 0.0 <==> x > 0.0)
    && forall weight, baseClose, close :: baseClose >= 0.0 ==>
         Position(weight, scale(baseClose), scale(close)) == Position(weight, baseClose, close)
  }

  lemma MultiplicationKeepsRatios(factor: real)
    requires factor > 0.0
    ensures KeepsRatios(x => factor * x)
  {
    var scale := (x: real) => factor * x;
    forall x: real ensures scale(x) > 0.0 <==> x > 0.0 {
      SamePositive(factor, x);
    }
    forall weight: int, baseClose: real, close: real | baseClose >= 0.0
      ensures Position(weight, scale(baseClose), scale(close)) == Position(weight, baseClose, close)
    {
      ScaledPosition(weight, baseClose, close, factor);
    }
  }

  lemma SamePositive(factor: real, x: real)
    requires factor > 0.0
    ensures factor * x > 0.0 <==> x > 0.0
  {
  }

  lemma ScaledPosition(weight: int, baseClose: real, close: real, factor: real)
    requires factor > 0.0 && baseClose >= 0.0
    ensures Position(weight, factor * baseClose, factor * close) == Position(weight, baseClose, close)
  {
    if baseClose > 0.0 {
      CancelFactor(BASE_VALUE * weight as real / 10_000.0, baseClose, close, factor);
    }
  }

  lemma CancelFactor(invested: real, baseClose: real, close: real, factor: real)
    requires factor > 0.0 && baseClose > 0.0
    ensures factor * baseClose != 0.0
    ensures invested / (factor * baseClose) * (factor * close) == invested / baseClose * close
  {
    var units := invested / baseClose;
    assert units * baseClose == invested;
    assert factor * baseClose > 0.0;
    assert units / factor * (factor * baseClose) == units * baseClose;
    assert invested / (factor * baseClose) == units / factor;
    assert units / factor * (factor * close) == units * close;
  }

  function ScaledCandles(candles: seq<Candle>, scale: Scale): seq<Candle> {
    if candles == [] then []
    else
      var last := candles[|candles| - 1];
      ScaledCandles(candles[..|candles| - 1], scale) + [last.(close := scale(last.close))]
  }

  function ScaledBy(underlying: Underlying, symbol: Symbol, scale: Scale): (r: Underlying)
    ensures r.Keys == underlying.Keys
  {
    if symbol in underlying
    then underlying[symbol := underlying[symbol].(candles := ScaledCandles(underlying[symbol].candles, scale))]
    else underlying
  }

  function ScaledMap(closes: map<int, real>, scale: Scale): (r: map<int, real>)
    ensures r.Keys == closes.Keys
  {
    map d | d in closes :: scale(closes[d])
  }

  lemma ScaledUpdate(closes: map<int, real>, scale: Scale, date: int, close: real)
    ensures ScaledMap(closes[date := close], scale) == ScaledMap(closes, scale)[date := scale(close)]
  {
  }

  lemma {:induction false} ScaledCloses(candles: seq<Candle>, today: int, scale: Scale)
    requires KeepsRatios(scale)
    ensures Dates(ScaledCandles(candles, scale), today) == Dates(candles, today)
    ensures Closes(ScaledCandles(candles, scale), today) == ScaledMap(Closes(candles, today), scale)
  {
    if candles != [] {
      var n := |candles| - 1;
      ScaledCloses(candles[..n], today, scale);
      var scaled, last := ScaledCandles(candles, scale), candles[n];
      assert scaled[..|scaled| - 1] == ScaledCandles(candles[..n], scale);
      if last.date.Some? { ScaledUpdate(Closes(candles[..n], today), scale, last.date.value, last.close); }
    }
  }

  lemma ScaledDates(underlying: Underlying, symbol: Symbol, scale: Scale, today: int, other: Symbol)
    requires KeepsRatios(scale)
    ensures CloseDates(other, ScaledBy(underlying, symbol, scale), today) == CloseDates(other, underlying, today)
    ensures Listed(other, ScaledBy(underlying, symbol, scale)) <==> Listed(other, underlying)
  {
    if symbol in underlying { ScaledCloses(underlying[symbol].candles, today, scale); }
  }

  lemma ScaledSymbolFailure(underlying: Underlying, symbol: Symbol, scale: Scale, today: int, other: Symbol)
    requires KeepsRatios(scale)
    ensures SymbolFailure(other, ScaledBy(underlying, symbol, scale), today) == SymbolFailure(other, underlying, today)
  {
    ScaledDates(underlying, symbol, scale, today, other);
    if Listed(other, underlying) {
      assert SymbolFailure(other, underlying, today)
        == DatesFailure(other, CloseDates(other, underlying, today), today);
    }
  }

  lemma ScaledCloseIn(closes: map<int, real>, scale: Scale, date: int)
    requires KeepsRatios(scale)
    ensures CloseIn(ScaledMap(closes, scale), date) == scale(CloseIn(closes, date))
  {
  }

  lemma ScaledClose(underlying: Underlying, symbol: Symbol, scale: Scale, today: int, date: int)
    requires KeepsRatios(scale)
    ensures CloseOn(symbol, date, ScaledBy(underlying, symbol, scale), today)
              == scale(CloseOn(symbol, date, underlying, today))
  {
    if symbol in underlying {
      ScaledCloses(underlying[symbol].candles, today, scale);
      ScaledCloseIn(Closes(underlying[symbol].candles, today), scale, date);
    }
  }

  lemma OthersKeep(underlying: Underlying, symbol: Symbol, scale: Scale, today: int, other: Symbol, date: int)
    requires other != symbol
    ensures CloseOn(other, date, ScaledBy(underlying, symbol, scale), today) == CloseOn(other, date, underlying, today)
  {
  }

  /** The scaled symbol's position is worth the same; no other symbol is touched. */
  lemma PositionUnchanged(a: Allocation, base: int, date: int, underlying: Underlying, today: int, symbol: Symbol,
                          scale: Scale)
    requires KeepsRatios(scale)
    ensures PositionOn(a, base, date, ScaledBy(underlying, symbol, scale), today)
              == PositionOn(a, base, date, underlying, today)
  {
    if a.symbol == symbol {
      ScaledClose(underlying, symbol, scale, today, base);
      ScaledClose(underlying, symbol, scale, today, date);
      assert PositionOn(a, base, date, ScaledBy(underlying, symbol, scale), today)
          == Position(a.weight, scale(CloseOn(symbol, base, underlying, today)),
                      scale(CloseOn(symbol, date, underlying, today)));
    } else {
      OthersKeep(underlying, symbol, scale, today, a.symbol, base);
      OthersKeep(underlying, symbol, scale, today, a.symbol, date);
    }
  }

  lemma {:induction false} ScaledValue(allocations: seq<Allocation>, base: int, date: int, underlying: Underlying,
                                       today: int, symbol: Symbol, scale: Scale)
    requires KeepsRatios(scale)
    ensures ValueAt(allocations, base, date, ScaledBy(underlying, symbol, scale), today)
         == ValueAt(allocations, base, date, underlying, today)
  {
    if allocations != [] {
      var n := |allocations| - 1;
      ScaledValue(allocations[..n], base, date, underlying, today, symbol, scale);
      PositionUnchanged(allocations[n], base, date, underlying, today, symbol, scale);
    }
  }

  lemma {:induction false} ScaledFailure(allocations: seq<Allocation>, underlying: Underlying, today: int,
                                         symbol: Symbol, scale: Scale)
    requires KeepsRatios(scale)
    ensures SymbolsFailure(allocations, ScaledBy(underlying, symbol, scale), today)
              == SymbolsFailure(allocations, underlying, today)
  {
    if allocations != [] {
      ScaledFailure(allocations[..|allocations| - 1], underlying, today, symbol, scale);
      ScaledSymbolFailure(underlying, symbol, scale, today, allocations[|allocations| - 1].symbol);
    }
  }

  lemma {:induction false} ScaledEligible(baskets: seq<Basket>, underlying: Underlying, today: int, symbol: Symbol,
                                          scale: Scale)
    requires KeepsRatios(scale)
    ensures var scaled := ScaledBy(underlying, symbol, scale);
            && Eligible(baskets, scaled, today) == Eligible(baskets, underlying, today)
            && Failures(baskets, scaled, today) == Failures(baskets, underlying, today)
  {
    if baskets != [] {
      ScaledEligible(baskets[..|baskets| - 1], underlying, today, symbol, scale);
      ScaledFailure(baskets[|baskets| - 1].allocations, underlying, today, symbol, scale);
    }
  }

  lemma ScaledCommon(eligible: seq<Basket>, underlying: Underlying, today: int, symbol: Symbol, scale: Scale)
    requires KeepsRatios(scale)
    ensures CommonDates(eligible, ScaledBy(underlying, symbol, scale), today)
              == CommonDates(eligible, underlying, today)
  {
    var scaled := ScaledBy(underlying, symbol, scale);
    forall s: Symbol ensures CloseDates(s, scaled, today) == CloseDates(s, underlying, today) {
      ScaledDates(underlying, symbol, scale, today, s);
    }
    if eligible != [] && eligible[0].allocations != [] {
      KeepSame(CloseDates(eligible[0].allocations[0].symbol, underlying, today),
               d => IsCommon(d, eligible, scaled, today), d => IsCommon(d, eligible, underlying, today));
    }
  }

  lemma ScaledResponse(baskets: seq<Basket>, underlying: Underlying, today: int, symbol: Symbol, scale: Scale)
    requires KeepsRatios(scale)
    ensures Calculated(baskets, ScaledBy(underlying, symbol, scale), today) == Calculated(baskets, underlying, today)
  {
    var scaled := ScaledBy(underlying, symbol, scale);
    ScaledEligible(baskets, underlying, today, symbol, scale);
    var eligible, failures := Eligible(baskets, underlying, today), Failures(baskets, underlying, today);
    ScaledCommon(eligible, underlying, today, symbol, scale);
    var common := CommonDates(eligible, underlying, today);
    forall i | 0 <= i < |baskets|
      ensures ItemOf(baskets[i], failures, common, scaled, today)
                == ItemOf(baskets[i], failures, common, underlying, today)
    {
      ScaledItem(baskets[i], failures, common, underlying, today, symbol, scale);
    }
    assert Items(baskets, failures, common, scaled, today) == Items(baskets, failures, common, underlying, today);
  }

  lemma ScaledItem(basket: Basket, failures: map<string, Reason>, common: seq<int>, underlying: Underlying, today: int,
                   symbol: Symbol, scale: Scale)
    requires KeepsRatios(scale) && Ascending(common)
    ensures ItemOf(basket, failures, common, ScaledBy(underlying, symbol, scale), today)
         == ItemOf(basket, failures, common, underlying, today)
  {
    var scaled := ScaledBy(underlying, symbol, scale);
    var base := BaseDate(common);
    forall date: int ensures ValueAt(basket.allocations, base, date, scaled, today)
                          == ValueAt(basket.allocations, base, date, underlying, today) {
      ScaledValue(basket.allocations, base, date, underlying, today, symbol, scale);
    }
    var dates := Keep(common, d => d >= base);
    assert SeriesFrom(dates, basket.allocations, base, scaled, today)
      == SeriesFrom(dates, basket.allocations, base, underlying, today);
  }

  /** Multiplying all closes of one symbol by a positive constant changes nothing in the response. */
  lemma ScaleInvariance(baskets: seq<Basket>, underlying: Underlying, today: int, symbol: Symbol, factor: real)
    requires factor > 0.0
    ensures Calculated(baskets, ScaledBy(underlying, symbol, x => factor * x), today)
              == Calculated(baskets, underlying, today)
  {
    MultiplicationKeepsRatios(factor);
    ScaledResponse(baskets, underlying, today, symbol, x => factor * x);
  }
}
