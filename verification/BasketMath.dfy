/** Mint, redeem and deposit sizing over vaults and share supply. */
module BasketMath {
  import opened Results
  import opened FeeMath

  /** One failing deposit check, as the client preview reports it. */
  datatype GrossError =
    | ZeroShares
    | ZeroSupply
    | ZeroAmount(index: nat)
    | ZeroVault(index: nat)
    | WeightMismatch(minIndex: nat, minVal: int, maxDiff: int)

  function Least(s: seq<int>): (m: int)
    requires s != []
    ensures m in s && forall i :: 0 <= i < |s| ==> m <= s[i]
  {
    if |s| == 1 then s[0]
    else
      var rest := Least(s[1..]);
      if s[0] < rest then s[0] else rest
  }

  function Greatest(s: seq<int>): (m: int)
    requires s != []
    ensures m in s && forall i :: 0 <= i < |s| ==> s[i] <= m
  {
    if |s| == 1 then s[0]
    else
      var rest := Greatest(s[1..]);
      if s[0] > rest then s[0] else rest
  }

  predicate AllPositive(s: seq<int>) {
    forall i :: 0 <= i < |s| ==> s[i] > 0
  }

  function GrossPerLeg(deposits: seq<int>, vaults: seq<int>, supply: int): (g: seq<int>)
    requires |deposits| == |vaults| && AllPositive(vaults)
  {
    seq(|vaults|, i requires 0 <= i < |vaults| => deposits[i] * supply / vaults[i])
  }

  datatype MintQuote = MintQuote(gross: int, net: int, fee: int, creator: int, treasury: int)

  predicate Proportional(legs: seq<int>)
    requires legs != []
  {
    Least(legs) > 0 && (Greatest(legs) - Least(legs)) * 100 <= Least(legs)
  }

  /** Gross shares are the least leg; legs may differ from it by at most one percent. */
  function ExpectedMint(supply: int, vaults: seq<int>, deposits: seq<int>, entryBps: int): Option<MintQuote> {
    if vaults == [] || |vaults| != |deposits| || supply <= 0 || !AllPositive(vaults) || !AllPositive(deposits) then None
    else
      var legs := GrossPerLeg(deposits, vaults, supply);
      if !Proportional(legs) then None
      else
        var gross := Least(legs);
        var fee := gross * entryBps / BPS;
        match SplitFee(fee)
        case Err(_) => None
        case Ok(split) => Some(MintQuote(gross, gross - fee, fee, split.creator, split.treasury))
  }

  datatype RedeemQuote = RedeemQuote(fee: int, burn: int, outs: seq<int>)

  function Payouts(vaults: seq<int>, burn: int, supply: int): seq<int>
    requires supply > 0
  {
    seq(|vaults|, i requires 0 <= i < |vaults| => vaults[i] * burn / supply)
  }

  function RedeemPreview(shares: int, supply: int, vaults: seq<int>, exitBps: int): Option<RedeemQuote> {
    if shares <= 0 || supply <= 0 then None
    else
      var fee := shares * exitBps / BPS;
      var burn := shares - fee;
      Some(RedeemQuote(fee, burn, if burn <= 0 then seq(|vaults|, _ => 0) else Payouts(vaults, burn, supply)))
  }

  // ---- the loop form used by the client preview ----

  /** Which check, if any, the deposit at leg `i` fails. */
  predicate LegFails(deposits: seq<int>, vaults: seq<int>, i: nat)
    requires i < |deposits| == |vaults|
  {
    deposits[i] <= 0 || vaults[i] <= 0
  }

  predicate LegError(error: GrossError, deposits: seq<int>, vaults: seq<int>)
    requires |deposits| == |vaults|
  {
    && (error.ZeroAmount? || error.ZeroVault?)
    && error.index < |deposits| && LegFails(deposits, vaults, error.index)
    && (error.ZeroAmount? <==> deposits[error.index] <= 0)
    && forall j :: 0 <= j < error.index ==> !LegFails(deposits, vaults, j)
  }

  /** The first leg whose deposit or vault is not positive, the deposit being looked at first. */
  lemma LegErrorIs(error: GrossError, deposits: seq<int>, vaults: seq<int>)
    requires |deposits| == |vaults|
    ensures LegError(error, deposits, vaults) <==>
              && (error.ZeroAmount? || error.ZeroVault?) && error.index < |deposits|
              && (if error.ZeroAmount? then deposits[error.index] <= 0
                  else deposits[error.index] > 0 && vaults[error.index] <= 0)
              && forall j :: 0 <= j < error.index ==> deposits[j] > 0 && vaults[j] > 0
  {
    if LegError(error, deposits, vaults) {
      forall j | 0 <= j < error.index ensures deposits[j] > 0 && vaults[j] > 0 {
        assert !LegFails(deposits, vaults, j);
      }
    }
  }

  /** The shares each leg is good for, or the first leg that fails. */
  method ListLegs(deposits: seq<int>, vaults: seq<int>, supply: int) returns (r: Result<seq<int>, GrossError>)
    requires |deposits| == |vaults| && supply > 0
    ensures r.Ok? <==> AllPositive(vaults) && AllPositive(deposits)
    ensures r.Ok? ==> r.value == GrossPerLeg(deposits, vaults, supply)
    ensures r.Err? ==> LegError(r.error, deposits, vaults)
  {
    var legs: seq<int> := [];
    for i := 0 to |deposits|
      invariant |legs| == i
      invariant forall j :: 0 <= j < i ==> !LegFails(deposits, vaults, j)
      invariant forall j :: 0 <= j < i ==> vaults[j] != 0 && legs[j] == deposits[j] * supply / vaults[j]
    {
      if deposits[i] <= 0 { return Err(ZeroAmount(i)); }
      if vaults[i] <= 0 { return Err(ZeroVault(i)); }
      legs := legs + [deposits[i] * supply / vaults[i]];
    }
    forall j | 0 <= j < |deposits| ensures deposits[j] > 0 && vaults[j] > 0 {
      assert !LegFails(deposits, vaults, j);
    }
    assert legs == GrossPerLeg(deposits, vaults, supply);
    return Ok(legs);
  }

  /**
   * The preview's loop accepts exactly the deposits that the map/reduce form accepts, with the same
   * gross, and names the first failing leg, the limiting leg and the spread otherwise. Empty lists, which the
   * map/reduce form refuses, are accepted here with no gross at all.
   */
  method CheckGrossShares(deposits: seq<int>, vaults: seq<int>, supply: int)
    returns (r: Result<(Option<int>, nat), GrossError>)
    ensures deposits != [] ==>
              && (r.Ok? <==> ExpectedMint(supply, vaults, deposits, 0).Some?)
              && (r.Ok? ==> r.value.0 == Some(ExpectedMint(supply, vaults, deposits, 0).value.gross))
    ensures deposits == [] == vaults && supply > 0 ==> r == Ok((None, 0))
    ensures deposits != [] && r.Ok? ==>
              && r.value.1 < |deposits|
              && var legs := GrossPerLeg(deposits, vaults, supply);
                 Some(legs[r.value.1]) == r.value.0 && forall j :: 0 <= j < r.value.1 ==> legs[j] > legs[r.value.1]
    ensures |deposits| != |vaults| ==> r == Err(ZeroShares)
    ensures |deposits| == |vaults| && supply <= 0 ==> r == Err(ZeroSupply)
    ensures |deposits| == |vaults| && supply > 0 && r.Err? && !r.error.ZeroShares? && !r.error.WeightMismatch? ==>
              LegError(r.error, deposits, vaults)
    ensures |deposits| == |vaults| && supply > 0 && r.Err? && (r.error.ZeroShares? || r.error.WeightMismatch?) ==>
              && AllPositive(vaults) && AllPositive(deposits)
              && var legs := GrossPerLeg(deposits, vaults, supply);
                 && (r.error.ZeroShares? <==> Least(legs) == 0)
                 && (r.error.WeightMismatch? ==>
                     r.error.minIndex < |legs| && r.error.minVal == Least(legs) == legs[r.error.minIndex]
                                                 && r.error.maxDiff == Greatest(legs) - Least(legs))
  {
    if |deposits| != |vaults| { return Err(ZeroShares); }
    if supply <= 0 { return Err(ZeroSupply); }
    var legs :- ListLegs(deposits, vaults, supply);
    if legs == [] { return Ok((None, 0)); }  // an undefined least leg passes every comparison
    LegsNonNegative(deposits, vaults, supply);
    var limiting, maxVal := Extremes(legs);
    var minVal := legs[limiting];
    FeeAccepted(minVal, 0);
    if minVal <= 0 { return Err(ZeroShares); }
    if maxVal > minVal {
      if (maxVal - minVal) * 100 > minVal { return Err(WeightMismatch(limiting, minVal, maxVal - minVal)); }
    }
    return Ok((Some(minVal), limiting));
  }

  /** The first least leg and the greatest value, found in one pass. */
  method Extremes(legs: seq<int>) returns (limiting: nat, maxVal: int)
    requires legs != []
    ensures limiting < |legs| && legs[limiting] == Least(legs) && maxVal == Greatest(legs)
    ensures forall j :: 0 <= j < limiting ==> legs[j] > legs[limiting]
  {
    limiting, maxVal := 0, legs[0];
    for i := 0 to |legs|
      invariant 0 <= limiting < |legs| && maxVal in legs
      invariant i == 0 ==> limiting == 0
      invariant forall j :: 0 <= j < i ==> legs[limiting] <= legs[j] <= maxVal
      invariant forall j :: 0 <= j < limiting ==> legs[j] > legs[limiting]
    {
      if legs[i] < legs[limiting] { limiting := i; }
      if legs[i] > maxVal { maxVal := legs[i]; }
    }
  }

  lemma LegsNonNegative(deposits: seq<int>, vaults: seq<int>, supply: int)
    requires |deposits| == |vaults| && AllPositive(vaults) && AllPositive(deposits) && supply > 0
    ensures forall i :: 0 <= i < |vaults| ==> GrossPerLeg(deposits, vaults, supply)[i] >= 0
  {
    forall i | 0 <= i < |vaults| ensures GrossPerLeg(deposits, vaults, supply)[i] >= 0 {
      FloorBounds(deposits[i] * supply, vaults[i]);
    }
  }

  /** Defining bounds of a floor division by a positive divisor. */
  lemma FloorBounds(a: int, b: int)
    requires b > 0
    ensures (a / b) * b <= a < (a / b) * b + b
    ensures a >= 0 ==> a / b >= 0
  {
  }

  /** Any integer quotient within the bounds is at most the floor. */
  lemma FloorAtLeast(a: int, b: int, q: int)
    requires b > 0 && q * b <= a
    ensures q <= a / b
  {
    FloorBounds(a, b);
    var f := a / b;
    assert (f + 1) * b == f * b + b;
    CancelLt(q, f + 1, b);
  }

  lemma MulMono(a: int, b: int, c: int)
    requires a <= b && c >= 0
    ensures a * c <= b * c
  {
  }

  lemma MulStrict(a: int, b: int, c: int)
    requires a < b && c > 0
    ensures a * c < b * c
  {
  }

  lemma CancelLe(a: int, b: int, c: int)
    requires a * c <= b * c && c > 0
    ensures a <= b
  {
    if a > b { MulStrict(b, a, c); }
  }

  lemma CancelLt(a: int, b: int, c: int)
    requires a * c < b * c && c > 0
    ensures a < b
  {
    if a >= b { MulMono(b, a, c); }
  }

  /** Ratios chain: x0/s0 <= x1/s1 <= x2/s2, written without division. */
  lemma RatioChain(x0: int, s0: int, x1: int, s1: int, x2: int, s2: int)
    requires s0 >= 0 && s1 > 0 && s2 >= 0
    requires x0 * s1 <= x1 * s0 && x1 * s2 <= x2 * s1
    ensures x0 * s2 <= x2 * s0
  {
    MulMono(x0 * s1, x1 * s0, s2);
    MulMono(x1 * s2, x2 * s1, s0);
    assert x0 * s1 * s2 == x0 * s2 * s1;
    assert x1 * s0 * s2 == x1 * s2 * s0;
    assert x2 * s1 * s0 == x2 * s0 * s1;
    CancelLe(x0 * s2, x2 * s0, s1);
  }

  // ---- backing per share ----

  /** No leg is credited more shares than its deposit buys at the current backing. */
  lemma MintKeepsBacking(deposit: int, vault: int, supply: int, gross: int)
    requires vault > 0 && supply > 0 && gross <= deposit * supply / vault
    ensures (vault + deposit) * supply >= vault * (supply + gross)
  {
    FloorBounds(deposit * supply, vault);
    assert gross * vault <= (deposit * supply / vault) * vault;
  }

  /** A floored payout never takes more than the burned shares' part of the vault. */
  lemma RedeemKeepsBacking(vault: int, burn: int, supply: int)
    requires supply > 0 && vault >= 0 && burn >= 0
    ensures var out := vault * burn / supply;
            0 <= out && (vault - out) * supply >= vault * (supply - burn)
    ensures burn <= supply ==> vault * burn / supply <= vault
  {
    MulMono(0, vault, burn);
    FloorBounds(vault * burn, supply);
    Distribution(vault, vault * burn / supply, burn, supply);
    if burn <= supply {
      MulMono(burn, supply, vault);
      CancelLe(vault * burn / supply, vault, supply);
    }
  }

  lemma Distribution(vault: int, out: int, burn: int, supply: int)
    ensures (vault - out) * supply == vault * supply - out * supply
    ensures vault * (supply - burn) == vault * supply - vault * burn
  {
  }

  /** A rate of at most 100% charges at least nothing and at most everything. */
  lemma FeeWithin(amount: int, bps: int)
    requires amount >= 0 && 0 <= bps <= BPS
    ensures 0 <= amount * bps / BPS <= amount
  {
    MulMono(0, bps, amount);
    MulMono(bps, BPS, amount);
  }

  /** What a mint quote promises: fees within the gross, split without loss, and no leg over-credited. */
  lemma MintQuoteFacts(supply: int, vaults: seq<int>, deposits: seq<int>, entryBps: int)
    requires 0 <= entryBps <= BPS && ExpectedMint(supply, vaults, deposits, entryBps).Some?
    ensures var q := ExpectedMint(supply, vaults, deposits, entryBps).value;
            && q.gross > 0 && q.net >= 0 && q.net + q.fee == q.gross
            && q.creator >= 0 && q.treasury >= 0 && q.creator + q.treasury == q.fee
            && |vaults| == |deposits| && AllPositive(deposits)
            && forall i :: 0 <= i < |vaults| ==> vaults[i] * (supply + q.gross) <= (vaults[i] + deposits[i]) * supply
  {
    FeeWithin(Least(GrossPerLeg(deposits, vaults, supply)), entryBps);
    LegsKeepBacking(supply, vaults, deposits);
  }

  lemma LegsKeepBacking(supply: int, vaults: seq<int>, deposits: seq<int>)
    requires vaults != [] && |vaults| == |deposits| && supply > 0 && AllPositive(vaults)
    ensures var gross := Least(GrossPerLeg(deposits, vaults, supply));
            forall i :: 0 <= i < |vaults| ==> vaults[i] * (supply + gross) <= (vaults[i] + deposits[i]) * supply
  {
    var legs := GrossPerLeg(deposits, vaults, supply);
    forall i | 0 <= i < |vaults| ensures vaults[i] * (supply + Least(legs)) <= (vaults[i] + deposits[i]) * supply {
      assert Least(legs) <= legs[i];
      MintKeepsBacking(deposits[i], vaults[i], supply, Least(legs));
    }
  }

  /** A redemption is quoted exactly for positive shares of a positive supply. */
  lemma RedeemPreviewIff(shares: int, supply: int, vaults: seq<int>, exitBps: int)
    ensures RedeemPreview(shares, supply, vaults, exitBps).Some? <==> shares > 0 && supply > 0
  {
  }

  /** What a redemption quote promises: payouts within the vaults that keep the remaining backing. */
  lemma RedeemQuoteFacts(shares: int, supply: int, vaults: seq<int>, exitBps: int)
    requires 0 <= exitBps <= BPS && NonNegative(vaults) && shares <= supply
    requires RedeemPreview(shares, supply, vaults, exitBps).Some?
    ensures var q := RedeemPreview(shares, supply, vaults, exitBps).value;
            && 0 <= q.fee && 0 <= q.burn && q.fee + q.burn == shares && |q.outs| == |vaults|
            && forall i :: 0 <= i < |vaults| ==>
                 0 <= q.outs[i] <= vaults[i] && vaults[i] * (supply - q.burn) <= (vaults[i] - q.outs[i]) * supply
  {
    FeeWithin(shares, exitBps);
    var burn := shares - shares * exitBps / BPS;
    var outs := RedeemPreview(shares, supply, vaults, exitBps).value.outs;
    forall i | 0 <= i < |vaults|
      ensures 0 <= outs[i] <= vaults[i] && vaults[i] * (supply - burn) <= (vaults[i] - outs[i]) * supply
    {
      RedeemKeepsBacking(vaults[i], burn, supply);
    }
  }

  /** The vault and the supply left after burning each entry in turn. */
  function BurnAll(vault: int, supply: int, burns: seq<int>): (left: (int, int))
    requires AllPositive(burns) && Sum(burns) <= supply
    decreases |burns|
  {
    if burns == [] then (vault, supply)
    else
      PositiveTail(burns);
      BurnAll(vault - vault * burns[0] / supply, supply - burns[0], burns[1..])
  }

  lemma PositiveTail(burns: seq<int>)
    requires AllPositive(burns) && burns != []
    ensures AllPositive(burns[1..]) && 0 <= Sum(burns[1..]) && burns[0] <= Sum(burns)
  {
    assert NonNegative(burns[1..]);
    SumNonNegative(burns[1..]);
  }

  lemma OnlyBurn(burns: seq<int>)
    requires AllPositive(burns) && burns != [] && Sum(burns) <= burns[0]
    ensures burns[1..] == []
  {
    if burns[1..] != [] { PositiveTail(burns[1..]); }
  }

  /** Burning never lowers the backing of the shares that remain. */
  lemma {:induction false} BurnsKeepBacking(vault: int, supply: int, burns: seq<int>)
    requires vault >= 0 && supply >= 0 && AllPositive(burns) && Sum(burns) <= supply
    ensures var left := BurnAll(vault, supply, burns);
            0 <= left.0 <= vault && left.1 == supply - Sum(burns) && vault * left.1 <= left.0 * supply
    ensures Sum(burns) == supply > 0 ==> BurnAll(vault, supply, burns).0 == 0
    decreases |burns|
  {
    if burns != [] {
      PositiveTail(burns);
      var b, tail := burns[0], burns[1..];
      var out := vault * b / supply;
      RedeemKeepsBacking(vault, b, supply);
      BurnsKeepBacking(vault - out, supply - b, tail);
      var left := BurnAll(vault - out, supply - b, tail);
      if b < supply {
        RatioChain(vault, supply, vault - out, supply - b, left.0, left.1);
      } else {
        OnlyBurn(burns);
        FloorAtLeast(vault * b, supply, vault);
      }
    }
  }

  /** While the backing is at least v0/s0, one burn pays more than its part of v0/s0 less one unit. */
  lemma OneBurnPays(vault: int, supply: int, burn: int, v0: int, s0: int)
    requires vault >= 0 && supply > 0 && s0 > 0 && burn > 0
    requires v0 * supply <= vault * s0
    ensures (vault * burn / supply) * s0 > v0 * burn - s0
  {
    var out := vault * burn / supply;
    FloorBounds(vault * burn, supply);
    MulStrict(vault * burn - supply, out * supply, s0);
    MulMono(v0 * supply, vault * s0, burn);
    assert (vault * burn - supply) * s0 == vault * s0 * burn - s0 * supply;
    assert out * supply * s0 == out * s0 * supply;
    assert (v0 * burn - s0) * supply == v0 * supply * burn - s0 * supply;
    CancelLt(v0 * burn - s0, out * s0, supply);
  }

  lemma AddPayments(out: int, rest: int, v0: int, b: int, total: int, k: int, s0: int)
    requires out * s0 > v0 * b - s0 && rest * s0 > v0 * total - k * s0
    ensures (out + rest) * s0 > v0 * (b + total) - (1 + k) * s0
  {
    Distribute(s0, out, rest);
    Distribute(v0, b, total);
    Distribute(s0, 1, k);
  }

  lemma {:induction false} BurnsPay(vault: int, supply: int, burns: seq<int>, v0: int, s0: int)
    requires vault >= 0 && supply > 0 && s0 > 0 && burns != [] && AllPositive(burns) && Sum(burns) <= supply
    requires v0 * supply <= vault * s0
    ensures (vault - BurnAll(vault, supply, burns).0) * s0 > v0 * Sum(burns) - |burns| * s0
    decreases |burns|
  {
    PositiveTail(burns);
    var b, tail := burns[0], burns[1..];
    var out := vault * b / supply;
    var left := BurnAll(vault, supply, burns).0;
    OneBurnPays(vault, supply, b, v0, s0);
    RedeemKeepsBacking(vault, b, supply);
    if tail == [] {
      assert BurnAll(vault - out, supply - b, tail).0 == vault - out;
      assert Sum(burns) == b;
    } else {
      PositiveTail(tail);
      RatioChain(v0, s0, vault, supply, vault - out, supply - b);
      BurnsPay(vault - out, supply - b, tail, v0, s0);
      AddPayments(out, vault - out - left, v0, b, Sum(tail), |tail|, s0);
    }
  }

  /**
   * Splitting a redemption into k burns pays at most what one burn of the total would, and loses
   * less than one unit per burn; burning the whole supply empties the vault exactly.
   */
  lemma BurnsAreFair(vault: int, supply: int, burns: seq<int>)
    requires vault >= 0 && supply > 0 && burns != [] && AllPositive(burns) && Sum(burns) <= supply
    ensures var paid := vault - BurnAll(vault, supply, burns).0;
            && 0 <= paid <= vault * Sum(burns) / supply
            && paid * supply > vault * Sum(burns) - |burns| * supply
            && (Sum(burns) == supply ==> paid == vault)
  {
    BurnsKeepBacking(vault, supply, burns);
    BurnsPay(vault, supply, burns, vault, supply);
    PaidAtMost(vault, supply, Sum(burns), BurnAll(vault, supply, burns).0);
  }

  lemma PaidAtMost(vault: int, supply: int, burned: int, left: int)
    requires supply > 0 && vault * (supply - burned) <= left * supply
    ensures vault - left <= vault * burned / supply
  {
    Distribute(vault, supply, -burned);
    Distribute(supply, vault, -left);
    FloorAtLeast(vault * burned, supply, vault - left);
  }

  // ---- deposit sizing ----

  /** Ceiling of target * vault / supply, found by correcting the floor. */
  function SizedDeposit(target: int, vault: int, supply: int): int
    requires supply > 0
  {
    var d := target * vault / supply;
    if d * supply < target * vault then d + 1 else d
  }

  lemma SizedDepositCovers(target: int, vault: int, supply: int)
    requires target > 0 && vault > 0 && supply > 0
    ensures var d := SizedDeposit(target, vault, supply);
            d > 0 && target * vault <= d * supply < target * vault + supply
  {
    var d := SizedDeposit(target, vault, supply);
    FloorBounds(target * vault, supply);
    MulStrict(0, target, vault);
    if d <= 0 { MulMono(d, 0, supply); }
  }

  lemma QuotientNear(x: int, vault: int, target: int, supply: int)
    requires vault > 0 && target * vault <= x < target * vault + supply
    ensures x / vault >= target && (x / vault - target) * vault < supply
  {
    FloorAtLeast(x, vault, target);
    FloorBounds(x, vault);
  }

  /** The deposit buys at least the target, and overshoots by less than one raw unit's worth of shares. */
  lemma SizedDepositBounds(target: int, vault: int, supply: int)
    requires target > 0 && vault > 0 && supply > 0
    ensures var d := SizedDeposit(target, vault, supply);
            var gross := d * supply / vault;
            d > 0 && gross >= target && (gross - target) * vault < supply
  {
    SizedDepositCovers(target, vault, supply);
    QuotientNear(SizedDeposit(target, vault, supply) * supply, vault, target, supply);
  }

  function SizedDeposits(target: int, vaults: seq<int>, supply: int): seq<int>
    requires supply > 0
  {
    seq(|vaults|, i requires 0 <= i < |vaults| => SizedDeposit(target, vaults[i], supply))
  }

  /** A sized top-up is never off-weight once the target covers the coarsest leg a hundredfold. */
  lemma SizedDepositsAccepted(target: int, vaults: seq<int>, supply: int, entryBps: int)
    requires vaults != [] && AllPositive(vaults) && supply > 0 && target > 0
    requires 100 * supply <= target * Least(vaults) && 0 <= entryBps
    ensures var quote := ExpectedMint(supply, vaults, SizedDeposits(target, vaults, supply), entryBps);
            quote.Some? && quote.value.gross >= target
  {
    var deposits := SizedDeposits(target, vaults, supply);
    forall i | 0 <= i < |vaults| ensures deposits[i] > 0 {
      SizedDepositBounds(target, vaults[i], supply);
    }
    var legs := GrossPerLeg(deposits, vaults, supply);
    forall i | 0 <= i < |legs| ensures target <= legs[i] && (legs[i] - target) * 100 < target {
      SizedDepositBounds(target, vaults[i], supply);
      SmallOvershoot(target, vaults[i], Least(vaults), supply, legs[i]);
    }
    var lo, hi := Least(legs), Greatest(legs);
    assert target <= lo && (hi - lo) * 100 <= (hi - target) * 100 <= target;
    assert Proportional(legs);
    FeeAccepted(lo, entryBps);
  }

  lemma SmallOvershoot(target: int, vault: int, least: int, supply: int, leg: int)
    requires target > 0 && 0 < least <= vault && 100 * supply <= target * least
    requires (leg - target) * vault < supply
    ensures (leg - target) * 100 < target
  {
    MulMono(least, vault, target);
    assert (leg - target) * 100 * vault == 100 * ((leg - target) * vault);
    CancelLt((leg - target) * 100, target, vault);
  }

  lemma FeeAccepted(gross: int, bps: int)
    requires gross >= 0 && bps >= 0
    ensures SplitFee(gross * bps / BPS).Ok?
  {
    assert gross * bps >= 0;
  }
}
