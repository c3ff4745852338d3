/** Finalized lifecycle steps of a basket, and what they keep over whole runs. */
module Lifecycle {
  import opened Results
  import opened FeeMath
  import opened BasketMath

  datatype Rates = Rates(entry: int, exit: int, management: int) {
    predicate Valid() {
      0 <= entry <= BPS && 0 <= exit <= BPS && 0 <= management <= BPS
    }
  }

  const LIFECYCLE_FEES := Rates(100, 50, 200)

  /** One finalized batch of accounts; hashes stand for the immutable account bytes. */
  datatype Snapshot = Snapshot(
    slot: int, supply: int, creator: int, investor: int, treasury: int,
    vaults: seq<int>, investorAssets: seq<int>, creatorAssets: seq<int>, underlyingSupplies: seq<int>,
    lastAccrual: int, remainder: int, immutableHash: int, configHashes: seq<int>)

  datatype Action = Mint(deposits: seq<int>) | Management | Redeem(shares: int)

  datatype Mismatch =
    | Regressing | Immutable | UnderlyingSupplies | UnderlyingConfig | CreatorAssets
    | FeeDomain | Remainder | DepositCount | NotProportional | BadRedemption | FeeNotObservable
    | Supply | Investor | Creator | Treasury | Vaults | Assets | Conservation

  /** The amounts a step must leave behind, and the fees it charged. */
  datatype Ledger = Ledger(
    supply: int, creator: int, investor: int, treasury: int, vaults: seq<int>, assets: seq<int>,
    managementFee: int, actionFee: int)

  function Plus(a: seq<int>, b: seq<int>): seq<int>
    requires |a| == |b|
  {
    seq(|a|, i requires 0 <= i < |a| => a[i] + b[i])
  }

  function Minus(a: seq<int>, b: seq<int>): seq<int>
    requires |a| == |b|
  {
    seq(|a|, i requires 0 <= i < |a| => a[i] - b[i])
  }

  /** Management accrues first; the action then sees the accrued supply. */
  function Expected(action: Action, before: Snapshot, management: Charge, rates: Rates): (r: Result<Ledger, Mismatch>)
    requires |before.investorAssets| == |before.vaults|
    ensures r.Ok? ==> |r.value.vaults| == |before.vaults| == |r.value.assets|
  {
    var accrued := before.supply + management.fee;
    var managed :- MapError(SplitFee(management.fee));
    match action
    case Mint(deposits) =>
      if |deposits| != |before.vaults| then Err(DepositCount)
      else
        var quote := ExpectedMint(accrued, before.vaults, deposits, rates.entry);
        if quote.None? then Err(NotProportional)
        else
          var q := quote.value;
          Ok(Ledger(accrued + q.gross, before.creator + managed.creator + q.creator, before.investor + q.net,
                    before.treasury + managed.treasury + q.treasury, Plus(before.vaults, deposits),
                    Minus(before.investorAssets, deposits), management.fee, q.fee))
    case Redeem(shares) =>
      if !(0 < shares <= before.investor) then Err(BadRedemption)
      else
        var quote := RedeemPreview(shares, accrued, before.vaults, rates.exit);
        if quote.None? || quote.value.burn <= 0 then Err(BadRedemption)
        else
          var q := quote.value;
          var fee :- MapError(SplitFee(q.fee));
          Ok(Ledger(accrued - q.burn, before.creator + managed.creator + fee.creator, before.investor - shares,
                    before.treasury + managed.treasury + fee.treasury, Minus(before.vaults, q.outs),
                    Plus(before.investorAssets, q.outs), management.fee, q.fee))
    case Management =>
      if management.fee < 10 then Err(FeeNotObservable)
      else
        Ok(Ledger(accrued, before.creator + managed.creator, before.investor, before.treasury + managed.treasury,
                  before.vaults, before.investorAssets, management.fee, 0))
  }

  function MapError<T>(r: Result<T, RangeError>): Result<T, Mismatch> {
    match r
    case Ok(v) => Ok(v)
    case Err(_) => Err(FeeDomain)
  }

  /** The checks one pair of finalized snapshots must pass, in the order they are made. */
  function AssertTransition(action: Action, before: Snapshot, after: Snapshot, rates: Rates): Result<Ledger, Mismatch>
    requires |before.investorAssets| == |before.vaults|
  {
    if after.slot < before.slot || after.lastAccrual < before.lastAccrual then Err(Regressing)
    else if after.immutableHash != before.immutableHash then Err(Immutable)
    else if after.underlyingSupplies != before.underlyingSupplies then Err(UnderlyingSupplies)
    else if after.configHashes != before.configHashes then Err(UnderlyingConfig)
    else if after.creatorAssets != before.creatorAssets then Err(CreatorAssets)
    else
      var management :- MapError(ManagementFee(before.supply, rates.management,
                                               after.lastAccrual - before.lastAccrual, before.remainder));
      if after.remainder != management.remainder then Err(Remainder)
      else Compare(action, before, after, management, rates)
  }

  /** The balance checks, once the management charge of the elapsed time is known. */
  function Compare(action: Action, before: Snapshot, after: Snapshot, management: Charge,
                   rates: Rates): Result<Ledger, Mismatch>
    requires |before.investorAssets| == |before.vaults|
  {
    var ledger :- Expected(action, before, management, rates);
    if after.supply != ledger.supply then Err(Supply)
    else if after.investor != ledger.investor then Err(Investor)
    else if after.creator != ledger.creator then Err(Creator)
    else if after.treasury != ledger.treasury then Err(Treasury)
    else if after.vaults != ledger.vaults then Err(Vaults)
    else if after.investorAssets != ledger.assets then Err(Assets)
    else if after.supply != after.creator + after.investor + after.treasury then Err(Conservation)
    else Ok(ledger)
  }

  /**
   * Unsigned balances that add up. The reader takes supply and balances from separate accounts and does not
   * compare them; the checks on the first snapshot establish this, and every accepted transition keeps it.
   */
  predicate WellFormed(s: Snapshot) {
    && s.supply == s.creator + s.investor + s.treasury
    && s.creator >= 0 && s.investor >= 0 && s.treasury >= 0
    && |s.investorAssets| == |s.vaults|
    && NonNegative(s.vaults)
  }

  predicate Accepted(action: Action, before: Snapshot, after: Snapshot, rates: Rates)
    requires WellFormed(before)
  {
    AssertTransition(action, before, after, rates).Ok?
  }

  /** Share conservation is computed, not only checked: the last check can never fail after the others. */
  lemma ConservationFollows(action: Action, before: Snapshot, after: Snapshot, rates: Rates)
    requires WellFormed(before) && rates.Valid()
    ensures AssertTransition(action, before, after, rates) != Err(Conservation)
  {
  }

  function Passive(s: Snapshot): int {
    s.creator + s.treasury
  }

  /** The shares, passive claim and vault leg between the accrual and the action of one step. */
  lemma Accrual(supply: int, passive: int, fee: int, vault: int)
    requires 0 <= passive <= supply && fee >= 0 && vault >= 0
    ensures (vault * passive) * (supply + fee) <= (vault * (passive + fee)) * supply
  {
    assert passive * (supply + fee) <= (passive + fee) * supply by {
      assert passive * (supply + fee) == passive * supply + passive * fee;
      assert (passive + fee) * supply == passive * supply + fee * supply;
      MulMono(passive, supply, fee);
    }
    MulMono(passive * (supply + fee), (passive + fee) * supply, vault);
    assert (vault * passive) * (supply + fee) == passive * (supply + fee) * vault;
    assert (vault * (passive + fee)) * supply == (passive + fee) * supply * vault;
  }

  /** Better backing and no fewer passive shares give no smaller a passive claim. */
  lemma ClaimFromBacking(v: int, s: int, o: int, v1: int, s1: int, o1: int)
    requires 0 <= o <= o1 && v1 >= 0 && s >= 0 && v * s1 <= v1 * s
    ensures (v * o) * s1 <= (v1 * o1) * s
  {
    MulMono(v * s1, v1 * s, o);
    MulMono(o, o1, v1 * s);
    assert (v * o) * s1 == v * s1 * o;
    assert (v1 * o1) * s == o1 * (v1 * s);
  }

  lemma AccrualThenAction(v: int, s: int, o: int, fee: int, v1: int, s1: int, o1: int)
    requires 0 <= o <= s && s > 0 && fee >= 0 && v >= 0 && v1 >= 0 && s1 >= 0 && o + fee <= o1
    requires v * s1 <= v1 * (s + fee)
    ensures (v * o) * s1 <= (v1 * o1) * s
  {
    Accrual(s, o, fee, v);
    ClaimFromBacking(v, s + fee, o + fee, v1, s1, o1);
    RatioChain(v * o, s, v * (o + fee), s + fee, v1 * o1, s1);
  }

  /** Fees reach creator and treasury, nobody goes negative, and each leg only changes hands. */
  predicate Settled(before: Snapshot, after: Snapshot, managementFee: int, actionFee: int) {
    && Passive(after) == Passive(before) + managementFee + actionFee
    && managementFee >= 0 && actionFee >= 0
    && after.creator >= before.creator && after.treasury >= before.treasury && after.investor >= 0
    && after.supply == after.creator + after.investor + after.treasury
    && |after.vaults| == |before.vaults| == |after.investorAssets| == |before.investorAssets|
    && forall i :: 0 <= i < |before.vaults| ==>
         after.vaults[i] + after.investorAssets[i] == before.vaults[i] + before.investorAssets[i]
  }

  /** No leg ends with less behind each share than the accrued supply had. */
  predicate Backed(before: Snapshot, after: Snapshot, managementFee: int) {
    && |after.vaults| == |before.vaults|
    && forall i :: 0 <= i < |before.vaults| ==>
         0 <= after.vaults[i] && before.vaults[i] * after.supply <= after.vaults[i] * (before.supply + managementFee)
  }

  /** Creator and treasury gain nine tenths of each fee, rounded down, and the rest of it. */
  predicate Paid(before: Snapshot, after: Snapshot, managementFee: int, actionFee: int) {
    && after.creator - before.creator == managementFee * 9_000 / 10_000 + actionFee * 9_000 / 10_000
    && after.treasury - before.treasury
       == (managementFee - managementFee * 9_000 / 10_000) + (actionFee - actionFee * 9_000 / 10_000)
  }

  /** The fields that no step may change, and the clocks that only move forward. */
  predicate Untouched(before: Snapshot, after: Snapshot) {
    && before.slot <= after.slot && before.lastAccrual <= after.lastAccrual
    && after.immutableHash == before.immutableHash && after.configHashes == before.configHashes
    && after.underlyingSupplies == before.underlyingSupplies && after.creatorAssets == before.creatorAssets
  }

  /** Every leg moves the same amount from one side to the other. */
  predicate Moved(fromBefore: seq<int>, fromAfter: seq<int>, toBefore: seq<int>, toAfter: seq<int>, amounts: seq<int>) {
    && |fromBefore| == |fromAfter| == |toBefore| == |toAfter| == |amounts|
    && forall i :: 0 <= i < |amounts| ==>
         fromAfter[i] == fromBefore[i] - amounts[i] && toAfter[i] == toBefore[i] + amounts[i]
  }

  /** Shares one leg is good for. */
  function LegShares(deposit: int, vault: int, supply: int): int
    requires vault > 0
  {
    deposit * supply / vault
  }

  /** `gross` is what the least leg is good for, and no leg exceeds it by more than one percent. */
  predicate GrossOf(gross: int, deposits: seq<int>, vaults: seq<int>, supply: int) {
    && |deposits| == |vaults| && gross > 0
    && (forall i :: 0 <= i < |vaults| ==> vaults[i] > 0 && deposits[i] > 0)
    && (exists i :: 0 <= i < |vaults| && LegShares(deposits[i], vaults[i], supply) == gross)
    && forall i :: 0 <= i < |vaults| ==> 0 <= (LegShares(deposits[i], vaults[i], supply) - gross) * 100 <= gross
  }

  /** The amounts the vaults pay for burned shares. */
  predicate PayoutOf(outs: seq<int>, vaults: seq<int>, burn: int, supply: int)
    requires supply > 0
  {
    |outs| == |vaults| && forall i :: 0 <= i < |vaults| ==> outs[i] == vaults[i] * burn / supply
  }

  /** What a step does, after `managementFee` has been charged, and the fee of the action itself. */
  predicate Lawful(action: Action, before: Snapshot, after: Snapshot, rates: Rates, managementFee: int,
                   actionFee: int)
  {
    var accrued := before.supply + managementFee;
    match action
    case Mint(deposits) =>
      var gross := after.supply - accrued;
      && accrued > 0 && GrossOf(gross, deposits, before.vaults, accrued)
      && actionFee == gross * rates.entry / 10_000 && after.investor == before.investor + gross - actionFee
      && Moved(before.investorAssets, after.investorAssets, before.vaults, after.vaults, deposits)
    case Redeem(shares) =>
      && accrued > 0 && 0 < shares <= before.investor && actionFee == shares * rates.exit / 10_000 < shares
      && after.supply == accrued - (shares - actionFee) && after.investor == before.investor - shares
      && |after.vaults| == |before.vaults|
      && var outs := Minus(before.vaults, after.vaults);
         && PayoutOf(outs, before.vaults, shares - actionFee, accrued)
         && Moved(before.vaults, after.vaults, before.investorAssets, after.investorAssets, outs)
    case Management =>
      && managementFee >= 10 && actionFee == 0 && after.supply == accrued && after.investor == before.investor
      && after.vaults == before.vaults && after.investorAssets == before.investorAssets
  }

  /** The charge of the time between two snapshots, and the remainder it leaves. */
  predicate Charged(before: Snapshot, after: Snapshot, rates: Rates, managementFee: int) {
    ManagementFee(before.supply, rates.management, after.lastAccrual - before.lastAccrual, before.remainder)
    == Ok(Charge(managementFee, after.remainder))
  }

  lemma CompareSettled(action: Action, before: Snapshot, after: Snapshot, management: Charge, rates: Rates)
    requires WellFormed(before) && rates.Valid() && management.fee >= 0
    requires Compare(action, before, after, management, rates).Ok?
    ensures Settled(before, after, management.fee, Compare(action, before, after, management, rates).value.actionFee)
    ensures before.supply > 0 || management.fee > 0
  {
    var accrued := before.supply + management.fee;
    match action
    case Mint(deposits) => MintQuoteFacts(accrued, before.vaults, deposits, rates.entry);
    case Redeem(shares) => RedeemQuoteFacts(shares, accrued, before.vaults, rates.exit);
    case Management =>
  }

  lemma MintBacked(deposits: seq<int>, before: Snapshot, after: Snapshot, management: Charge, rates: Rates)
    requires WellFormed(before) && rates.Valid() && management.fee >= 0
    requires Compare(Mint(deposits), before, after, management, rates).Ok?
    ensures Backed(before, after, management.fee)
  {
    MintQuoteFacts(before.supply + management.fee, before.vaults, deposits, rates.entry);
  }

  lemma RedeemBacked(shares: int, before: Snapshot, after: Snapshot, management: Charge, rates: Rates)
    requires WellFormed(before) && rates.Valid() && management.fee >= 0
    requires Compare(Redeem(shares), before, after, management, rates).Ok?
    ensures Backed(before, after, management.fee)
  {
    RedeemQuoteFacts(shares, before.supply + management.fee, before.vaults, rates.exit);
  }

  lemma CompareBacked(action: Action, before: Snapshot, after: Snapshot, management: Charge, rates: Rates)
    requires WellFormed(before) && rates.Valid() && management.fee >= 0
    requires Compare(action, before, after, management, rates).Ok?
    ensures Backed(before, after, management.fee)
  {
    match action
    case Mint(deposits) => MintBacked(deposits, before, after, management, rates);
    case Redeem(shares) => RedeemBacked(shares, before, after, management, rates);
    case Management =>
  }

  /** Least leg and spread, said of the legs one by one. */
  lemma GrossIsLeast(deposits: seq<int>, vaults: seq<int>, supply: int, gross: int)
    requires |deposits| == |vaults| && vaults != [] && AllPositive(vaults) && AllPositive(deposits)
    ensures gross > 0 && GrossOf(gross, deposits, vaults, supply)
            <==> var legs := GrossPerLeg(deposits, vaults, supply); Proportional(legs) && gross == Least(legs)
  {
    var legs := GrossPerLeg(deposits, vaults, supply);
    assert forall i :: 0 <= i < |legs| ==> legs[i] == LegShares(deposits[i], vaults[i], supply);
    if GrossOf(gross, deposits, vaults, supply) {
      var i :| 0 <= i < |vaults| && LegShares(deposits[i], vaults[i], supply) == gross;
      assert legs[i] == gross;
      var k :| 0 <= k < |legs| && legs[k] == Least(legs);
      var g :| 0 <= g < |legs| && legs[g] == Greatest(legs);
    }
    if Proportional(legs) && gross == Least(legs) {
      var k :| 0 <= k < |legs| && legs[k] == Least(legs);
      assert LegShares(deposits[k], vaults[k], supply) == gross;
    }
  }

  lemma SplitIsFloor(fee: int)
    requires fee >= 0
    ensures SplitFee(fee) == Ok(Split(fee * 9_000 / 10_000, fee - fee * 9_000 / 10_000))
  {
  }

  lemma GrossIsQuoted(deposits: seq<int>, vaults: seq<int>, supply: int, gross: int, entry: int)
    requires 0 <= entry <= BPS && supply > 0 && GrossOf(gross, deposits, vaults, supply)
    ensures var fee := gross * entry / 10_000;
            && fee >= 0
            && ExpectedMint(supply, vaults, deposits, entry)
               == Some(MintQuote(gross, gross - fee, fee, fee * 9_000 / 10_000, fee - fee * 9_000 / 10_000))
  {
    var i :| 0 <= i < |vaults| && LegShares(deposits[i], vaults[i], supply) == gross;
    GrossIsLeast(deposits, vaults, supply, gross);
    FeeWithin(gross, entry);
    SplitIsFloor(gross * entry / 10_000);
  }

  lemma MintIsLawful(deposits: seq<int>, before: Snapshot, after: Snapshot, management: Charge, rates: Rates)
    requires WellFormed(before) && rates.Valid() && management.fee >= 0
    requires Compare(Mint(deposits), before, after, management, rates).Ok?
    ensures var fee := Compare(Mint(deposits), before, after, management, rates).value.actionFee;
            && Lawful(Mint(deposits), before, after, rates, management.fee, fee)
            && Paid(before, after, management.fee, fee)
  {
    var accrued := before.supply + management.fee;
    var q := ExpectedMint(accrued, before.vaults, deposits, rates.entry).value;
    GrossIsLeast(deposits, before.vaults, accrued, q.gross);
    SplitIsFloor(management.fee);
    SplitIsFloor(q.fee);
  }

  lemma MintLedger(deposits: seq<int>, before: Snapshot, management: Charge, rates: Rates, gross: int)
    requires WellFormed(before) && rates.Valid() && management.fee >= 0 && before.supply + management.fee > 0
    requires GrossOf(gross, deposits, before.vaults, before.supply + management.fee)
    ensures var (m, f) := (management.fee, gross * rates.entry / 10_000);
            Expected(Mint(deposits), before, management, rates)
            == Ok(Ledger(before.supply + m + gross, before.creator + m * 9_000 / 10_000 + f * 9_000 / 10_000,
                         before.investor + (gross - f),
                         before.treasury + (m - m * 9_000 / 10_000) + (f - f * 9_000 / 10_000),
                         Plus(before.vaults, deposits), Minus(before.investorAssets, deposits), m, f))
  {
    var accrued, m, f := before.supply + management.fee, management.fee, gross * rates.entry / 10_000;
    GrossIsQuoted(deposits, before.vaults, accrued, gross, rates.entry);
    SplitIsFloor(m);
    var q := MintQuote(gross, gross - f, f, f * 9_000 / 10_000, f - f * 9_000 / 10_000);
    QuoteLedger(deposits, before, management, rates, q, Split(m * 9_000 / 10_000, m - m * 9_000 / 10_000));
  }

  lemma QuoteLedger(deposits: seq<int>, before: Snapshot, management: Charge, rates: Rates, q: MintQuote, split: Split)
    requires WellFormed(before) && SplitFee(management.fee) == Ok(split)
    requires ExpectedMint(before.supply + management.fee, before.vaults, deposits, rates.entry) == Some(q)
    ensures |deposits| == |before.vaults|
    ensures Expected(Mint(deposits), before, management, rates)
            == Ok(Ledger(before.supply + management.fee + q.gross, before.creator + split.creator + q.creator,
                         before.investor + q.net, before.treasury + split.treasury + q.treasury,
                         Plus(before.vaults, deposits), Minus(before.investorAssets, deposits), management.fee, q.fee))
  {
  }

  lemma LedgerMatches(action: Action, before: Snapshot, after: Snapshot, management: Charge, rates: Rates)
    requires |before.investorAssets| == |before.vaults| && Expected(action, before, management, rates).Ok?
    requires var ledger := Expected(action, before, management, rates).value;
             && after.supply == ledger.supply && after.investor == ledger.investor && after.creator == ledger.creator
             && after.treasury == ledger.treasury && after.vaults == ledger.vaults
             && after.investorAssets == ledger.assets
    requires after.supply == after.creator + after.investor + after.treasury
    ensures Compare(action, before, after, management, rates).Ok?
  {
  }

  lemma LawfulMint(deposits: seq<int>, before: Snapshot, after: Snapshot, management: Charge, rates: Rates, fee: int)
    requires WellFormed(before) && rates.Valid() && management.fee >= 0
    requires Lawful(Mint(deposits), before, after, rates, management.fee, fee)
    requires Paid(before, after, management.fee, fee)
    ensures Compare(Mint(deposits), before, after, management, rates).Ok?
  {
    var accrued := before.supply + management.fee;
    var gross := after.supply - accrued;
    MintLedger(deposits, before, management, rates, gross);
    assert after.vaults == Plus(before.vaults, deposits);
    assert after.investorAssets == Minus(before.investorAssets, deposits);
    LedgerMatches(Mint(deposits), before, after, management, rates);
  }

  lemma RedeemIsLawful(shares: int, before: Snapshot, after: Snapshot, management: Charge, rates: Rates)
    requires WellFormed(before) && rates.Valid() && management.fee >= 0
    requires Compare(Redeem(shares), before, after, management, rates).Ok?
    ensures var fee := Compare(Redeem(shares), before, after, management, rates).value.actionFee;
            && Lawful(Redeem(shares), before, after, rates, management.fee, fee)
            && Paid(before, after, management.fee, fee)
  {
    var accrued := before.supply + management.fee;
    var q := RedeemPreview(shares, accrued, before.vaults, rates.exit).value;
    assert Minus(before.vaults, after.vaults) == q.outs;
    SplitIsFloor(management.fee);
    SplitIsFloor(q.fee);
  }

  lemma LawfulRedeem(shares: int, before: Snapshot, after: Snapshot, management: Charge, rates: Rates, fee: int)
    requires WellFormed(before) && rates.Valid() && management.fee >= 0
    requires Lawful(Redeem(shares), before, after, rates, management.fee, fee)
    requires Paid(before, after, management.fee, fee)
    ensures Compare(Redeem(shares), before, after, management, rates).Ok?
  {
    var accrued := before.supply + management.fee;
    var outs := Minus(before.vaults, after.vaults);
    assert outs == Payouts(before.vaults, shares - fee, accrued);
    FeeWithin(shares, rates.exit);
    SplitIsFloor(management.fee);
    SplitIsFloor(fee);
    assert after.vaults == Minus(before.vaults, outs) && after.investorAssets == Plus(before.investorAssets, outs);
  }

  lemma ManagementLawful(before: Snapshot, after: Snapshot, management: Charge, rates: Rates)
    requires WellFormed(before) && rates.Valid() && management.fee >= 0
    ensures var compared := Compare(Management, before, after, management, rates);
            && (compared.Ok? ==> compared.value.actionFee == 0)
            && (compared.Ok? <==> Lawful(Management, before, after, rates, management.fee, 0)
                                  && Paid(before, after, management.fee, 0))
  {
    SplitIsFloor(management.fee);
  }

  lemma CompareIsLawful(action: Action, before: Snapshot, after: Snapshot, management: Charge, rates: Rates)
    requires WellFormed(before) && rates.Valid() && management.fee >= 0
    requires Compare(action, before, after, management, rates).Ok?
    ensures var fee := Compare(action, before, after, management, rates).value.actionFee;
            Lawful(action, before, after, rates, management.fee, fee) && Paid(before, after, management.fee, fee)
  {
    match action
    case Mint(deposits) => MintIsLawful(deposits, before, after, management, rates);
    case Redeem(shares) => RedeemIsLawful(shares, before, after, management, rates);
    case Management => ManagementLawful(before, after, management, rates);
  }

  /** A step that charges the elapsed time, pays both fees and otherwise does what its action says is accepted. */
  lemma LawfulIsAccepted(action: Action, before: Snapshot, after: Snapshot, rates: Rates, managementFee: int, fee: int)
    requires WellFormed(before) && rates.Valid()
    requires Untouched(before, after) && Charged(before, after, rates, managementFee)
    requires Lawful(action, before, after, rates, managementFee, fee) && Paid(before, after, managementFee, fee)
    ensures Accepted(action, before, after, rates)
  {
    var management := Charge(managementFee, after.remainder);
    match action
    case Mint(deposits) => LawfulMint(deposits, before, after, management, rates, fee);
    case Redeem(shares) => LawfulRedeem(shares, before, after, management, rates, fee);
    case Management => ManagementLawful(before, after, management, rates);
  }

  lemma AcceptedCompares(action: Action, before: Snapshot, after: Snapshot, rates: Rates) returns (management: Charge)
    requires WellFormed(before) && rates.Valid() && Accepted(action, before, after, rates)
    ensures Untouched(before, after) && Charged(before, after, rates, management.fee) && management.fee >= 0
    ensures management.remainder == after.remainder && Compare(action, before, after, management, rates).Ok?
    ensures before.supply == 0 ==> management.fee == 0
  {
    management := ManagementFee(before.supply, rates.management, after.lastAccrual - before.lastAccrual,
                                before.remainder).value;
  }

  /** What an accepted step reports. */
  predicate Reports(ledger: Ledger, after: Snapshot, managementFee: int, actionFee: int) {
    ledger.managementFee == managementFee && ledger.actionFee == actionFee && ledger.supply == after.supply
  }

  /**
   * An accepted step charges exactly the elapsed time, does exactly what its action says, pays creator and
   * treasury their parts of both fees, and leaves every leg settled and backed.
   */
  lemma StepFacts(action: Action, before: Snapshot, after: Snapshot, rates: Rates)
    returns (managementFee: int, actionFee: int)
    requires WellFormed(before) && rates.Valid() && Accepted(action, before, after, rates)
    ensures Untouched(before, after) && Charged(before, after, rates, managementFee)
    ensures Lawful(action, before, after, rates, managementFee, actionFee)
    ensures Paid(before, after, managementFee, actionFee)
    ensures Settled(before, after, managementFee, actionFee) && Backed(before, after, managementFee)
    ensures before.supply > 0 && Reports(AssertTransition(action, before, after, rates).value, after, managementFee,
                                         actionFee)
  {
    var management := AcceptedCompares(action, before, after, rates);
    managementFee := management.fee;
    actionFee := Compare(action, before, after, management, rates).value.actionFee;
    CompareSettled(action, before, after, management, rates);
    CompareBacked(action, before, after, management, rates);
    CompareIsLawful(action, before, after, management, rates);
  }

  /** An accepted step leads to a snapshot that again satisfies the reader's guarantees. */
  lemma StepWellFormed(action: Action, before: Snapshot, after: Snapshot, rates: Rates)
    requires WellFormed(before) && rates.Valid() && Accepted(action, before, after, rates)
    ensures WellFormed(after) && before.supply > 0
  {
    var _, _ := StepFacts(action, before, after, rates);
  }

  lemma ClaimKept(before: Snapshot, after: Snapshot, managementFee: int, actionFee: int, i: nat)
    requires WellFormed(before) && before.supply > 0 && i < |before.vaults|
    requires Settled(before, after, managementFee, actionFee) && Backed(before, after, managementFee)
    ensures (before.vaults[i] * Passive(before)) * after.supply <= (after.vaults[i] * Passive(after)) * before.supply
  {
    AccrualThenAction(before.vaults[i], before.supply, Passive(before), managementFee,
                      after.vaults[i], after.supply, Passive(after));
  }

  /** No step lowers the passive holders' pro-rata part of any vault. */
  lemma StepKeepsPassiveClaim(action: Action, before: Snapshot, after: Snapshot, rates: Rates, i: nat)
    requires WellFormed(before) && rates.Valid() && Accepted(action, before, after, rates) && i < |before.vaults|
    ensures |after.vaults| == |before.vaults|
    ensures (before.vaults[i] * Passive(before)) * after.supply <= (after.vaults[i] * Passive(after)) * before.supply
  {
    var managementFee, actionFee := StepFacts(action, before, after, rates);
    ClaimKept(before, after, managementFee, actionFee, i);
  }

  // ---- whole runs ----

  /** Consecutive snapshots, each pair accepted for the action between them. */
  predicate Run(states: seq<Snapshot>, actions: seq<Action>, rates: Rates)
    decreases |actions|
  {
    && |states| == |actions| + 1
    && WellFormed(states[0])
    && (actions != [] ==> Accepted(actions[0], states[0], states[1], rates) && Run(states[1..], actions[1..], rates))
  }

  /** Over every run: conservation, the passive claim on every vault, and the raw tokens in play. */
  lemma {:induction false} RunKeeps(states: seq<Snapshot>, actions: seq<Action>, rates: Rates, i: nat)
    requires rates.Valid() && Run(states, actions, rates) && i < |states[0].vaults|
    ensures var first, last := states[0], states[|actions|];
            && WellFormed(last) && |last.vaults| == |first.vaults|
            && last.creator >= first.creator && last.treasury >= first.treasury
            && (first.vaults[i] * Passive(first)) * last.supply <= (last.vaults[i] * Passive(last)) * first.supply
            && last.vaults[i] + last.investorAssets[i] == first.vaults[i] + first.investorAssets[i]
    decreases |actions|
  {
    if actions != [] {
      var first, second, last := states[0], states[1], states[|actions|];
      var _, _ := StepFacts(actions[0], first, second, rates);
      StepKeepsPassiveClaim(actions[0], first, second, rates, i);
      RunKeeps(states[1..], actions[1..], rates, i);
      assert last == states[1..][|actions[1..]|];
      if second.supply > 0 {
        RatioChain(first.vaults[i] * Passive(first), first.supply, second.vaults[i] * Passive(second), second.supply,
                   last.vaults[i] * Passive(last), last.supply);
      } else {
        EmptyBasketIsFinal(states[1..], actions[1..], rates);
      }
    }
  }

  /** Nothing can happen to a basket without shares. */
  lemma EmptyBasketIsFinal(states: seq<Snapshot>, actions: seq<Action>, rates: Rates)
    requires rates.Valid() && Run(states, actions, rates) && states[0].supply == 0
    ensures actions == []
  {
    if actions != [] { StepWellFormed(actions[0], states[0], states[1], rates); }
  }

  lemma CancelProducts(a: int, b: int, s: int, t: int, o: int, p: int)
    requires s > 0 && t > 0 && o == s && p == t && (a * o) * t <= (b * p) * s
    ensures a <= b
  {
    assert (b * t) * s == (b * s) * t;
    CancelLe(a * s, b * s, t);
    CancelLe(a, b, s);
  }

  /** An investor with no shares at either end of a run has taken nothing out of any vault. */
  lemma NoExtraction(states: seq<Snapshot>, actions: seq<Action>, rates: Rates, i: nat)
    requires rates.Valid() && Run(states, actions, rates) && i < |states[0].vaults|
    requires states[0].investor == 0 && states[|actions|].investor == 0
    ensures |states[|actions|].vaults| == |states[0].vaults| == |states[|actions|].investorAssets|
    ensures states[|actions|].vaults[i] >= states[0].vaults[i]
    ensures states[|actions|].investorAssets[i] <= states[0].investorAssets[i]
  {
    var first, last := states[0], states[|actions|];
    RunKeeps(states, actions, rates, i);
    if first.supply == 0 {
      EmptyBasketIsFinal(states, actions, rates);
    } else {
      CancelProducts(first.vaults[i], last.vaults[i], first.supply, last.supply, Passive(first), Passive(last));
    }
  }

  // ---- a run in which an investor mints and redeems everything ----

  const BEFORE := Snapshot(1, 1_000_000, 900_000, 0, 100_000, [1_000_000], [500_000], [0], [0], 0, 0, 0, [0])
  const MINTED := BEFORE.(supply := 1_100_000, creator := 900_900, investor := 99_000, treasury := 100_100,
                          vaults := [1_100_000], investorAssets := [400_000])
  const REDEEMED := MINTED.(supply := 1_001_495, creator := 901_345, investor := 0, treasury := 100_150,
                            vaults := [1_001_495], investorAssets := [498_505])

  lemma ExampleCharge(before: Snapshot, after: Snapshot)
    requires before.supply > 0 && before.lastAccrual == after.lastAccrual && before.remainder == after.remainder == 0
    ensures Charged(before, after, LIFECYCLE_FEES, 0)
  {
  }

  lemma ExampleGross(deposits: seq<int>, before: Snapshot, after: Snapshot, fee: int)
    requires deposits == [100_000] && before == BEFORE && after == MINTED && fee == 0
    ensures GrossOf(after.supply - (before.supply + fee), deposits, before.vaults, before.supply + fee)
  {
    assert LegShares(deposits[0], before.vaults[0], 1_000_000) == 100_000;
  }

  lemma ExampleLaw(deposits: seq<int>, before: Snapshot, after: Snapshot, fee: int)
    requires deposits == [100_000] && before == BEFORE && after == MINTED && fee == 0
    ensures Lawful(Mint(deposits), before, after, LIFECYCLE_FEES, fee, 1_000) && Paid(before, after, fee, 1_000)
  {
    ExampleGross(deposits, before, after, fee);
  }

  lemma ExampleMint()
    ensures WellFormed(BEFORE) && Accepted(Mint([100_000]), BEFORE, MINTED, LIFECYCLE_FEES)
  {
    var deposits := [100_000];
    ExampleLaw(deposits, BEFORE, MINTED, 0);
    ExampleCharge(BEFORE, MINTED);
    LawfulIsAccepted(Mint(deposits), BEFORE, MINTED, LIFECYCLE_FEES, 0, 1_000);
  }

  lemma ExampleRedeem()
    ensures WellFormed(MINTED) && Accepted(Redeem(99_000), MINTED, REDEEMED, LIFECYCLE_FEES) && WellFormed(REDEEMED)
  {
    assert Minus(MINTED.vaults, REDEEMED.vaults) == [98_505];
    ExampleCharge(MINTED, REDEEMED);
    LawfulIsAccepted(Redeem(99_000), MINTED, REDEEMED, LIFECYCLE_FEES, 0, 495);
  }

  /** The no-extraction theorem is about real runs: this one costs the investor both fees. */
  lemma ExampleRun()
    ensures var states, actions := [BEFORE, MINTED, REDEEMED], [Mint([100_000]), Redeem(99_000)];
            && Run(states, actions, LIFECYCLE_FEES) && states[0].investor == 0 && states[2].investor == 0
            && states[2].investorAssets[0] < states[0].investorAssets[0] && states[2].vaults[0] > states[0].vaults[0]
  {
    ExampleMint();
    ExampleRedeem();
    var states, actions := [BEFORE, MINTED, REDEEMED], [Mint([100_000]), Redeem(99_000)];
    assert states[1..] == [MINTED, REDEEMED] && actions[1..] == [Redeem(99_000)];
    assert states[1..][1..] == [REDEEMED] && actions[1..][1..] == [];
    assert Run([REDEEMED], [], LIFECYCLE_FEES);
    assert Run(states[1..], actions[1..], LIFECYCLE_FEES);
  }
}
