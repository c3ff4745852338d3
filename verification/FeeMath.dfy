/** Share-fee arithmetic: the 90/10 split and the management fee with carried remainder. */
module FeeMath {
  import opened Results

  const BPS := 10_000
  const SECONDS_PER_YEAR := 31_536_000
  const CREATOR_BPS := 9_000
  const DENOMINATOR := 315_360_000_000  // BPS * SECONDS_PER_YEAR

  datatype RangeError = NegativeFee | OutsideDomain | BadBps | BadRemainder
  datatype Split = Split(creator: int, treasury: int)
  datatype Charge = Charge(fee: int, remainder: int)

  /** The creator leg is the floor of 90%; nothing is lost to rounding. */
  function SplitFee(fee: int): (r: Result<Split, RangeError>)
    ensures r.Ok? <==> fee >= 0
    ensures r.Ok? ==> r.value.creator + r.value.treasury == fee
    ensures r.Ok? ==> 0 <= 10 * r.value.creator <= 9 * fee < 10 * r.value.creator + 10
  {
    if fee < 0 then Err(NegativeFee)
    else
      var creator := fee * CREATOR_BPS / BPS;
      Ok(Split(creator, fee - creator))
  }

  /** A basket that can be charged: anything else clears the carried remainder. */
  predicate Active(supply: int, bps: int) {
    supply != 0 && bps != 0
  }

  /** Fee and remainder are exactly the quotient and rest of the carried numerator. */
  function ManagementFee(supply: int, bps: int, elapsed: int, remainder: int): (r: Result<Charge, RangeError>)
    ensures r.Ok? ==> 0 <= r.value.fee && 0 <= r.value.remainder < DENOMINATOR < 0x100_0000_0000
    ensures r.Ok? && Active(supply, bps) ==>
              r.value.fee * DENOMINATOR + r.value.remainder == supply * bps * elapsed + remainder
    ensures r.Ok? && !Active(supply, bps) ==> r.value == Charge(0, 0)
  {
    if supply < 0 || elapsed < 0 then Err(OutsideDomain)
    else if bps < 0 || bps > BPS then Err(BadBps)
    else if !Active(supply, bps) then Ok(Charge(0, 0))
    else if remainder < 0 || remainder >= DENOMINATOR then Err(BadRemainder)
    else
      ProductNonNegative(supply, bps, elapsed);
      var numerator := supply * bps * elapsed + remainder;
      Ok(Charge(numerator / DENOMINATOR, numerator % DENOMINATOR))
  }

  lemma ProductNonNegative(a: int, b: int, c: int)
    requires a >= 0 && b >= 0 && c >= 0
    ensures a * b * c >= 0
  {
    assert a * b >= 0;
  }

  function Sum(parts: seq<int>): int {
    if parts == [] then 0 else parts[0] + Sum(parts[1..])
  }

  predicate NonNegative(parts: seq<int>) {
    forall i :: 0 <= i < |parts| ==> parts[i] >= 0
  }

  /** Successive accruals over `parts`; with `reinvest` every fee joins the next supply. */
  function Accrue(supply: int, bps: int, parts: seq<int>, remainder: int, reinvest: bool): Result<Charge, RangeError>
    decreases |parts|
  {
    if parts == [] then Ok(Charge(0, remainder))
    else
      var first :- ManagementFee(supply, bps, parts[0], remainder);
      var rest :- Accrue(if reinvest then supply + first.fee else supply, bps, parts[1..], first.remainder, reinvest);
      Ok(Charge(first.fee + rest.fee, rest.remainder))
  }

  /** Quotient and rest of one numerator are unique. */
  lemma UniqueQuotient(f: int, r: int, g: int, s: int)
    requires 0 <= r < DENOMINATOR && 0 <= s < DENOMINATOR
    requires f * DENOMINATOR + r == g * DENOMINATOR + s
    ensures f == g && r == s
  {
  }

  /** At constant supply the schedule of accruals changes neither the fee, the dust nor the error. */
  lemma {:induction false} PathIndependent(supply: int, bps: int, parts: seq<int>, remainder: int)
    requires parts != [] && NonNegative(parts)
    ensures Accrue(supply, bps, parts, remainder, false) == ManagementFee(supply, bps, Sum(parts), remainder)
  {
    var first := ManagementFee(supply, bps, parts[0], remainder);
    var tail := parts[1..];
    assert NonNegative(tail);
    SumNonNegative(tail);
    if tail == [] {
      assert parts == [parts[0]];
    } else if first.Ok? {
      PathIndependent(supply, bps, tail, first.value.remainder);
      if Active(supply, bps) {
        var rest := ManagementFee(supply, bps, Sum(tail), first.value.remainder).value;
        var whole := ManagementFee(supply, bps, Sum(parts), remainder).value;
        Distribute(supply * bps, parts[0], Sum(tail));
        UniqueQuotient(first.value.fee + rest.fee, rest.remainder, whole.fee, whole.remainder);
      }
    }
  }

  lemma SumNonNegative(parts: seq<int>)
    requires NonNegative(parts)
    ensures Sum(parts) >= 0
  {
  }

  lemma Distribute(a: int, x: int, y: int)
    ensures a * (x + y) == a * x + a * y
  {
  }

  /** Charging grown supplies collects at least the numerator of one accrual on the first supply. */
  lemma {:induction false} CompoundNumerator(supply: int, bps: int, parts: seq<int>, remainder: int)
    requires NonNegative(parts) && supply > 0 && 0 < bps <= BPS && 0 <= remainder < DENOMINATOR
    ensures Accrue(supply, bps, parts, remainder, true).Ok?
    ensures var c := Accrue(supply, bps, parts, remainder, true).value;
            && 0 <= c.fee && 0 <= c.remainder < DENOMINATOR
            && c.fee * DENOMINATOR + c.remainder >= supply * bps * Sum(parts) + remainder
    decreases |parts|
  {
    if parts != [] {
      var first := ManagementFee(supply, bps, parts[0], remainder).value;
      var tail := parts[1..];
      assert NonNegative(tail);
      SumNonNegative(tail);
      CompoundNumerator(supply + first.fee, bps, tail, first.remainder);
      var rest := Accrue(supply + first.fee, bps, tail, first.remainder, true).value;
      Grown(supply, first.fee, bps, Sum(tail));
      Distribute(supply * bps, parts[0], Sum(tail));
      assert (first.fee + rest.fee) * DENOMINATOR + rest.remainder
          >= first.fee * DENOMINATOR + first.remainder + supply * bps * Sum(tail);
    }
  }

  lemma Grown(supply: int, fee: int, bps: int, elapsed: int)
    requires fee >= 0 && bps >= 0 && elapsed >= 0
    ensures (supply + fee) * bps * elapsed >= supply * bps * elapsed
  {
    ProductNonNegative(fee, bps, elapsed);
    assert (supply + fee) * bps * elapsed == supply * bps * elapsed + fee * bps * elapsed;
  }

  /** Adding each fee to the supply accepts the same inputs and never collects less. */
  lemma CompoundNeverLess(supply: int, bps: int, parts: seq<int>, remainder: int)
    requires parts != [] && NonNegative(parts)
    ensures var whole := ManagementFee(supply, bps, Sum(parts), remainder);
            var split := Accrue(supply, bps, parts, remainder, true);
            && (split.Ok? <==> whole.Ok?)
            && (whole.Ok? ==> split.value.fee >= whole.value.fee && 0 <= split.value.remainder < DENOMINATOR)
  {
    SumNonNegative(parts);
    var whole := ManagementFee(supply, bps, Sum(parts), remainder);
    if whole.Ok? {
      if Active(supply, bps) {
        CompoundNumerator(supply, bps, parts, remainder);
      } else {
        InactiveAccrual(supply, bps, parts, remainder);
      }
    }
  }

  lemma {:induction false} InactiveAccrual(supply: int, bps: int, parts: seq<int>, remainder: int)
    requires NonNegative(parts) && supply >= 0 && 0 <= bps <= BPS && !Active(supply, bps)
    ensures Accrue(supply, bps, parts, remainder, true) == Ok(Charge(0, if parts == [] then remainder else 0))
  {
    if parts != [] {
      InactiveAccrual(supply, bps, parts[1..], 0);
    }
  }

  // ---- the five-byte checkpoint field ----

  function Pow256(k: nat): nat {
    if k == 0 then 1 else 256 * Pow256(k - 1)
  }

  predicate Bytes(data: seq<int>) {
    forall i :: 0 <= i < |data| ==> 0 <= data[i] < 256
  }

  /** Value of little-endian bytes. */
  function LittleEndian(data: seq<int>): int {
    if data == [] then 0 else data[0] + 256 * LittleEndian(data[1..])
  }

  function StoreLittleEndian(value: int, width: nat): seq<int>
    requires value >= 0
  {
    if width == 0 then [] else [value % 256] + StoreLittleEndian(value / 256, width - 1)
  }

  lemma {:induction false} LittleEndianAppend(data: seq<int>, b: int)
    ensures LittleEndian(data + [b]) == LittleEndian(data) + Pow256(|data|) * b
  {
    if data == [] {
      assert data + [b] == [b];
      assert LittleEndian([b]) == b + 256 * LittleEndian([]);
    } else {
      assert (data + [b])[1..] == data[1..] + [b];
      LittleEndianAppend(data[1..], b);
      var p, q := Pow256(|data| - 1), Pow256(|data|);
      assert q == 256 * p;
      assert 256 * (p * b) == q * b;
    }
  }

  const TWO_TO_THE_63 := 0x8000_0000_0000_0000
  const TWO_TO_THE_64 := 0x1_0000_0000_0000_0000

  /** Two's complement. */
  function Signed(word: int): int {
    if word < TWO_TO_THE_63 then word else word - TWO_TO_THE_64
  }

  datatype Checkpoint = Checkpoint(lastAccrual: int, remainder: int)

  /**
   * Reads the accrual time and the carried remainder out of a basket account. Byte i is or-ed in above the i
   * bytes already read, so no bits overlap and the or is a sum.
   */
  method DecodeFeeCheckpoint(data: seq<int>, discriminator: seq<int>) returns (r: Option<Checkpoint>)
    requires Bytes(data) && |discriminator| == 8
    ensures r.Some? <==> |data| >= 886 && data[..8] == discriminator
    ensures r.Some? ==>
              && r.value.remainder == LittleEndian(data[881..886])
              && r.value.lastAccrual == Signed(LittleEndian(data[152..160]))
  {
    if |data| < 886 || data[..8] != discriminator { return None; }
    var remainder := 0;
    for i := 0 to 5
      invariant remainder == LittleEndian(data[881..881 + i]) && 0 <= remainder < Pow256(i)
    {
      LittleEndianAppend(data[881..881 + i], data[881 + i]);
      assert data[881..881 + i] + [data[881 + i]] == data[881..881 + (i + 1)];
      AddedAbove(remainder, data[881 + i], Pow256(i));
      remainder := remainder + Pow256(i) * data[881 + i];
    }
    r := Some(Checkpoint(Signed(LittleEndian(data[152..160])), remainder));
  }

  lemma AddedAbove(low: int, b: int, p: int)
    requires 0 <= low < p && 0 <= b < 256
    ensures 0 <= low + p * b < 256 * p
  {
    assert 0 <= p * b <= p * 255;
  }

  lemma {:induction false} StoreRoundTrip(value: int, width: nat)
    requires 0 <= value < Pow256(width)
    ensures Bytes(StoreLittleEndian(value, width)) && |StoreLittleEndian(value, width)| == width
    ensures LittleEndian(StoreLittleEndian(value, width)) == value
  {
    if width > 0 {
      assert value / 256 < Pow256(width - 1);
      StoreRoundTrip(value / 256, width - 1);
      var rest := StoreLittleEndian(value / 256, width - 1);
      assert ([value % 256] + rest)[1..] == rest;
    }
  }

  lemma PowersOf256()
    ensures Pow256(5) == 0x100_0000_0000 && Pow256(8) == TWO_TO_THE_64
  {
    assert Pow256(1) == 0x100 && Pow256(2) == 0x1_0000;
    assert Pow256(3) == 0x100_0000 && Pow256(4) == 0x1_0000_0000;
    assert Pow256(5) == 0x100_0000_0000 && Pow256(6) == 0x1_0000_0000_0000;
    assert Pow256(7) == 0x100_0000_0000_0000;
  }

  /** A signed 64-bit time written in two's complement is read back. */
  lemma TimeRoundTrip(time: int)
    requires -TWO_TO_THE_63 <= time < TWO_TO_THE_63
    ensures Signed(LittleEndian(StoreLittleEndian(if time < 0 then time + TWO_TO_THE_64 else time, 8))) == time
  {
    PowersOf256();
    StoreRoundTrip(if time < 0 then time + TWO_TO_THE_64 else time, 8);
  }

  /** Every remainder an accrual leaves survives the five-byte field unchanged. */
  lemma RemainderFitsFiveBytes(supply: int, bps: int, elapsed: int, remainder: int)
    requires ManagementFee(supply, bps, elapsed, remainder).Ok?
    ensures var left := ManagementFee(supply, bps, elapsed, remainder).value.remainder;
            LittleEndian(StoreLittleEndian(left, 5)) == left
  {
    var left := ManagementFee(supply, bps, elapsed, remainder).value.remainder;
    PowersOf256();
    StoreRoundTrip(left, 5);
  }
}
