/** What the basket validator accepts and what it makes of it, said of the plain object's own fields. */
module ConceptFacts {
  import opened Results
  import opened WordText
  import opened ConceptBasket

  // ---- trimming ----

  predicate Blank(t: string) {
    forall i :: 0 <= i < |t| ==> IsSpace(t[i])
  }

  /** m is what stands between the first and the last character of t that is no space. */
  predicate IsTrimmed(t: string, m: string) {
    exists a, z :: 0 <= a <= z <= |t| && Between(t, a, z) && m == t[a..z]
  }

  predicate Between(t: string, a: nat, z: nat)
    requires a <= z <= |t|
  {
    && Blank(t[..a]) && Blank(t[z..])
    && (a < z ==> !IsSpace(t[a]) && !IsSpace(t[z - 1]))
  }

  lemma {:induction false} TrimStartAt(t: string) returns (a: nat)
    ensures a <= |t| && TrimStart(t) == t[a..] && Blank(t[..a]) && (a < |t| ==> !IsSpace(t[a]))
  {
    a := 0;
    if t != "" && IsSpace(t[0]) {
      var b := TrimStartAt(t[1..]);
      a := b + 1;
      forall i | 0 <= i < a ensures IsSpace(t[i]) {
        if i > 0 { assert t[i] == t[1..][..b][i - 1]; }
      }
      assert t[1..][b..] == t[a..];
    }
  }

  lemma {:induction false} TrimEndAt(t: string) returns (z: nat)
    ensures z <= |t| && TrimEnd(t) == t[..z] && Blank(t[z..]) && (z > 0 ==> !IsSpace(t[z - 1]))
  {
    z := |t|;
    if t != "" && IsSpace(t[|t| - 1]) {
      var n := |t| - 1;
      z := TrimEndAt(t[..n]);
      forall i | z <= i < |t| ensures IsSpace(t[i]) {
        if i < n { assert t[i] == t[..n][z..][i - z]; }
      }
      assert t[..n][..z] == t[..z];
    }
  }

  lemma BlankParts(t: string, a: nat)
    requires a <= |t| && Blank(t[..a]) && Blank(t[a..])
    ensures Blank(t)
  {
    forall i | 0 <= i < |t| ensures IsSpace(t[i]) {
      assert t[i] == if i < a then t[..a][i] else t[a..][i - a];
    }
  }

  lemma TrimIs(t: string)
    ensures IsTrimmed(t, Trim(t))
    ensures Trim(t) == "" <==> Blank(t)
  {
    var a := TrimStartAt(t);
    var z := TrimEndAt(t[a..]);
    assert t[a..][..z] == t[a..a + z] && t[a..][z..] == t[a + z..];
    assert Between(t, a, a + z);
    if z == 0 { BlankParts(t, a); }
  }

  // ---- what is accepted ----

  predicate IsInteger(v: Json, n: int) {
    v == Num(n as real)
  }

  ghost predicate IsWhole(v: Json, low: int, high: int) {
    exists n :: IsInteger(v, n) && low <= n && n <= high
  }

  lemma WholeIs(v: Json, low: int, high: int)
    ensures WholeWithin(v, low, high) <==> IsWhole(v, low, high)
    ensures WholeWithin(v, low, high) ==> v == Num(Whole(v) as real)
  {
    if WholeWithin(v, low, high) { assert IsInteger(v, v.value.Floor); }
  }

  /** Up to 25 capital letters, digits, dots, colons and hyphens, and a letter or digit first. */
  predicate SymbolPattern(t: string) {
    && |t| >= 1 && |t| <= 25 && t[0] != '.' && t[0] != ':' && t[0] != '-'
    && forall i :: 0 <= i < |t| ==>
         (t[i] >= 'A' && t[i] <= 'Z') || (t[i] >= '0' && t[i] <= '9') || t[i] in ".:-"
  }

  predicate IsMint(r: Registry, v: Json) {
    v.Str? && r.isMint(v.text)
  }

  /** A listed or minted symbol, a mint that does not contradict it, and a positive weight of at most 100%. */
  ghost predicate RowAccepted(r: Registry, row: Json) {
    var symbol, mint := Get(row, "symbol"), Get(row, "mint");
    && row.Obj? && symbol.Str? && SymbolPattern(symbol.text)
    && (r.isListed(symbol.text) || IsMint(r, mint))
    && (mint == Undefined || (IsMint(r, mint) && !r.conflicts(symbol.text, mint.text)))
    && IsWhole(Get(row, "weightBps"), 1, 10_000)
  }

  lemma SymbolIs(t: string)
    ensures SymbolText(t) <==> SymbolPattern(t)
  {
    assert forall c: char :: c in ".:-" <==> c == '.' || c == ':' || c == '-';
  }

  lemma RowIs(r: Registry, row: Json)
    ensures RowOk(r, row) <==> RowAccepted(r, row)
  {
    SymbolIs(SymbolOf(row));
    WholeIs(Get(row, "weightBps"), 1, 10_000);
  }

  /** The rows stand for different symbols and different mints. */
  predicate Apart(rows: seq<Json>) {
    forall i, j :: 0 <= i < |rows| && 0 <= j < |rows| && i != j ==>
      && Get(rows[i], "symbol") != Get(rows[j], "symbol")
      && (Get(rows[i], "mint") == Undefined || Get(rows[i], "mint") != Get(rows[j], "mint"))
  }

  ghost predicate RowsAccepted(r: Registry, rows: seq<Json>) {
    (forall i :: 0 <= i < |rows| ==> RowAccepted(r, rows[i])) && Apart(rows)
  }

  lemma RowsAre(r: Registry, rows: seq<Json>)
    ensures RowsOk(r, rows) <==> RowsAccepted(r, rows)
  {
    forall i | 0 <= i < |rows| ensures RowOk(r, rows[i]) <==> RowAccepted(r, rows[i]) {
      RowIs(r, rows[i]);
    }
    if forall i :: 0 <= i < |rows| ==> RowOk(r, rows[i]) {
      forall i | 0 <= i < |rows|
        ensures Get(rows[i], "symbol") == Str(SymbolOf(rows[i]))
        ensures HasMint(rows[i]) ==> Get(rows[i], "mint") == Str(MintOf(rows[i]))
      {
        assert RowOk(r, rows[i]);
      }
      AreApart(rows);
    }
  }

  lemma AreApart(rows: seq<Json>)
    requires forall i :: 0 <= i < |rows| ==>
               && Get(rows[i], "symbol") == Str(SymbolOf(rows[i]))
               && (HasMint(rows[i]) ==> Get(rows[i], "mint") == Str(MintOf(rows[i])))
    ensures Apart(rows) <==>
              && (forall i, j :: 0 <= i < j < |rows| ==> SymbolOf(rows[i]) != SymbolOf(rows[j]))
              && (forall i, j :: 0 <= i < j < |rows| && HasMint(rows[i]) && HasMint(rows[j]) ==>
                    MintOf(rows[i]) != MintOf(rows[j]))
  {
  }

  ghost predicate HeadAccepted(r: Registry, input: Json) {
    var name, thesis, amount, cover :=
      Get(input, "name"), Get(input, "thesis"), Get(input, "amountUsd"), Get(input, "coverId");
    && Get(input, "v") == Num(1.0)
    && name.Str? && !Blank(name.text) && |name.text| <= 60
    && thesis.Str? && |thesis.text| <= 240
    && amount.Num? && amount.value > 0.0 && amount.value <= 1_000_000.0
    && (cover == Undefined || (cover.Str? && r.isCover(cover.text)))
  }

  ghost predicate FeesAccepted(fees: Json) {
    && IsWhole(Get(fees, "entryBps"), 0, 300) && IsWhole(Get(fees, "exitBps"), 0, 100)
    && IsWhole(Get(fees, "managementBps"), 0, 300)
  }

  lemma FeesAre(input: Json)
    ensures (forall k :: 0 <= k < |FEE_CAPS| ==> FeeOk(input, k)) <==> FeesAccepted(Get(input, "fees"))
  {
    assert FEE_CAPS[0] == ("entryBps", 300) && FEE_CAPS[1] == ("exitBps", 100) && FEE_CAPS[2] == ("managementBps", 300);
    WholeIs(Get(Get(input, "fees"), "entryBps"), 0, 300);
    WholeIs(Get(Get(input, "fees"), "exitBps"), 0, 100);
    WholeIs(Get(Get(input, "fees"), "managementBps"), 0, 300);
    if FeesAccepted(Get(input, "fees")) {
      assert FeeOk(input, 0) && FeeOk(input, 1) && FeeOk(input, 2);
    }
    if forall k :: 0 <= k < |FEE_CAPS| ==> FeeOk(input, k) {
      assert FeeOk(input, 0) && FeeOk(input, 1) && FeeOk(input, 2);
    }
  }

  /** Two to twenty accepted rows whose weights add up to 100%. */
  ghost predicate AssetsAccepted(r: Registry, assets: Json) {
    && assets.Arr? && |assets.items| >= 2 && |assets.items| <= 20
    && RowsAccepted(r, assets.items) && Total(assets.items) == 10_000
  }

  /** A basket is accepted exactly when it is an object whose every field is. */
  lemma ValidIff(r: Registry, input: Json)
    ensures ValidBasket(r, input) <==>
              && input.Obj? && HeadAccepted(r, input) && AssetsAccepted(r, Get(input, "assets"))
              && FeesAccepted(Get(input, "fees"))
  {
    if Get(input, "name").Str? { TrimIs(Get(input, "name").text); }
    RowsAre(r, Rows(input));
    FeesAre(input);
  }

  // ---- what is wrong with what is not accepted ----

  /** The problem of each field, whatever else is wrong. */
  lemma HeadProblems(r: Registry, input: Json)
    ensures var name, thesis := Get(input, "name"), Get(input, "thesis");
            && (TopFault(r, input, BadVersion) <==> Get(input, "v") != Num(1.0))
            && (TopFault(r, input, BadName) <==> !name.Str? || Blank(name.text) || |name.text| > 60)
            && (TopFault(r, input, BadThesis) <==> !thesis.Str? || |thesis.text| > 240)
  {
    if Get(input, "name").Str? { TrimIs(Get(input, "name").text); }
  }

  lemma MoreHeadProblems(r: Registry, input: Json)
    ensures var amount, cover := Get(input, "amountUsd"), Get(input, "coverId");
            && (TopFault(r, input, BadAmount) <==>
                !amount.Num? || amount.value <= 0.0 || amount.value > 1_000_000.0)
            && (TopFault(r, input, BadCover) <==> cover != Undefined && !(cover.Str? && r.isCover(cover.text)))
            && (TopFault(r, input, BadCount) <==> |Rows(input)| < 2 || |Rows(input)| > 20)
  {
  }

  lemma KeysDiffer(j: nat, k: nat)
    requires j < 3 && k < 3 && FEE_CAPS[j].0 == FEE_CAPS[k].0
    ensures j == k
  {
    assert |FEE_CAPS[0].0| == 8 && |FEE_CAPS[1].0| == 7 && |FEE_CAPS[2].0| == 13;
  }

  /** The problem of each fee, whatever else is wrong. */
  lemma FeeProblem(input: Json, k: nat)
    requires k < 3
    ensures var (key, cap) := [("entryBps", 300), ("exitBps", 100), ("managementBps", 300)][k];
            FeeFault(input, BadFee(key)) <==> !IsWhole(Get(Get(input, "fees"), key), 0, cap)
  {
    var (key, cap) := FEE_CAPS[k];
    WholeIs(Get(Get(input, "fees"), key), 0, cap);
    assert FeeOk(input, k) <==> IsWhole(Get(Get(input, "fees"), key), 0, cap);
    if FeeFault(input, BadFee(key)) {
      var j :| 0 <= j < 3 && BadFee(key) == BadFee(FEE_CAPS[j].0) && !FeeOk(input, j);
      KeysDiffer(j, k);
    }
  }

  /** The problem of a row, after rows with the given symbols and mints. */
  lemma RowProblem(r: Registry, row: Json, symbols: set<string>, mints: set<string>, e: Problem)
    ensures var symbol, mint := Get(row, "symbol"), Get(row, "mint");
            var named := row.Obj? && symbol.Str? && SymbolPattern(symbol.text)
                         && (r.isListed(symbol.text) || IsMint(r, mint));
            RowFault(r, row, symbols, mints, e) <==>
              match e
              case BadAsset => !row.Obj?
              case BadSymbol => row.Obj? && !named
              case BadMint => named && mint != Undefined && !IsMint(r, mint)
              case Conflict => named && IsMint(r, mint) && r.conflicts(symbol.text, mint.text)
              case RepeatedMint => named && IsMint(r, mint) && mint.text in mints
              case RepeatedSymbol => named && symbol.text in symbols
              case BadWeight => named && !IsWhole(Get(row, "weightBps"), 1, 10_000)
              case _ => false
  {
    SymbolIs(SymbolOf(row));
    WholeIs(Get(row, "weightBps"), 1, 10_000);
  }

  // ---- what becomes of it ----

  predicate AssetRead(asset: Asset, row: Json) {
    && Get(row, "symbol") == Str(asset.symbol) && Get(row, "weightBps") == Num(asset.weightBps as real)
    && Get(row, "mint") == if asset.mint.Some? then Str(asset.mint.value) else Undefined
  }

  /** The cover asked for, or the legacy one for the name and symbols as they were given. */
  predicate CoverChosen(r: Registry, b: Basket, input: Json) {
    var (name, cover) := (Get(input, "name"), Get(input, "coverId"));
    name.Str? && b.coverId == if cover.Str? then cover.text else r.legacyCover(name.text, SymbolsOf(b.assets))
  }

  function SymbolsOf(assets: seq<Asset>): (symbols: seq<string>)
    ensures |symbols| == |assets| && forall i :: 0 <= i < |symbols| ==> symbols[i] == assets[i].symbol
  {
    seq(|assets|, i requires 0 <= i < |assets| => assets[i].symbol)
  }

  /** An accepted basket keeps its fields, without the space around its name and thesis. */
  lemma NormalizedIs(r: Registry, input: Json)
    requires ValidBasket(r, input)
    ensures var b := Normalized(r, input);
            && IsTrimmed(Get(input, "name").text, b.name) && IsTrimmed(Get(input, "thesis").text, b.thesis)
            && Get(input, "amountUsd") == Num(b.amountUsd) && CoverChosen(r, b, input)
            && |b.assets| == |Get(input, "assets").items|
            && (forall i :: 0 <= i < |b.assets| ==> AssetRead(b.assets[i], Get(input, "assets").items[i]))
            && Get(Get(input, "fees"), "entryBps") == Num(b.fees.entryBps as real)
            && Get(Get(input, "fees"), "exitBps") == Num(b.fees.exitBps as real)
            && Get(Get(input, "fees"), "managementBps") == Num(b.fees.managementBps as real)
  {
    TrimIs(Get(input, "name").text);
    TrimIs(Get(input, "thesis").text);
    AssetsRead(r, Rows(input));
    CoverIs(r, input);
    FeesRead(input);
  }

  lemma AssetsRead(r: Registry, rows: seq<Json>)
    requires RowsOk(r, rows)
    ensures forall i :: 0 <= i < |rows| ==> AssetRead(AssetsOf(rows)[i], rows[i])
  {
    forall i | 0 <= i < |rows| ensures AssetRead(AssetsOf(rows)[i], rows[i]) {
      assert RowOk(r, rows[i]);
      WholeIs(Get(rows[i], "weightBps"), 1, 10_000);
    }
  }

  lemma CoverIs(r: Registry, input: Json)
    requires TopOk(r, input)
    ensures CoverChosen(r, Normalized(r, input), input)
  {
    assert SymbolsOf(AssetsOf(Rows(input))) == Symbols(Rows(input));
  }

  lemma FeesRead(input: Json)
    requires forall k :: 0 <= k < |FEE_CAPS| ==> FeeOk(input, k)
    ensures var fees := FeesOf(input);
            && Get(Get(input, "fees"), "entryBps") == Num(fees.entryBps as real)
            && Get(Get(input, "fees"), "exitBps") == Num(fees.exitBps as real)
            && Get(Get(input, "fees"), "managementBps") == Num(fees.managementBps as real)
  {
    assert FeeOk(input, 0) && FeeOk(input, 1) && FeeOk(input, 2);
    WholeIs(Get(Get(input, "fees"), "entryBps"), 0, 300);
    WholeIs(Get(Get(input, "fees"), "exitBps"), 0, 100);
    WholeIs(Get(Get(input, "fees"), "managementBps"), 0, 300);
  }
}
