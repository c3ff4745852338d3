/** Base64url without padding, as section 5 of RFC 4648 defines it, built from the platform's padded base64. */
module Base64Url {
  import opened Results

  type Byte = b: int | 0 <= b < 256
  type Sextet = d: int | 0 <= d < 64

  // the four six-bit values of three bytes
  function First(x: Byte): Sextet { x / 4 }
  function Second(x: Byte, y: Byte): Sextet { x % 4 * 16 + y / 16 }
  function Third(y: Byte, z: Byte): Sextet { y % 16 * 4 + z / 64 }
  function Fourth(z: Byte): Sextet { z % 64 }

  // and the three bytes of four six-bit values
  function Low(p: Sextet, q: Sextet): Byte { p * 4 + q / 16 }
  function Middle(q: Sextet, r: Sextet): Byte { q % 16 * 16 + r / 4 }
  function High(r: Sextet, s: Sextet): Byte { r % 4 * 64 + s }

  lemma GroupInverts(x: Byte, y: Byte, z: Byte)
    ensures Low(First(x), Second(x, y)) == x
    ensures Middle(Second(x, y), Third(y, z)) == y
    ensures High(Third(y, z), Fourth(z)) == z
  {
  }

  /** Each three bytes become four six-bit values; one or two left over become two or three. */
  function Sextets(b: seq<Byte>): (s: seq<Sextet>)
    ensures |s| == (4 * |b| + 2) / 3 && |s| % 4 != 1
  {
    if |b| == 0 then []
    else if |b| == 1 then [First(b[0]), Second(b[0], 0)]
    else if |b| == 2 then [First(b[0]), Second(b[0], b[1]), Third(b[1], 0)]
    else [First(b[0]), Second(b[0], b[1]), Third(b[1], b[2]), Fourth(b[2])] + Sextets(b[3..])
  }

  /** The whole bytes in a list of six-bit values; spare bits are dropped. */
  function Octets(s: seq<Sextet>): seq<Byte> {
    if |s| < 2 then []
    else if |s| == 2 then [Low(s[0], s[1])]
    else if |s| == 3 then [Low(s[0], s[1]), Middle(s[1], s[2])]
    else [Low(s[0], s[1]), Middle(s[1], s[2]), High(s[2], s[3])] + Octets(s[4..])
  }

  lemma OctetsFour(p: Sextet, q: Sextet, r: Sextet, s: Sextet, rest: seq<Sextet>)
    ensures Octets([p, q, r, s] + rest) == [Low(p, q), Middle(q, r), High(r, s)] + Octets(rest)
  {
    assert ([p, q, r, s] + rest)[4..] == rest;
  }

  lemma OctetsGroup(x: Byte, y: Byte, z: Byte, rest: seq<Sextet>)
    ensures Octets([First(x), Second(x, y), Third(y, z), Fourth(z)] + rest) == [x, y, z] + Octets(rest)
  {
    GroupInverts(x, y, z);
    OctetsFour(First(x), Second(x, y), Third(y, z), Fourth(z), rest);
  }

  lemma OctetsPair(p: Sextet, q: Sextet)
    ensures Octets([p, q]) == [Low(p, q)]
  {
  }

  lemma OctetsTriple(p: Sextet, q: Sextet, r: Sextet)
    ensures Octets([p, q, r]) == [Low(p, q), Middle(q, r)]
  {
  }

  lemma LowInverts(x: Byte, y: Byte)
    ensures Low(First(x), Second(x, y)) == x
  {
  }

  lemma OctetsOne(x: Byte, p: Sextet, q: Sextet)
    requires p == First(x) && q == Second(x, 0)
    ensures Octets([p, q]) == [x]
  {
    LowInverts(x, 0);
    OctetsPair(p, q);
  }

  lemma OctetsTwo(x: Byte, y: Byte, p: Sextet, q: Sextet, r: Sextet)
    requires p == First(x) && q == Second(x, y) && r == Third(y, 0)
    ensures Octets([p, q, r]) == [x, y]
  {
    GroupInverts(x, y, 0);
    OctetsTriple(p, q, r);
  }

  lemma {:induction false} OctetsOfSextets(b: seq<Byte>)
    ensures Octets(Sextets(b)) == b
  {
    if |b| == 1 {
      OctetsOne(b[0], First(b[0]), Second(b[0], 0));
    } else if |b| == 2 {
      OctetsTwo(b[0], b[1], First(b[0]), Second(b[0], b[1]), Third(b[1], 0));
    } else if |b| > 2 {
      OctetsOfSextets(b[3..]);
      OctetsGroup(b[0], b[1], b[2], Sextets(b[3..]));
      assert b == [b[0], b[1], b[2]] + b[3..];
    }
  }

  /** The bits of the last value that one or two bytes left over do not fill are zero. */
  lemma SpareBitsAreZero(x: Byte, y: Byte)
    ensures Sextets([x]) == [x / 4, x % 4 * 16]
    ensures Sextets([x, y]) == [x / 4, x % 4 * 16 + y / 16, y % 16 * 4]
  {
  }

  function StandardDigit(d: Sextet): char {
    if d < 26 then 'A' + d as char
    else if d < 52 then 'a' + (d - 26) as char
    else if d < 62 then '0' + (d - 52) as char
    else if d == 62 then '+' else '/'
  }

  function UrlDigit(d: Sextet): char {
    if d == 62 then '-' else if d == 63 then '_' else StandardDigit(d)
  }

  function StandardValue(c: char): Option<Sextet> {
    if 'A' <= c <= 'Z' then Some((c - 'A') as int)
    else if 'a' <= c <= 'z' then Some((c - 'a') as int + 26)
    else if '0' <= c <= '9' then Some((c - '0') as int + 52)
    else if c == '+' then Some(62) else if c == '/' then Some(63) else None
  }

  lemma DigitsInvert(d: Sextet)
    ensures StandardValue(StandardDigit(d)) == Some(d) && StandardDigit(d) != '='
    ensures Swap(Swap(StandardDigit(d), '+', '-'), '/', '_') == UrlDigit(d)
    ensures Swap(Swap(UrlDigit(d), '-', '+'), '_', '/') == StandardDigit(d)
    ensures IsUrlChar(UrlDigit(d))
  {
  }

  predicate IsUrlChar(c: char) {
    'A' <= c <= 'Z' || 'a' <= c <= 'z' || '0' <= c <= '9' || c == '_' || c == '-'
  }

  /** The alphabet by character codes: A to Z, a to z, 0 to 9, hyphen and underscore, and nothing else. */
  lemma UrlDigits(d: Sextet, c: char)
    ensures UrlDigit(d) as int == if d <= 25 then 65 + d else if d <= 51 then 71 + d else if d <= 61 then d - 4
                                  else if d == 62 then 45 else 95
    ensures IsUrlChar(c) <==>
              var code := c as int;
              code == 45 || 48 <= code <= 57 || 65 <= code <= 90 || code == 95 || 97 <= code <= 122
  {
  }

  function Swap(c: char, from: char, to: char): char {
    if c == from then to else c
  }

  function Replace(t: string, from: char, to: char): (r: string)
    ensures |r| == |t| && forall i :: 0 <= i < |t| ==> r[i] == Swap(t[i], from, to)
  {
    seq(|t|, i requires 0 <= i < |t| => Swap(t[i], from, to))
  }

  function Written(s: seq<Sextet>, digit: Sextet -> char): (t: string)
    ensures |t| == |s| && forall i :: 0 <= i < |s| ==> t[i] == digit(s[i])
  {
    seq(|s|, i requires 0 <= i < |s| => digit(s[i]))
  }

  function Padding(n: nat): string {
    if n % 3 == 1 then "==" else if n % 3 == 2 then "=" else ""
  }

  function StripPadding(t: string): string {
    if t != "" && t[|t| - 1] == '=' then StripPadding(t[..|t| - 1]) else t
  }

  /** A binary string's code units. */
  function Codes(binary: string): (b: seq<Byte>)
    requires forall i :: 0 <= i < |binary| ==> binary[i] as int < 256
    ensures |b| == |binary| && forall i :: 0 <= i < |b| ==> b[i] == binary[i] as int
  {
    seq(|binary|, i requires 0 <= i < |binary| => binary[i] as int)
  }

  /** The platform's padded base64 of a binary string. */
  function Btoa(binary: string): string
    requires forall i :: 0 <= i < |binary| ==> binary[i] as int < 256
  {
    Written(Sextets(Codes(binary)), StandardDigit) + Padding(|binary|)
  }

  predicate InAlphabet(t: string) {
    forall i :: 0 <= i < |t| ==> StandardValue(t[i]).Some?
  }

  function Values(t: string): (s: seq<Sextet>)
    requires InAlphabet(t)
    ensures |s| == |t| && forall i :: 0 <= i < |s| ==> s[i] == StandardValue(t[i]).value
  {
    seq(|t|, i requires 0 <= i < |t| => StandardValue(t[i]).value)
  }

  /** The platform's forgiving decoder: padding may be missing, and no character may be foreign. */
  function Atob(t: string): Option<seq<Byte>> {
    var u := if |t| % 4 != 0 then t
             else if |t| > 1 && t[|t| - 2..] == "==" then t[..|t| - 2]
             else if |t| > 0 && t[|t| - 1] == '=' then t[..|t| - 1] else t;
    if |u| % 4 == 1 || !InAlphabet(u) then None else Some(Octets(Values(u)))
  }

  /** The specification: the unpadded URL alphabet. */
  function Encoded(b: seq<Byte>): (t: string)
    ensures |t| == (4 * |b| + 2) / 3
  {
    Written(Sextets(b), UrlDigit)
  }

  function Decoded(t: string): Option<seq<Byte>> {
    Atob(Replace(Replace(t, '-', '+'), '_', '/'))
  }

  lemma StripOne(t: string)
    ensures StripPadding(t + "=") == StripPadding(t)
  {
  }

  lemma StripsPadding(t: string, n: nat)
    requires t == "" || t[|t| - 1] != '='
    ensures StripPadding(t + Padding(n)) == t
  {
    StripOne(t);
    StripOne(t + "=");
    assert t + "==" == (t + "=") + "=";
    assert t + "" == t;
  }

  function BinaryOf(bytes: seq<Byte>): (binary: string)
    ensures |binary| == |bytes| && forall i :: 0 <= i < |bytes| ==> binary[i] as int == bytes[i]
  {
    seq(|bytes|, i requires 0 <= i < |bytes| => bytes[i] as char)
  }

  /** The bytes are gathered into a binary string one by one, encoded, and made safe for a URL. */
  method ToBase64Url(bytes: seq<Byte>) returns (text: string)
    ensures text == Encoded(bytes)
  {
    var binary := "";
    for k := 0 to |bytes|
      invariant |binary| == k && binary == BinaryOf(bytes)[..k]
    {
      binary := binary + [bytes[k] as char];
    }
    assert Codes(BinaryOf(bytes)) == bytes && BinaryOf(bytes)[..|bytes|] == BinaryOf(bytes);
    assert Btoa(binary) == Written(Sextets(bytes), StandardDigit) + Padding(|bytes|);
    UrlForm(bytes);
    text := StripPadding(Replace(Replace(Btoa(binary), '+', '-'), '/', '_'));
  }

  lemma UrlAlphabet(s: seq<Sextet>)
    ensures Replace(Replace(Written(s, StandardDigit), '+', '-'), '/', '_') == Written(s, UrlDigit)
    ensures forall i :: 0 <= i < |s| ==> Written(s, UrlDigit)[i] != '='
  {
  }

  lemma PaddingIsKept(n: nat)
    ensures Replace(Replace(Padding(n), '+', '-'), '/', '_') == Padding(n)
  {
  }

  lemma UrlAppend(a: string, b: string)
    ensures Replace(Replace(a + b, '+', '-'), '/', '_')
         == Replace(Replace(a, '+', '-'), '/', '_') + Replace(Replace(b, '+', '-'), '/', '_')
  {
  }

  lemma UrlForm(bytes: seq<Byte>)
    ensures var padded := Written(Sextets(bytes), StandardDigit) + Padding(|bytes|);
            StripPadding(Replace(Replace(padded, '+', '-'), '/', '_')) == Encoded(bytes)
  {
    UrlAppend(Written(Sextets(bytes), StandardDigit), Padding(|bytes|));
    PaddingIsKept(|bytes|);
    UrlAlphabet(Sextets(bytes));
    StripsPadding(Encoded(bytes), |bytes|);
  }

  lemma UrlReadsBack(s: seq<Sextet>)
    ensures Replace(Replace(Written(s, UrlDigit), '-', '+'), '_', '/') == Written(s, StandardDigit)
    ensures forall i :: 0 <= i < |s| ==> IsUrlChar(Written(s, UrlDigit)[i])
  {
    forall i | 0 <= i < |s|
      ensures Swap(Swap(UrlDigit(s[i]), '-', '+'), '_', '/') == StandardDigit(s[i]) && IsUrlChar(UrlDigit(s[i]))
    {
      DigitsInvert(s[i]);
    }
  }

  lemma AtobReads(s: seq<Sextet>)
    requires |s| % 4 != 1
    ensures Atob(Written(s, StandardDigit)) == Some(Octets(s))
  {
    var t := Written(s, StandardDigit);
    forall i | 0 <= i < |s| ensures StandardValue(t[i]) == Some(s[i]) && t[i] != '=' {
      DigitsInvert(s[i]);
    }
    assert |t| > 1 ==> t[|t| - 2..][1] != '=';
    assert Values(t) == s;
  }

  /** The platform's decoder also inverts its padded encoder. */
  lemma AtobInvertsBtoa(bytes: seq<Byte>)
    ensures Atob(Btoa(BinaryOf(bytes))) == Some(bytes)
  {
    var s := Sextets(bytes);
    var t := Written(s, StandardDigit);
    assert Codes(BinaryOf(bytes)) == bytes;
    forall i | 0 <= i < |s| ensures StandardValue(t[i]) == Some(s[i]) && t[i] != '=' {
      DigitsInvert(s[i]);
    }
    PaddedStrips(t, |bytes|);
    AtobReads(s);
    OctetsOfSextets(bytes);
  }

  /** Padding fills the text up to a multiple of four characters, and reading drops it. */
  lemma PaddedStrips(t: string, n: nat)
    requires |t| == (4 * n + 2) / 3 && forall i :: 0 <= i < |t| ==> t[i] != '='
    ensures |t + Padding(n)| % 4 == 0 && Atob(t + Padding(n)) == Atob(t)
  {
    var u := t + Padding(n);
    if n % 3 == 0 {
      assert u == t;
    } else if n % 3 == 1 {
      assert u[|u| - 2..] == "==" && u[..|u| - 2] == t;
    } else {
      assert u[|u| - 2..][0] != '=' && u[..|u| - 1] == t;
    }
  }

  /** Decoding inverts encoding on every byte string. */
  lemma DecodeInvertsEncode(bytes: seq<Byte>)
    ensures Decoded(Encoded(bytes)) == Some(bytes)
    ensures forall i :: 0 <= i < |Encoded(bytes)| ==> IsUrlChar(Encoded(bytes)[i])
  {
    UrlReadsBack(Sextets(bytes));
    AtobReads(Sextets(bytes));
    OctetsOfSextets(bytes);
  }
}

/** Validation and normalization of untrusted basket data. */
module ConceptBasket {
  import opened Results
  import opened WordText

  /** A parsed or missing JavaScript value; `NotFinite` stands for NaN and the infinities. */
  datatype Json =
    | Undefined | Null | Bool(b: bool) | NotFinite | Num(value: real) | Str(text: string)
    | Arr(items: seq<Json>) | Obj(fields: map<string, Json>)

  datatype Asset = Asset(symbol: string, weightBps: int, mint: Option<string>)
  datatype Fees = Fees(entryBps: int, exitBps: int, managementBps: int)
  datatype Basket = Basket(name: string, thesis: string, coverId: string, assets: seq<Asset>, amountUsd: real,
                           fees: Fees)

  datatype Problem =
    | Malformed | BadVersion | BadName | BadThesis | BadAmount | BadCover | BadCount | BadAsset | BadSymbol
    | BadMint | Conflict | RepeatedMint | RepeatedSymbol | BadWeight | BadTotal | BadFee(key: string)

  /** The asset catalogue, mint syntax and cover gallery. */
  datatype Registry = Registry(
    isCover: string -> bool, legacyCover: (string, seq<string>) -> string,
    isListed: string -> bool, isMint: string -> bool, conflicts: (string, string) -> bool)

  const MAX_NAME := 60
  const MAX_THESIS := 240
  const MAX_AMOUNT := 1_000_000.0
  const FULL_WEIGHT := 10_000
  const FEE_CAPS: seq<(string, int)> := [("entryBps", 300), ("exitBps", 100), ("managementBps", 300)]

  function Get(v: Json, key: string): Json {
    if v.Obj? && key in v.fields then v.fields[key] else Undefined
  }

  predicate WholeWithin(v: Json, low: int, high: int) {
    v.Num? && v.value == v.value.Floor as real && low <= v.value.Floor <= high
  }

  function Whole(v: Json): int {
    if v.Num? then v.value.Floor else 0
  }

  function TextOf(v: Json): string {
    if v.Str? then v.text else ""
  }

  predicate SymbolChar(c: char) {
    'A' <= c <= 'Z' || '0' <= c <= '9'
  }

  /** A capital letter or digit, then at most 24 of those, dots, colons and hyphens. */
  predicate SymbolText(t: string) {
    && 1 <= |t| <= 25 && SymbolChar(t[0])
    && forall i :: 1 <= i < |t| ==> SymbolChar(t[i]) || t[i] == '.' || t[i] == ':' || t[i] == '-'
  }

  predicate MintText(r: Registry, v: Json) {
    v.Str? && r.isMint(v.text)
  }

  predicate NamesAsset(r: Registry, row: Json) {
    var symbol := Get(row, "symbol");
    symbol.Str? && SymbolText(symbol.text) && (r.isListed(symbol.text) || MintText(r, Get(row, "mint")))
  }

  predicate HasMint(row: Json) {
    !Get(row, "mint").Undefined?
  }

  function SymbolOf(row: Json): string {
    TextOf(Get(row, "symbol"))
  }

  function MintOf(row: Json): string {
    TextOf(Get(row, "mint"))
  }

  /** One row on its own is acceptable. */
  predicate RowOk(r: Registry, row: Json) {
    && row.Obj? && NamesAsset(r, row)
    && (HasMint(row) ==> MintText(r, Get(row, "mint")) && !r.conflicts(SymbolOf(row), MintOf(row)))
    && WholeWithin(Get(row, "weightBps"), 1, FULL_WEIGHT)
  }

  function Total(rows: seq<Json>): int {
    if rows == [] then 0 else Total(rows[..|rows| - 1]) + Whole(Get(rows[|rows| - 1], "weightBps"))
  }

  /** Every row is acceptable and no symbol or mint appears twice. */
  predicate RowsOk(r: Registry, rows: seq<Json>) {
    && (forall i :: 0 <= i < |rows| ==> RowOk(r, rows[i]))
    && (forall i, j :: 0 <= i < j < |rows| ==> SymbolOf(rows[i]) != SymbolOf(rows[j]))
    && (forall i, j :: 0 <= i < j < |rows| && HasMint(rows[i]) && HasMint(rows[j]) ==>
        MintOf(rows[i]) != MintOf(rows[j]))
  }

  function Rows(input: Json): seq<Json> {
    if Get(input, "assets").Arr? then Get(input, "assets").items else []
  }

  predicate NameOk(v: Json) {
    v.Str? && Trim(v.text) != "" && |v.text| <= MAX_NAME
  }

  predicate ThesisOk(v: Json) {
    v.Str? && |v.text| <= MAX_THESIS
  }

  predicate AmountOk(v: Json) {
    v.Num? && 0.0 < v.value <= MAX_AMOUNT
  }

  predicate CoverOk(r: Registry, v: Json) {
    v.Undefined? || (v.Str? && r.isCover(v.text))
  }

  predicate TopOk(r: Registry, input: Json) {
    && Get(input, "v") == Num(1.0) && NameOk(Get(input, "name")) && ThesisOk(Get(input, "thesis"))
    && AmountOk(Get(input, "amountUsd")) && CoverOk(r, Get(input, "coverId")) && 2 <= |Rows(input)| <= 20
  }

  function FeeRecord(input: Json): Json {
    if Get(input, "fees").Obj? then Get(input, "fees") else Obj(map[])
  }

  predicate FeeOk(input: Json, k: nat)
    requires k < |FEE_CAPS|
  {
    WholeWithin(Get(FeeRecord(input), FEE_CAPS[k].0), 0, FEE_CAPS[k].1)
  }

  /** What the validator accepts, stated without its loops. */
  predicate ValidBasket(r: Registry, input: Json) {
    && input.Obj? && TopOk(r, input) && RowsOk(r, Rows(input)) && Total(Rows(input)) == FULL_WEIGHT
    && forall k :: 0 <= k < |FEE_CAPS| ==> FeeOk(input, k)
  }

  function AssetOf(row: Json): Asset {
    Asset(SymbolOf(row), Whole(Get(row, "weightBps")),
          if Get(row, "mint").Str? then Some(Get(row, "mint").text) else None)
  }

  function AssetsOf(rows: seq<Json>): (assets: seq<Asset>)
    ensures |assets| == |rows| && forall i :: 0 <= i < |rows| ==> assets[i] == AssetOf(rows[i])
  {
    seq(|rows|, i requires 0 <= i < |rows| => AssetOf(rows[i]))
  }

  function Symbols(rows: seq<Json>): (symbols: seq<string>)
    ensures |symbols| == |rows| && forall i :: 0 <= i < |rows| ==> symbols[i] == SymbolOf(rows[i])
  {
    seq(|rows|, i requires 0 <= i < |rows| => SymbolOf(rows[i]))
  }

  function FeesOf(input: Json): Fees {
    var fees := FeeRecord(input);
    Fees(Whole(Get(fees, "entryBps")), Whole(Get(fees, "exitBps")), Whole(Get(fees, "managementBps")))
  }

  function CoverOf(r: Registry, input: Json): string {
    var cover := Get(input, "coverId");
    if cover.Str? && r.isCover(cover.text) then cover.text
    else r.legacyCover(TextOf(Get(input, "name")), Symbols(Rows(input)))
  }

  /** The normal form of an accepted basket. */
  function Normalized(r: Registry, input: Json): Basket {
    var amount := Get(input, "amountUsd");
    Basket(Trim(TextOf(Get(input, "name"))), Trim(TextOf(Get(input, "thesis"))), CoverOf(r, input),
           AssetsOf(Rows(input)), if amount.Num? then amount.value else 0.0, FeesOf(input))
  }

  // ---- the validator's loops ----

  /** A row that reaches the checks of its mint, its symbol and its weight. */
  predicate Named(r: Registry, row: Json) {
    row.Obj? && NamesAsset(r, row)
  }

  predicate Minted(r: Registry, row: Json) {
    Named(r, row) && HasMint(row) && MintText(r, Get(row, "mint"))
  }

  predicate Weighed(r: Registry, row: Json) {
    Named(r, row) && WholeWithin(Get(row, "weightBps"), 1, FULL_WEIGHT)
  }

  function SymbolsBefore(r: Registry, rows: seq<Json>, k: nat): set<string>
    requires k <= |rows|
  {
    set i | 0 <= i < k && Named(r, rows[i]) :: SymbolOf(rows[i])
  }

  function MintsBefore(r: Registry, rows: seq<Json>, k: nat): set<string>
    requires k <= |rows|
  {
    set i | 0 <= i < k && Minted(r, rows[i]) :: MintOf(rows[i])
  }

  /** The weights of the rows before k whose weight is accepted. */
  function WeightBefore(r: Registry, rows: seq<Json>, k: nat): int
    requires k <= |rows|
  {
    if k == 0 then 0
    else WeightBefore(r, rows, k - 1) + (if Weighed(r, rows[k - 1]) then Whole(Get(rows[k - 1], "weightBps")) else 0)
  }

  /** What is wrong with one row, after rows with the given symbols and mints. */
  predicate RowFault(r: Registry, row: Json, symbols: set<string>, mints: set<string>, e: Problem) {
    match e
    case BadAsset => !row.Obj?
    case BadSymbol => row.Obj? && !NamesAsset(r, row)
    case BadMint => Named(r, row) && HasMint(row) && !MintText(r, Get(row, "mint"))
    case Conflict => Minted(r, row) && r.conflicts(SymbolOf(row), MintOf(row))
    case RepeatedMint => Minted(r, row) && MintOf(row) in mints
    case RepeatedSymbol => Named(r, row) && SymbolOf(row) in symbols
    case BadWeight => Named(r, row) && !Weighed(r, row)
    case _ => false
  }

  predicate FaultAt(r: Registry, rows: seq<Json>, k: nat, e: Problem)
    requires k < |rows|
  {
    RowFault(r, rows[k], SymbolsBefore(r, rows, k), MintsBefore(r, rows, k), e)
  }

  /** What is wrong with a list of rows. */
  predicate RowsFault(r: Registry, rows: seq<Json>, e: Problem) {
    if e == BadTotal then WeightBefore(r, rows, |rows|) != FULL_WEIGHT
    else exists k :: 0 <= k < |rows| && FaultAt(r, rows, k, e)
  }

  /** The errors, with one more when it is found. */
  function Noted(errors: seq<Problem>, found: bool, problem: Problem): (noted: seq<Problem>)
    ensures forall e :: e in noted <==> e in errors || (found && e == problem)
    ensures noted == [] <==> errors == [] && !found
  {
    if found then errors + [problem] else errors
  }

  /** The checks of the mint of a row that has one. */
  method CheckMint(r: Registry, row: Json, seenMints: set<string>) returns (errors: seq<Problem>, mints: set<string>)
    requires HasMint(row)
    ensures forall e :: e in errors <==>
              if MintText(r, Get(row, "mint"))
              then (e == Conflict && r.conflicts(SymbolOf(row), MintOf(row)))
                   || (e == RepeatedMint && MintOf(row) in seenMints)
              else e == BadMint
    ensures mints == seenMints + (if MintText(r, Get(row, "mint")) then {MintOf(row)} else {})
  {
    if !MintText(r, Get(row, "mint")) { return [BadMint], seenMints; }
    errors := Noted([], r.conflicts(SymbolOf(row), MintOf(row)), Conflict);
    errors := Noted(errors, MintOf(row) in seenMints, RepeatedMint);
    mints := seenMints + {MintOf(row)};
  }

  /** One turn of the asset loop. */
  method CheckRow(r: Registry, row: Json, seenSymbols: set<string>, seenMints: set<string>, weightSoFar: int)
    returns (errors: seq<Problem>, symbols: set<string>, mints: set<string>, totalWeight: int)
    ensures forall e :: e in errors <==> RowFault(r, row, seenSymbols, seenMints, e)
    ensures symbols == seenSymbols + (if Named(r, row) then {SymbolOf(row)} else {})
    ensures mints == seenMints + (if Minted(r, row) then {MintOf(row)} else {})
    ensures totalWeight == weightSoFar + (if Weighed(r, row) then Whole(Get(row, "weightBps")) else 0)
  {
    errors, symbols, mints, totalWeight := [], seenSymbols, seenMints, weightSoFar;
    if !row.Obj? { return [BadAsset], symbols, mints, totalWeight; }
    if !NamesAsset(r, row) { return [BadSymbol], symbols, mints, totalWeight; }
    if HasMint(row) { errors, mints := CheckMint(r, row, seenMints); }
    errors := Noted(errors, SymbolOf(row) in seenSymbols, RepeatedSymbol);
    symbols := symbols + {SymbolOf(row)};
    if WholeWithin(Get(row, "weightBps"), 1, FULL_WEIGHT) { totalWeight := totalWeight + Whole(Get(row, "weightBps")); }
    errors := Noted(errors, !WholeWithin(Get(row, "weightBps"), 1, FULL_WEIGHT), BadWeight);
  }

  lemma {:induction false} WeightIsTotal(r: Registry, rows: seq<Json>, k: nat)
    requires k <= |rows| && forall i :: 0 <= i < k ==> Weighed(r, rows[i])
    ensures WeightBefore(r, rows, k) == Total(rows[..k])
  {
    if k > 0 {
      WeightIsTotal(r, rows, k - 1);
      assert rows[..k][..k - 1] == rows[..k - 1];
    }
  }

  lemma FaultlessRow(r: Registry, rows: seq<Json>, k: nat)
    requires k < |rows| && forall e :: !FaultAt(r, rows, k, e)
    ensures RowOk(r, rows[k]) && Weighed(r, rows[k]) && SymbolOf(rows[k]) !in SymbolsBefore(r, rows, k)
    ensures HasMint(rows[k]) ==> Minted(r, rows[k]) && MintOf(rows[k]) !in MintsBefore(r, rows, k)
  {
    assert !FaultAt(r, rows, k, BadAsset) && !FaultAt(r, rows, k, BadSymbol) && !FaultAt(r, rows, k, BadMint);
    assert !FaultAt(r, rows, k, Conflict) && !FaultAt(r, rows, k, BadWeight);
    assert !FaultAt(r, rows, k, RepeatedSymbol) && !FaultAt(r, rows, k, RepeatedMint);
  }

  /** Without a fault every row is acceptable, and no symbol or mint appears twice. */
  lemma FaultlessRows(r: Registry, rows: seq<Json>)
    requires forall e :: !RowsFault(r, rows, e)
    ensures RowsOk(r, rows) && Total(rows) == FULL_WEIGHT
  {
    forall k | 0 <= k < |rows|
      ensures RowOk(r, rows[k]) && Weighed(r, rows[k]) && SymbolOf(rows[k]) !in SymbolsBefore(r, rows, k)
      ensures HasMint(rows[k]) ==> Minted(r, rows[k]) && MintOf(rows[k]) !in MintsBefore(r, rows, k)
    {
      forall e ensures !FaultAt(r, rows, k, e) {
        assert !RowsFault(r, rows, e);
      }
      FaultlessRow(r, rows, k);
    }
    DistinctRows(r, rows);
    assert !RowsFault(r, rows, BadTotal);
    WeightIsTotal(r, rows, |rows|);
    assert rows[..|rows|] == rows;
  }

  lemma DistinctRows(r: Registry, rows: seq<Json>)
    requires forall k :: 0 <= k < |rows| ==> Named(r, rows[k]) && SymbolOf(rows[k]) !in SymbolsBefore(r, rows, k)
    requires forall k :: 0 <= k < |rows| && HasMint(rows[k]) ==>
              Minted(r, rows[k]) && MintOf(rows[k]) !in MintsBefore(r, rows, k)
    ensures forall i, j :: 0 <= i < j < |rows| ==> SymbolOf(rows[i]) != SymbolOf(rows[j])
    ensures forall i, j :: 0 <= i < j < |rows| && HasMint(rows[i]) && HasMint(rows[j]) ==>
              MintOf(rows[i]) != MintOf(rows[j])
  {
    forall i, j | 0 <= i < j < |rows|
      ensures SymbolOf(rows[i]) != SymbolOf(rows[j])
      ensures HasMint(rows[i]) && HasMint(rows[j]) ==> MintOf(rows[i]) != MintOf(rows[j])
    {
      assert SymbolOf(rows[i]) in SymbolsBefore(r, rows, j);
      assert HasMint(rows[i]) ==> MintOf(rows[i]) in MintsBefore(r, rows, j);
    }
  }

  lemma OkRowIsFaultless(r: Registry, rows: seq<Json>, k: nat, e: Problem)
    requires RowsOk(r, rows) && k < |rows|
    ensures !FaultAt(r, rows, k, e)
  {
    assert RowOk(r, rows[k]);
    assert SymbolOf(rows[k]) !in SymbolsBefore(r, rows, k);
    assert HasMint(rows[k]) ==> MintOf(rows[k]) !in MintsBefore(r, rows, k);
  }

  lemma OkRowsAreFaultless(r: Registry, rows: seq<Json>, e: Problem)
    requires RowsOk(r, rows) && Total(rows) == FULL_WEIGHT
    ensures !RowsFault(r, rows, e)
  {
    forall k | 0 <= k < |rows| ensures Weighed(r, rows[k]) && !FaultAt(r, rows, k, e) {
      assert RowOk(r, rows[k]);
      OkRowIsFaultless(r, rows, k, e);
    }
    WeightIsTotal(r, rows, |rows|);
    assert rows[..|rows|] == rows;
  }

  /** The problem of each top-level field that is wrong. */
  predicate TopProblem(version: bool, name: bool, thesis: bool, amount: bool, cover: bool, count: bool, e: Problem) {
    match e
    case BadVersion => version
    case BadName => name
    case BadThesis => thesis
    case BadAmount => amount
    case BadCover => cover
    case BadCount => count
    case _ => false
  }

  predicate TopFault(r: Registry, input: Json, e: Problem) {
    TopProblem(Get(input, "v") != Num(1.0), !NameOk(Get(input, "name")), !ThesisOk(Get(input, "thesis")),
               !AmountOk(Get(input, "amountUsd")), !CoverOk(r, Get(input, "coverId")), !(2 <= |Rows(input)| <= 20), e)
  }

  method ListTop(version: bool, name: bool, thesis: bool, amount: bool, cover: bool, count: bool)
    returns (errors: seq<Problem>)
    ensures errors == [] <==> !version && !name && !thesis && !amount && !cover && !count
    ensures forall e :: e in errors <==> TopProblem(version, name, thesis, amount, cover, count, e)
  {
    errors := Noted([], version, BadVersion);
    errors := Noted(errors, name, BadName);
    errors := Noted(errors, thesis, BadThesis);
    errors := Noted(errors, amount, BadAmount);
    errors := Noted(errors, cover, BadCover);
    errors := Noted(errors, count, BadCount);
  }

  method CheckTop(r: Registry, input: Json) returns (errors: seq<Problem>)
    ensures errors == [] <==> TopOk(r, input)
    ensures forall e :: e in errors <==> TopFault(r, input, e)
  {
    errors := ListTop(Get(input, "v") != Num(1.0), !NameOk(Get(input, "name")), !ThesisOk(Get(input, "thesis")),
                      !AmountOk(Get(input, "amountUsd")), !CoverOk(r, Get(input, "coverId")),
                      !(2 <= |Rows(input)| <= 20));
  }

  method CheckRows(r: Registry, rows: seq<Json>) returns (errors: seq<Problem>)
    ensures forall e :: e in errors <==> RowsFault(r, rows, e)
    ensures errors == [] <==> RowsOk(r, rows) && Total(rows) == FULL_WEIGHT
  {
    var symbols: set<string>, mints: set<string>, totalWeight := {}, {}, 0;
    errors := [];
    for k := 0 to |rows|
      invariant forall e :: e in errors <==> exists i :: 0 <= i < k && FaultAt(r, rows, i, e)
      invariant symbols == SymbolsBefore(r, rows, k) && mints == MintsBefore(r, rows, k)
      invariant totalWeight == WeightBefore(r, rows, k)
    {
      var found: seq<Problem>;
      found, symbols, mints, totalWeight := CheckRow(r, rows[k], symbols, mints, totalWeight);
      assert forall e :: e in found <==> FaultAt(r, rows, k, e);
      errors := errors + found;
    }
    assert BadTotal !in errors;
    if totalWeight != FULL_WEIGHT { errors := errors + [BadTotal]; }
    assert forall e :: e in errors <==> RowsFault(r, rows, e);
    if errors == [] { FaultlessRows(r, rows); }
    if errors != [] {
      var e := errors[0];
      assert RowsFault(r, rows, e);
      if RowsOk(r, rows) && Total(rows) == FULL_WEIGHT { OkRowsAreFaultless(r, rows, e); }
    }
  }

  predicate FeeFault(input: Json, e: Problem) {
    exists k :: 0 <= k < |FEE_CAPS| && e == BadFee(FEE_CAPS[k].0) && !FeeOk(input, k)
  }

  method CheckFees(input: Json) returns (errors: seq<Problem>)
    ensures forall e :: e in errors <==> FeeFault(input, e)
    ensures errors == [] <==> forall k :: 0 <= k < |FEE_CAPS| ==> FeeOk(input, k)
  {
    errors := [];
    for k := 0 to |FEE_CAPS|
      invariant forall e :: e in errors <==> exists j :: 0 <= j < k && e == BadFee(FEE_CAPS[j].0) && !FeeOk(input, j)
      invariant errors == [] <==> forall j :: 0 <= j < k ==> FeeOk(input, j)
    {
      if !FeeOk(input, k) { errors := errors + [BadFee(FEE_CAPS[k].0)]; }
    }
  }

  /** Each problem once, in order of first appearance. */
  function Distinct(errors: seq<Problem>): (once: seq<Problem>)
    ensures (forall e :: e in once <==> e in errors) && (once == [] <==> errors == [])
    ensures forall i, j :: 0 <= i < j < |once| ==> once[i] != once[j]
  {
    if errors == [] then []
    else
      var last := errors[|errors| - 1];
      var before := Distinct(errors[..|errors| - 1]);
      assert errors == errors[..|errors| - 1] + [last];
      if last in before then before else before + [last]
  }

  /** Every problem of an input, whatever other problems it has. */
  predicate Fault(r: Registry, input: Json, e: Problem) {
    if !input.Obj? then e == Malformed
    else TopFault(r, input, e) || RowsFault(r, Rows(input), e) || FeeFault(input, e)
  }

  method ValidateConceptBasket(r: Registry, input: Json) returns (result: Result<Basket, seq<Problem>>)
    ensures result.Ok? <==> ValidBasket(r, input)
    ensures result.Ok? ==> result.value == Normalized(r, input)
    ensures result.Err? ==> forall e :: e in result.error <==> Fault(r, input, e)
    ensures result.Err? ==>
              result.error != [] && forall i, j :: 0 <= i < j < |result.error| ==> result.error[i] != result.error[j]
  {
    if !input.Obj? { return Err([Malformed]); }
    var top := CheckTop(r, input);
    var rows := CheckRows(r, Rows(input));
    var fees := CheckFees(input);
    var errors := top + rows + fees;
    if errors != [] { return Err(Distinct(errors)); }
    return Ok(Normalized(r, input));
  }

  // ---- normal forms are fixed points ----

  function AsRow(asset: Asset): Json {
    var plain := map["symbol" := Str(asset.symbol), "weightBps" := Num(asset.weightBps as real)];
    Obj(if asset.mint.Some? then plain["mint" := Str(asset.mint.value)] else plain)
  }

  function AsRows(assets: seq<Asset>): (rows: seq<Json>)
    ensures |rows| == |assets| && forall i :: 0 <= i < |rows| ==> rows[i] == AsRow(assets[i])
  {
    seq(|assets|, i requires 0 <= i < |assets| => AsRow(assets[i]))
  }

  function AsFees(fees: Fees): Json {
    Obj(map["entryBps" := Num(fees.entryBps as real), "exitBps" := Num(fees.exitBps as real),
            "managementBps" := Num(fees.managementBps as real)])
  }

  /** A basket as the plain object other code passes around. */
  function AsInput(b: Basket): Json {
    Obj(map["v" := Num(1.0), "name" := Str(b.name), "amountUsd" := Num(b.amountUsd), "assets" := Arr(AsRows(b.assets)),
            "thesis" := Str(b.thesis), "coverId" := Str(b.coverId), "fees" := AsFees(b.fees)])
  }

  lemma {:induction false} TrimEndStops(t: string)
    ensures TrimEnd(TrimEnd(t)) == TrimEnd(t) && |TrimEnd(t)| <= |t|
    ensures TrimEnd(t) != "" ==> TrimEnd(t)[0] == t[0]
  {
    if t != "" && IsSpace(t[|t| - 1]) { TrimEndStops(t[..|t| - 1]); }
  }

  lemma {:induction false} TrimStartStops(t: string)
    ensures |TrimStart(t)| <= |t| && (TrimStart(t) != "" ==> !IsSpace(TrimStart(t)[0]))
  {
    if t != "" && IsSpace(t[0]) { TrimStartStops(t[1..]); }
  }

  lemma TrimIsIdempotent(t: string)
    ensures Trim(Trim(t)) == Trim(t) && |Trim(t)| <= |t|
  {
    TrimStartStops(t);
    TrimEndStops(TrimStart(t));
  }

  lemma RowNormalizes(r: Registry, row: Json)
    requires RowOk(r, row)
    ensures RowOk(r, AsRow(AssetOf(row))) && AssetOf(AsRow(AssetOf(row))) == AssetOf(row)
    ensures SymbolOf(AsRow(AssetOf(row))) == SymbolOf(row)
    ensures HasMint(AsRow(AssetOf(row))) <==> HasMint(row)
    ensures MintOf(AsRow(AssetOf(row))) == MintOf(row)
    ensures Whole(Get(AsRow(AssetOf(row)), "weightBps")) == Whole(Get(row, "weightBps"))
  {
  }

  lemma {:induction false} TotalNormalizes(r: Registry, rows: seq<Json>)
    requires forall i :: 0 <= i < |rows| ==> RowOk(r, rows[i])
    ensures Total(AsRows(AssetsOf(rows))) == Total(rows)
  {
    if rows != [] {
      var n := |rows| - 1;
      TotalNormalizes(r, rows[..n]);
      RowNormalizes(r, rows[n]);
      assert AsRows(AssetsOf(rows))[..n] == AsRows(AssetsOf(rows[..n]));
    }
  }

  lemma RowsNormalize(r: Registry, rows: seq<Json>)
    requires RowsOk(r, rows)
    ensures RowsOk(r, AsRows(AssetsOf(rows))) && AssetsOf(AsRows(AssetsOf(rows))) == AssetsOf(rows)
    ensures Total(AsRows(AssetsOf(rows))) == Total(rows)
  {
    var normal := AsRows(AssetsOf(rows));
    forall i | 0 <= i < |rows|
      ensures RowOk(r, normal[i]) && SymbolOf(normal[i]) == SymbolOf(rows[i]) && MintOf(normal[i]) == MintOf(rows[i])
      ensures (HasMint(normal[i]) <==> HasMint(rows[i])) && AssetOf(normal[i]) == AssetsOf(rows)[i]
    {
      RowNormalizes(r, rows[i]);
    }
    TotalNormalizes(r, rows);
  }

  /** The legacy resolver always answers with a cover of the gallery. */
  ghost predicate CoversResolve(r: Registry) {
    forall name, symbols :: r.isCover(r.legacyCover(name, symbols))
  }

  lemma InputFields(b: Basket)
    ensures var input := AsInput(b);
            && input.Obj? && Get(input, "v") == Num(1.0) && Get(input, "name") == Str(b.name)
            && Get(input, "thesis") == Str(b.thesis)
            && Get(input, "amountUsd") == Num(b.amountUsd) && Get(input, "coverId") == Str(b.coverId)
            && Rows(input) == AsRows(b.assets) && Get(input, "fees") == AsFees(b.fees)
  {
  }

  lemma CoverNormalizes(r: Registry, input: Json, b: Basket)
    requires CoversResolve(r) && b.coverId == CoverOf(r, input)
    ensures CoverOk(r, Get(AsInput(b), "coverId")) && CoverOf(r, AsInput(b)) == b.coverId
  {
  }

  lemma TopNormalizes(r: Registry, input: Json)
    requires TopOk(r, input) && CoversResolve(r)
    ensures TopOk(r, AsInput(Normalized(r, input)))
  {
    var b := Normalized(r, input);
    InputFields(b);
    CoverNormalizes(r, input, b);
    TrimIsIdempotent(TextOf(Get(input, "name")));
    TrimIsIdempotent(TextOf(Get(input, "thesis")));
  }

  /** A normal form is valid and normalizes to itself. */
  lemma NormalFormIsFixed(r: Registry, input: Json)
    requires ValidBasket(r, input) && CoversResolve(r)
    ensures ValidBasket(r, AsInput(Normalized(r, input)))
    ensures Normalized(r, AsInput(Normalized(r, input))) == Normalized(r, input)
  {
    var b := Normalized(r, input);
    TopNormalizes(r, input);
    InputFields(b);
    CoverNormalizes(r, input, b);
    RowsNormalize(r, Rows(input));
    FeesNormalize(input, AsInput(b));
    TrimIsIdempotent(TextOf(Get(input, "name")));
    TrimIsIdempotent(TextOf(Get(input, "thesis")));
  }

  lemma FeesNormalize(input: Json, normal: Json)
    requires forall k :: 0 <= k < |FEE_CAPS| ==> FeeOk(input, k)
    requires Get(normal, "fees") == AsFees(FeesOf(input))
    ensures forall k :: 0 <= k < |FEE_CAPS| ==> FeeOk(normal, k)
    ensures FeesOf(normal) == FeesOf(input)
  {
    assert FeeOk(input, 0) && FeeOk(input, 1) && FeeOk(input, 2);
  }
}

/** Self-contained share links: a compact versioned payload, written as JSON, UTF-8 and base64url. */
module ShareLink {
  import opened Results
  import opened Base64Url
  import opened ConceptBasket

  const MAX_ENCODED := 4096
  const MAX_DECODED := 3_072

  /** The platform's numbers, and its JSON and UTF-8 functions. */
  datatype Platform = Platform(
    isNumber: real -> bool, stringify: Json -> string, parse: string -> Option<Json>,
    utf8: string -> seq<Byte>, utf8Decode: seq<Byte> -> Option<string>)

  datatype Refusal = Rejected(problems: seq<Problem>) | TooLarge

  /** Every number within the value is one of the platform's. */
  predicate Native(isNumber: real -> bool, v: Json) {
    match v
    case Num(x) => isNumber(x)
    case Arr(items) => forall i :: 0 <= i < |items| ==> Native(isNumber, items[i])
    case Obj(fields) => forall key :: key in fields ==> Native(isNumber, fields[key])
    case _ => true
  }

  /** Values without records that JSON represents exactly. */
  predicate Exact(isNumber: real -> bool, v: Json) {
    match v
    case Null => true
    case Bool(_) => true
    case Num(x) => isNumber(x)
    case Str(_) => true
    case Arr(items) => forall i :: 0 <= i < |items| ==> Exact(isNumber, items[i])
    case _ => false
  }

  /** No character takes less than a byte. */
  ghost predicate NoShorter(p: Platform) {
    forall t :: |t| <= |p.utf8(t)|
  }

  predicate Bps(n: int) {
    0 <= n <= FULL_WEIGHT
  }

  /** The whole numbers a basket uses are numbers of the platform, and parsing gives no others than those. */
  ghost predicate Numeric(p: Platform) {
    && (forall n :: Bps(n) ==> p.isNumber(n as real))
    && forall t :: p.parse(t).Some? ==> Native(p.isNumber, p.parse(t).value)
  }

  /** Parsing inverts printing and decoding inverts encoding, and no value prints as nothing. */
  ghost predicate Faithful(p: Platform) {
    && (forall v :: Exact(p.isNumber, v) ==> p.parse(p.stringify(v)) == Some(v))
    && (forall v :: Exact(p.isNumber, v) ==> p.utf8Decode(p.utf8(p.stringify(v))) == Some(p.stringify(v)))
    && Numeric(p) && NoShorter(p) && p.parse("").None?
  }

  // ---- the compact payload ----

  function FlatAsset(asset: Asset): seq<Json> {
    [Str(asset.symbol), Num(asset.weightBps as real), if asset.mint.Some? then Str(asset.mint.value) else Null]
  }

  function Flat(assets: seq<Asset>): (flat: seq<Json>)
    ensures |flat| == 3 * |assets|
  {
    if assets == [] then [] else FlatAsset(assets[0]) + Flat(assets[1..])
  }

  function FlatFees(fees: Fees): Json {
    Arr([Num(fees.entryBps as real), Num(fees.exitBps as real), Num(fees.managementBps as real)])
  }

  function Compact(b: Basket): Json
  {
    Arr([Num(4.0), Str(b.name), Num(b.amountUsd), Arr(Flat(b.assets)), Str(b.thesis), FlatFees(b.fees), Str(b.coverId)])
  }

  function RowOf(symbol: Json, weight: Json, mint: Json): Json {
    var plain := map["symbol" := symbol, "weightBps" := weight];
    Obj(if mint.Null? || mint.Undefined? then plain else plain["mint" := mint])
  }

  /** Rows of three values in links of version 3 and later, of two before. */
  function RowsOf(flat: seq<Json>, withMint: bool): seq<Json> {
    if withMint then if |flat| < 3 then [] else [RowOf(flat[0], flat[1], flat[2])] + RowsOf(flat[3..], true)
    else if |flat| < 2 then [] else [RowOf(flat[0], flat[1], Undefined)] + RowsOf(flat[2..], false)
  }

  function FeesFrom(v: Json): Json
    requires v.Arr? && |v.items| == 3
  {
    Obj(map["entryBps" := v.items[0], "exitBps" := v.items[1], "managementBps" := v.items[2]])
  }

  const NO_FEES := Obj(map["entryBps" := Num(0.0), "exitBps" := Num(0.0), "managementBps" := Num(0.0)])

  predicate CompactShape(version: int, payload: Json) {
    && payload.Arr? && 4 <= |payload.items| <= 7 && (version == 4 <==> |payload.items| == 7)
    && payload.items[0] == Num(version as real) && payload.items[3].Arr?
    && |payload.items[3].items| % (if version >= 3 then 3 else 2) == 0
    && (|payload.items| >= 5 ==> payload.items[4].Str?)
    && (|payload.items| >= 6 ==> payload.items[5].Arr? && |payload.items[5].items| == 3)
    && (version == 4 ==> payload.items[6].Str?)
  }

  /** The plain object a compact payload stands for. */
  function Expanded(version: int, payload: Json): Json
    requires CompactShape(version, payload)
  {
    var items := payload.items;
    var plain := map["v" := Num(1.0), "name" := items[1], "amountUsd" := items[2],
                     "assets" := Arr(RowsOf(items[3].items, version >= 3)),
                     "thesis" := if |items| >= 5 then items[4] else Str(""),
                     "fees" := if |items| >= 6 then FeesFrom(items[5]) else NO_FEES];
    Obj(if version == 4 then plain["coverId" := items[6]] else plain)
  }

  /** Packing three values per asset, with null for a missing mint, is inverted exactly. */
  lemma {:induction false} RowsOfFlat(assets: seq<Asset>)
    ensures RowsOf(Flat(assets), true) == AsRows(assets)
  {
    if assets != [] {
      RowsOfFlat(assets[1..]);
      assert Flat(assets)[3..] == Flat(assets[1..]);
      assert RowOf(Str(assets[0].symbol), Num(assets[0].weightBps as real), Flat(assets)[2]) == AsRow(assets[0]);
      assert AsRows(assets) == [AsRow(assets[0])] + AsRows(assets[1..]);
    }
  }

  lemma ExpandedCompact(b: Basket)
    ensures CompactShape(4, Compact(b)) && Expanded(4, Compact(b)) == AsInput(b)
  {
    RowsOfFlat(b.assets);
    assert FeesFrom(FlatFees(b.fees)) == AsFees(b.fees);
    var expanded, input := Expanded(4, Compact(b)), AsInput(b);
    assert expanded.fields.Keys == input.fields.Keys;
  }

  /** Row i of a compact payload: two values, and a mint unless the version has none or it is null. */
  predicate RowRead(row: Json, flat: seq<Json>, i: nat, version: int) {
    if version <= 2 then
      && 2 * i + 1 < |flat|
      && Get(row, "symbol") == flat[2 * i] && Get(row, "weightBps") == flat[2 * i + 1]
      && Get(row, "mint") == Undefined
    else
      && 3 * i + 2 < |flat|
      && Get(row, "symbol") == flat[3 * i] && Get(row, "weightBps") == flat[3 * i + 1]
      && Get(row, "mint") == if flat[3 * i + 2] == Null then Undefined else flat[3 * i + 2]
  }

  lemma {:induction false} RowsRead(flat: seq<Json>, version: int, i: nat)
    requires i < |RowsOf(flat, version >= 3)|
    ensures RowRead(RowsOf(flat, version >= 3)[i], flat, i, version)
  {
    if i > 0 { RowsRead(flat[(if version >= 3 then 3 else 2)..], version, i - 1); }
  }

  lemma {:induction false} RowsCount(flat: seq<Json>, withMint: bool)
    ensures |RowsOf(flat, withMint)| == if withMint then |flat| / 3 else |flat| / 2
  {
    if withMint && |flat| >= 3 { RowsCount(flat[3..], true); }
    if !withMint && |flat| >= 2 { RowsCount(flat[2..], false); }
  }

  /**
   * Every other field of every accepted payload, of whatever version. Links before version 4 have no cover, the
   * shortest ones no thesis, and only those of six or more values have fees.
   */
  lemma ExpandedHead(version: int, payload: Json)
    requires CompactShape(version, payload) && 2 <= version <= 4
    ensures var (items, e) := (payload.items, Expanded(version, payload));
            && Get(e, "v") == Num(1.0) && Get(e, "name") == items[1] && Get(e, "amountUsd") == items[2]
            && Get(e, "thesis") == (if |items| == 4 then Str("") else items[4])
            && Get(e, "coverId") == (if version < 4 then Undefined else items[6])
            && FeesRead(Get(e, "fees"), items)
  {
  }

  /** Every row of every accepted payload. */
  lemma ExpandedRows(version: int, payload: Json)
    requires CompactShape(version, payload) && 2 <= version <= 4
    ensures var (flat, rows) := (payload.items[3].items, Get(Expanded(version, payload), "assets"));
            && rows.Arr? && |rows.items| * (if version == 2 then 2 else 3) == |flat|
            && forall i :: 0 <= i < |rows.items| ==> RowRead(rows.items[i], flat, i, version)
  {
    var flat := payload.items[3].items;
    var rows := RowsOf(flat, version >= 3);
    RowsCount(flat, version >= 3);
    forall i | 0 <= i < |rows| ensures RowRead(rows[i], flat, i, version) {
      RowsRead(flat, version, i);
    }
  }

  predicate FeesRead(fees: Json, items: seq<Json>) {
    if |items| <= 5 then
      Get(fees, "entryBps") == Get(fees, "exitBps") == Get(fees, "managementBps") == Num(0.0)
    else
      && items[5].Arr? && |items[5].items| == 3
      && Get(fees, "entryBps") == items[5].items[0] && Get(fees, "exitBps") == items[5].items[1]
      && Get(fees, "managementBps") == items[5].items[2]
  }

  /** Which payloads are refused: too short, too long, of another version, or with a part of the wrong kind. */
  lemma ShapeIff(version: int, payload: Json)
    requires 2 <= version <= 4
    ensures !CompactShape(version, payload) <==>
              || !payload.Arr? || |payload.items| < 4
              || (version == 4 && |payload.items| != 7) || (version != 4 && |payload.items| > 6)
              || payload.items[0] != Num(version as real) || !payload.items[3].Arr?
              || |payload.items[3].items| % (if version == 2 then 2 else 3) != 0
              || (|payload.items| > 4 && !payload.items[4].Str?)
              || (|payload.items| > 5 && (!payload.items[5].Arr? || |payload.items[5].items| != 3))
              || (version == 4 && !payload.items[6].Str?)
  {
  }

  // ---- links ----

  predicate Versioned(link: string) {
    |link| >= 2 && (link[0] == '2' || link[0] == '3' || link[0] == '4') && link[1] == '.'
  }

  function Version(link: string): int
    requires Versioned(link)
  {
    (link[0] - '0') as int
  }

  function Body(link: string): string {
    if Versioned(link) then link[2..] else link
  }

  /** An optional version, then at least one character of the URL alphabet. */
  predicate LinkText(link: string) {
    Body(link) != "" && forall i :: 0 <= i < |Body(link)| ==> IsUrlChar(Body(link)[i])
  }

  function Payload(p: Platform, link: string): Option<Json> {
    if link == "" || |link| > MAX_ENCODED || !LinkText(link) then None
    else
      var bytes := Decoded(Body(link));
      if bytes.None? then None
      else
        var text := p.utf8Decode(bytes.value);
        if text.None? || |text.value| > MAX_DECODED then None else p.parse(text.value)
  }

  function Interpreted(link: string, payload: Json): Option<Json> {
    if !Versioned(link) then Some(payload)
    else if CompactShape(Version(link), payload) then Some(Expanded(Version(link), payload)) else None
  }

  /** The decoder: a validated basket, or nothing. */
  function DecodeConceptBasket(p: Platform, r: Registry, link: string): Option<Basket> {
    var payload := Payload(p, link);
    if payload.None? then None
    else
      var input := Interpreted(link, payload.value);
      if input.None? || !ValidBasket(r, input.value) then None else Some(Normalized(r, input.value))
  }

  /** The body of a link holds this payload: base64url of at most 3072 characters of JSON in UTF-8. */
  ghost predicate Holds(p: Platform, body: string, payload: Json) {
    exists text :: p.parse(text) == Some(payload) && |text| <= 3_072 && Reads(p, body, text)
  }

  predicate Reads(p: Platform, body: string, text: string) {
    Decoded(body).Some? && p.utf8Decode(Decoded(body).value) == Some(text)
  }

  /** The payload is the basket itself unless the link names version 2, 3 or 4. */
  predicate Means(link: string, payload: Json, input: Json) {
    if |link| >= 2 && link[0] in "234" && link[1] == '.' then
      var version := if link[0] == '2' then 2 else if link[0] == '3' then 3 else 4;
      CompactShape(version, payload) && input == Expanded(version, payload)
    else input == payload
  }

  /** At most 4096 characters, and at least one, all of the alphabet, after the version. */
  predicate Readable(link: string) {
    |Body(link)| >= 1 && |link| <= 4_096 && forall i :: 0 <= i < |Body(link)| ==> IsUrlChar(Body(link)[i])
  }

  lemma PayloadIff(p: Platform, link: string, payload: Json)
    ensures Payload(p, link) == Some(payload) <==> Readable(link) && Holds(p, Body(link), payload)
  {
    if Payload(p, link) == Some(payload) {
      var text := p.utf8Decode(Decoded(Body(link)).value).value;
      assert p.parse(text) == Some(payload) && Reads(p, Body(link), text);
    }
  }

  lemma InterpretedIff(link: string, payload: Json, input: Json)
    ensures Interpreted(link, payload) == Some(input) <==> Means(link, payload, input)
  {
  }

  ghost predicate Stands(p: Platform, r: Registry, link: string, payload: Json, input: Json) {
    Holds(p, Body(link), payload) && Means(link, payload, input) && ValidBasket(r, input)
  }

  /**
   * A link is read exactly when its characters are right and it holds a payload that means a valid basket; what
   * is read is that basket's normal form.
   */
  lemma DecodeIff(p: Platform, r: Registry, link: string, b: Basket)
    ensures DecodeConceptBasket(p, r, link) == Some(b) <==>
              && Readable(link)
              && exists payload, input :: Stands(p, r, link, payload, input) && b == Normalized(r, input)
  {
    if DecodeConceptBasket(p, r, link) == Some(b) {
      var payload := Payload(p, link).value;
      var input := Interpreted(link, payload).value;
      PayloadIff(p, link, payload);
      InterpretedIff(link, payload, input);
      assert Stands(p, r, link, payload, input);
    }
    if Readable(link) {
      forall payload, input | Stands(p, r, link, payload, input)
        ensures DecodeConceptBasket(p, r, link) == Some(Normalized(r, input))
      {
        PayloadIff(p, link, payload);
        InterpretedIff(link, payload, input);
      }
    }
  }

  function Link(p: Platform, b: Basket): string {
    "4." + Encoded(p.utf8(p.stringify(Compact(b))))
  }

  /** A link exists exactly for valid baskets whose text fits. */
  method EncodeConceptBasket(p: Platform, r: Registry, input: Json) returns (link: Result<string, Refusal>)
    ensures link.Ok? <==> ValidBasket(r, input) && |Link(p, Normalized(r, input))| <= MAX_ENCODED
    ensures link.Ok? ==> link.value == Link(p, Normalized(r, input))
    ensures link == Err(TooLarge) <==> ValidBasket(r, input) && |Link(p, Normalized(r, input))| > MAX_ENCODED
  {
    var validation := ValidateConceptBasket(r, input);
    if validation.Err? { return Err(Rejected(validation.error)); }
    var text := ToBase64Url(p.utf8(p.stringify(Compact(validation.value))));
    var encoded := "4." + text;
    if |encoded| > MAX_ENCODED { return Err(TooLarge); }
    return Ok(encoded);
  }

  /** Any link within the length limit decodes to fewer bytes than the decoder's own bound. */
  lemma LimitImpliesBound(p: Platform, b: Basket)
    requires NoShorter(p) && |Link(p, b)| <= MAX_ENCODED
    ensures |p.stringify(Compact(b))| <= |p.utf8(p.stringify(Compact(b)))| <= 3_070 < MAX_DECODED
  {
  }

  lemma LinkIsText(t: string)
    requires t != "" && forall i :: 0 <= i < |t| ==> IsUrlChar(t[i])
    ensures var link := "4." + t; Versioned(link) && Version(link) == 4 && Body(link) == t && LinkText(link)
  {
  }

  lemma LinkReads(p: Platform, b: Basket)
    requires Faithful(p) && Exact(p.isNumber, Compact(b)) && |Link(p, b)| <= MAX_ENCODED
    ensures Versioned(Link(p, b)) && Version(Link(p, b)) == 4 && Payload(p, Link(p, b)) == Some(Compact(b))
  {
    var text := p.stringify(Compact(b));
    assert p.parse(text) == Some(Compact(b)) && p.utf8Decode(p.utf8(text)) == Some(text);
    LimitImpliesBound(p, b);
    DecodeInvertsEncode(p.utf8(text));
    LinkIsText(Encoded(p.utf8(text)));
  }

  lemma LinkInterpreted(p: Platform, b: Basket)
    requires Faithful(p) && Exact(p.isNumber, Compact(b)) && |Link(p, b)| <= MAX_ENCODED
    ensures Payload(p, Link(p, b)) == Some(Compact(b)) && Interpreted(Link(p, b), Compact(b)) == Some(AsInput(b))
  {
    LinkReads(p, b);
    ExpandedCompact(b);
  }

  lemma {:induction false} FlatIsExact(p: Platform, assets: seq<Asset>)
    requires Numeric(p) && forall i :: 0 <= i < |assets| ==> Bps(assets[i].weightBps)
    ensures forall i :: 0 <= i < |Flat(assets)| ==> Exact(p.isNumber, Flat(assets)[i])
  {
    if assets != [] {
      assert Bps(assets[0].weightBps);
      FlatIsExact(p, assets[1..]);
    }
  }

  /** The payload of a valid basket holds exact values only, as soon as its amount is a number of the platform. */
  lemma CompactIsExact(p: Platform, r: Registry, input: Json)
    requires Numeric(p) && ValidBasket(r, input) && p.isNumber(Normalized(r, input).amountUsd)
    ensures Exact(p.isNumber, Compact(Normalized(r, input)))
  {
    WeightsInRange(r, input);
    FeesInRange(input);
    PartsAreExact(p, Normalized(r, input));
  }

  lemma WeightsInRange(r: Registry, input: Json)
    requires RowsOk(r, Rows(input))
    ensures forall i :: 0 <= i < |Normalized(r, input).assets| ==> Bps(Normalized(r, input).assets[i].weightBps)
  {
    forall i | 0 <= i < |Rows(input)| ensures Bps(AssetOf(Rows(input)[i]).weightBps) {
      assert RowOk(r, Rows(input)[i]);
    }
  }

  lemma FeesInRange(input: Json)
    requires forall k :: 0 <= k < |FEE_CAPS| ==> FeeOk(input, k)
    ensures var fees := FeesOf(input); Bps(fees.entryBps) && Bps(fees.exitBps) && Bps(fees.managementBps)
  {
    assert FeeOk(input, 0) && FeeOk(input, 1) && FeeOk(input, 2);
  }

  lemma PartsAreExact(p: Platform, b: Basket)
    requires Numeric(p) && p.isNumber(b.amountUsd)
    requires forall i :: 0 <= i < |b.assets| ==> Bps(b.assets[i].weightBps)
    requires Bps(b.fees.entryBps) && Bps(b.fees.exitBps) && Bps(b.fees.managementBps)
    ensures Exact(p.isNumber, Compact(b))
  {
    FlatIsExact(p, b.assets);
    assert Bps(4);
    assert Exact(p.isNumber, FlatFees(b.fees));
  }

  /** Every valid basket whose link fits is read back, from its own link, as its normal form. */
  lemma DecodeInvertsLink(p: Platform, r: Registry, input: Json)
    requires Faithful(p) && CoversResolve(r) && ValidBasket(r, input) && p.isNumber(Normalized(r, input).amountUsd)
    requires |Link(p, Normalized(r, input))| <= MAX_ENCODED
    ensures DecodeConceptBasket(p, r, Link(p, Normalized(r, input))) == Some(Normalized(r, input))
  {
    var b := Normalized(r, input);
    CompactIsExact(p, r, input);
    LinkInterpreted(p, b);
    NormalFormIsFixed(r, input);
  }

  lemma ExpandedAmount(version: int, payload: Json)
    requires CompactShape(version, payload)
    ensures Get(Expanded(version, payload), "amountUsd") == payload.items[2]
  {
  }

  /** The amount of a decoded basket was parsed, so it is a number of the platform. */
  lemma AmountIsNative(isNumber: real -> bool, r: Registry, link: string, payload: Json)
    requires Native(isNumber, payload) && Interpreted(link, payload).Some?
    requires ValidBasket(r, Interpreted(link, payload).value)
    ensures isNumber(Normalized(r, Interpreted(link, payload).value).amountUsd)
  {
    var amount := Get(Interpreted(link, payload).value, "amountUsd");
    if Versioned(link) {
      ExpandedAmount(Version(link), payload);
    }
    assert Native(isNumber, amount);
  }

  lemma PayloadIsNative(p: Platform, link: string)
    requires Numeric(p) && Payload(p, link).Some?
    ensures Native(p.isNumber, Payload(p, link).value)
  {
    var text := p.utf8Decode(Decoded(Body(link)).value).value;
    assert p.parse(text).Some?;
  }

  lemma AmountWasParsed(p: Platform, r: Registry, link: string)
    requires Numeric(p) && DecodeConceptBasket(p, r, link).Some?
    ensures p.isNumber(DecodeConceptBasket(p, r, link).value.amountUsd)
  {
    PayloadIsNative(p, link);
    AmountIsNative(p.isNumber, r, link, Payload(p, link).value);
  }

  /** Whatever link a basket was read from, it is in normal form, and sharing it again gives a link to the same one. */
  lemma DecodedIsNormal(p: Platform, r: Registry, link: string)
    requires Faithful(p) && CoversResolve(r) && DecodeConceptBasket(p, r, link).Some?
    ensures var b := DecodeConceptBasket(p, r, link).value;
            && ValidBasket(r, AsInput(b)) && Normalized(r, AsInput(b)) == b
            && (|Link(p, b)| <= MAX_ENCODED ==> DecodeConceptBasket(p, r, Link(p, b)) == Some(b))
  {
    var input := Interpreted(link, Payload(p, link).value).value;
    NormalFormIsFixed(r, input);
    AmountWasParsed(p, r, link);
    var b := Normalized(r, input);
    if |Link(p, b)| <= MAX_ENCODED { DecodeInvertsLink(p, r, AsInput(b)); }
  }
}

/** A small platform that meets every assumption made of the real one: whole numbers, and a prefix code for texts. */
module PlainPlatform {
  import opened Results
  import opened Base64Url
  import opened ConceptBasket
  import opened ShareLink

  predicate IsWhole(x: real) {
    x >= 0.0 && x == x.Floor as real
  }

  function Digits(n: nat): string {
    if n == 0 then "." else (if n % 2 == 0 then "0" else "1") + Digits(n / 2)
  }

  function Chars(t: string): string {
    if t == "" then "." else "," + [t[0]] + Chars(t[1..])
  }

  function Text(v: Json): string
    decreases v
  {
    match v
    case Null => "n"
    case Bool(b) => if b then "t" else "f"
    case Num(x) => if IsWhole(x) then "d" + Digits(x.Floor) else "x"
    case Str(t) => "s" + Chars(t)
    case Arr(items) => "a" + Texts(items)
    case _ => "x"
  }

  function Texts(items: seq<Json>): string
    decreases items
  {
    if items == [] then "." else "," + Text(items[0]) + Texts(items[1..])
  }

  /** Three bytes per character. */
  function Bytes(t: string): (b: seq<Byte>)
    ensures |b| == 3 * |t|
  {
    if t == "" then [] else [High(t[0]), Middle(t[0]), Low(t[0])] + Bytes(t[1..])
  }

  // ---- nothing printed is the start of anything else printed ----

  lemma Peel(a: string, b: string, s: string, t: string)
    requires |a| == |b| && a + s == b + t
    ensures a == b && s == t
  {
    assert a == (a + s)[..|a|] && b == (b + t)[..|b|];
    assert s == (a + s)[|a|..] && t == (b + t)[|b|..];
  }

  lemma {:induction false} DigitsPrefix(m: nat, n: nat, s: string, t: string)
    requires Digits(m) + s == Digits(n) + t
    ensures m == n && s == t
  {
    assert (Digits(m) + s)[0] == Digits(m)[0] && (Digits(n) + t)[0] == Digits(n)[0];
    if m == 0 {
      Peel(".", ".", s, t);
    } else {
      assert Digits(m) + s == [Digits(m)[0]] + (Digits(m / 2) + s);
      assert Digits(n) + t == [Digits(n)[0]] + (Digits(n / 2) + t);
      Peel([Digits(m)[0]], [Digits(n)[0]], Digits(m / 2) + s, Digits(n / 2) + t);
      DigitsPrefix(m / 2, n / 2, s, t);
    }
  }

  lemma {:induction false} CharsPrefix(a: string, b: string, s: string, t: string)
    requires Chars(a) + s == Chars(b) + t
    ensures a == b && s == t
  {
    assert (Chars(a) + s)[0] == Chars(a)[0] && (Chars(b) + t)[0] == Chars(b)[0];
    if a == "" {
      Peel(".", ".", s, t);
    } else {
      assert Chars(a) + s == ("," + [a[0]]) + (Chars(a[1..]) + s);
      assert Chars(b) + t == ("," + [b[0]]) + (Chars(b[1..]) + t);
      Peel("," + [a[0]], "," + [b[0]], Chars(a[1..]) + s, Chars(b[1..]) + t);
      CharsPrefix(a[1..], b[1..], s, t);
      assert ("," + [a[0]])[1] == a[0] && ("," + [b[0]])[1] == b[0];
      assert a == [a[0]] + a[1..] && b == [b[0]] + b[1..];
    }
  }

  lemma {:induction false} TextPrefix(v: Json, w: Json, s: string, t: string)
    requires Exact(IsWhole, v) && Exact(IsWhole, w) && Text(v) + s == Text(w) + t
    ensures v == w && s == t
    decreases v
  {
    assert (Text(v) + s)[0] == Text(v)[0] && (Text(w) + t)[0] == Text(w)[0];
    match v
    case Num(x) =>
      assert Text(v) + s == "d" + (Digits(x.Floor) + s) && Text(w) + t == "d" + (Digits(w.value.Floor) + t);
      Peel("d", "d", Digits(x.Floor) + s, Digits(w.value.Floor) + t);
      DigitsPrefix(x.Floor, w.value.Floor, s, t);
    case Str(a) =>
      assert Text(v) + s == "s" + (Chars(a) + s) && Text(w) + t == "s" + (Chars(w.text) + t);
      Peel("s", "s", Chars(a) + s, Chars(w.text) + t);
      CharsPrefix(a, w.text, s, t);
    case Arr(items) =>
      assert Text(v) + s == "a" + (Texts(items) + s) && Text(w) + t == "a" + (Texts(w.items) + t);
      Peel("a", "a", Texts(items) + s, Texts(w.items) + t);
      TextsPrefix(items, w.items, s, t);
    case _ =>
      Peel(Text(v), Text(w), s, t);
  }

  lemma Assoc(c: string, x: string, y: string, s: string)
    ensures (c + x + y) + s == c + (x + (y + s))
  {
  }

  lemma TextsPeel(a: seq<Json>, b: seq<Json>, s: string, t: string)
    requires a != [] && b != [] && Texts(a) + s == Texts(b) + t
    ensures Text(a[0]) + (Texts(a[1..]) + s) == Text(b[0]) + (Texts(b[1..]) + t)
  {
    Assoc(",", Text(a[0]), Texts(a[1..]), s);
    Assoc(",", Text(b[0]), Texts(b[1..]), t);
    Peel(",", ",", Text(a[0]) + (Texts(a[1..]) + s), Text(b[0]) + (Texts(b[1..]) + t));
  }

  lemma {:induction false} TextsPrefix(a: seq<Json>, b: seq<Json>, s: string, t: string)
    requires (forall i :: 0 <= i < |a| ==> Exact(IsWhole, a[i])) && (forall i :: 0 <= i < |b| ==> Exact(IsWhole, b[i]))
    requires Texts(a) + s == Texts(b) + t
    ensures a == b && s == t
    decreases a
  {
    assert (Texts(a) + s)[0] == Texts(a)[0] && (Texts(b) + t)[0] == Texts(b)[0];
    if a == [] {
      Peel(".", ".", s, t);
    } else {
      TextsPeel(a, b, s, t);
      TextPrefix(a[0], b[0], Texts(a[1..]) + s, Texts(b[1..]) + t);
      TextsPrefix(a[1..], b[1..], s, t);
      assert a == [a[0]] + a[1..] && b == [b[0]] + b[1..];
    }
  }

  function High(c: char): Byte { c as int / 65536 }
  function Middle(c: char): Byte { c as int / 256 % 256 }
  function Low(c: char): Byte { c as int % 256 }

  lemma SameChar(c: char, d: char)
    requires High(c) == High(d) && Middle(c) == Middle(d) && Low(c) == Low(d)
    ensures c == d
  {
    assert c as int / 65536 == c as int / 256 / 256 && d as int / 65536 == d as int / 256 / 256;
  }

  lemma {:induction false} BytesInjective(s: string, t: string)
    requires Bytes(s) == Bytes(t)
    ensures s == t
  {
    if s != "" {
      assert Bytes(s)[0] == Bytes(t)[0] && Bytes(s)[1] == Bytes(t)[1] && Bytes(s)[2] == Bytes(t)[2];
      SameChar(s[0], t[0]);
      assert Bytes(s)[3..] == Bytes(s[1..]) && Bytes(t)[3..] == Bytes(t[1..]);
      BytesInjective(s[1..], t[1..]);
      assert s == [s[0]] + s[1..] && t == [t[0]] + t[1..];
    }
  }

  // ---- the platform ----

  ghost function Parse(t: string): Option<Json> {
    if exists v :: Exact(IsWhole, v) && Text(v) == t then
      var v :| Exact(IsWhole, v) && Text(v) == t;
      Some(v)
    else None
  }

  ghost function Decode(bytes: seq<Byte>): Option<string> {
    if exists t :: Bytes(t) == bytes then
      var t :| Bytes(t) == bytes;
      Some(t)
    else None
  }

  ghost function Plain(): Platform {
    Platform(IsWhole, Text, t => Parse(t), Bytes, bytes => Decode(bytes))
  }

  lemma {:induction false} ExactIsNative(v: Json)
    requires Exact(IsWhole, v)
    ensures Native(IsWhole, v)
  {
    if v.Arr? {
      forall i | 0 <= i < |v.items| ensures Native(IsWhole, v.items[i]) {
        ExactIsNative(v.items[i]);
      }
    }
  }

  /** All that is assumed of the platform can be met. */
  lemma PlainIsFaithful()
    ensures Faithful(Plain())
  {
    forall v | Exact(IsWhole, v) ensures Parse(Text(v)) == Some(v) && Decode(Bytes(Text(v))) == Some(Text(v)) {
      var w := Parse(Text(v)).value;
      assert Text(v) + "" == Text(w) + "";
      TextPrefix(v, w, "", "");
      BytesInjective(Decode(Bytes(Text(v))).value, Text(v));
    }
    forall t | Parse(t).Some? ensures Native(IsWhole, Parse(t).value) {
      ExactIsNative(Parse(t).value);
    }
  }
}
