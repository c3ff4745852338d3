/**
 * Greedy wrapping of poster text. The text measure and the grapheme segmenter are parameters; a text
 * measure is only assumed to grow with the words on a line where that is said.
 */
module WordText {
  predicate IsControl(c: char) {
    c < ' ' || c == 127 as char
  }

  /** The white space of a regular expression's `\s`. */
  predicate IsSpace(c: char) {
    || 9 as char <= c <= 13 as char || c == ' ' || c == 160 as char || c == 0x1680 as char
    || 0x2000 as char <= c <= 0x200a as char || c == 0x2028 as char || c == 0x2029 as char
    || c == 0x202f as char || c == 0x205f as char || c == 0x3000 as char || c == 0xfeff as char
  }

  predicate IsBlank(c: char) {
    c == ' '
  }

  predicate IsBreak(c: char) {
    IsControl(c) || IsSpace(c)
  }

  function ReplaceControls(text: string): string {
    if text == "" then "" else [if IsControl(text[0]) then ' ' else text[0]] + ReplaceControls(text[1..])
  }

  /** Each run of white space becomes one space. */
  function Collapse(text: string): string {
    if text == "" then ""
    else if !IsSpace(text[0]) then [text[0]] + Collapse(text[1..])
    else if |text| > 1 && IsSpace(text[1]) then Collapse(text[1..])
    else " " + Collapse(text[1..])
  }

  /** The characters the patterns stand for, by code. */
  lemma CharacterCodes(c: char)
    ensures var n := c as int;
            && (IsControl(c) <==> 0 <= n <= 31 || n == 127)
            && (IsSpace(c) <==>
                || n in {9, 10, 11, 12, 13, 32, 160, 5_760, 8_232, 8_233, 8_239, 8_287, 12_288, 65_279}
                || 8_192 <= n <= 8_202)
  {
  }

  function TrimStart(text: string): string {
    if text != "" && IsSpace(text[0]) then TrimStart(text[1..]) else text
  }

  function TrimEnd(text: string): string {
    if text != "" && IsSpace(text[|text| - 1]) then TrimEnd(text[..|text| - 1]) else text
  }

  function Trim(text: string): string {
    TrimEnd(TrimStart(text))
  }

  function SplitAt(text: string, isSeparator: char -> bool): (parts: seq<string>)
    ensures parts != []
  {
    if text == "" then [""]
    else
      var rest := SplitAt(text[1..], isSeparator);
      if isSeparator(text[0]) then [""] + rest else [[text[0]] + rest[0]] + rest[1..]
  }

  function NonEmpty(parts: seq<string>): seq<string> {
    if parts == [] then [] else (if parts[0] == "" then [] else [parts[0]]) + NonEmpty(parts[1..])
  }

  function Words(text: string): seq<string> {
    NonEmpty(SplitAt(Trim(Collapse(ReplaceControls(text))), IsBlank))
  }

  /** The maximal runs of characters that are neither controls nor white space. */
  function Runs(text: string): seq<string> {
    NonEmpty(SplitAt(text, IsBreak))
  }

  function Flat(parts: seq<string>): string {
    if parts == [] then "" else Flat(parts[..|parts| - 1]) + parts[|parts| - 1]
  }

  function Drop(text: string, unwanted: char -> bool): string {
    if text == "" then "" else (if unwanted(text[0]) then "" else [text[0]]) + Drop(text[1..], unwanted)
  }

  function Visible(text: string): string {
    Drop(text, IsBreak)
  }

  lemma {:induction false} ControlsAreBreaks(text: string)
    ensures SplitAt(ReplaceControls(text), IsBreak) == SplitAt(text, IsBreak)
    ensures forall c :: c in ReplaceControls(text) ==> !IsControl(c)
  {
    if text != "" {
      ControlsAreBreaks(text[1..]);
      assert ReplaceControls(text)[1..] == ReplaceControls(text[1..]);
    }
  }

  lemma {:induction false} CollapseKeepsRuns(text: string)
    ensures var (s, t) := (SplitAt(text, IsBreak), SplitAt(Collapse(text), IsBreak));
            s[0] == t[0] && NonEmpty(s[1..]) == NonEmpty(t[1..])
    ensures forall c :: c in Collapse(text) ==> (IsSpace(c) ==> c == ' ') && (c == ' ' || c in text)
  {
    if text != "" {
      CollapseKeepsRuns(text[1..]);
      if !IsSpace(text[0]) || |text| == 1 || !IsSpace(text[1]) {
        assert Collapse(text)[1..] == Collapse(text[1..]);
      }
    }
  }

  lemma {:induction false} TrimStartKeepsRuns(text: string)
    ensures Runs(TrimStart(text)) == Runs(text)
    ensures forall c :: c in TrimStart(text) ==> c in text
  {
    if text != "" && IsSpace(text[0]) {
      TrimStartKeepsRuns(text[1..]);
      assert SplitAt(text, IsBreak)[1..] == SplitAt(text[1..], IsBreak);
    }
  }

  lemma {:induction false} SplitAfter(text: string, c: char)
    requires IsBreak(c)
    ensures SplitAt(text + [c], IsBreak) == SplitAt(text, IsBreak) + [""]
  {
    if text == "" {
      assert [c][1..] == "";
    } else {
      SplitAfter(text[1..], c);
      assert (text + [c])[1..] == text[1..] + [c];
    }
  }

  lemma {:induction false} NonEmptyAppend(a: seq<string>, b: seq<string>)
    ensures NonEmpty(a + b) == NonEmpty(a) + NonEmpty(b)
  {
    if a == [] {
      assert a + b == b;
    } else {
      var head := if a[0] == "" then [] else [a[0]];
      calc {
        NonEmpty(a + b);
        { assert (a + b)[1..] == a[1..] + b; }
        head + NonEmpty(a[1..] + b);
        { NonEmptyAppend(a[1..], b); }
        head + (NonEmpty(a[1..]) + NonEmpty(b));
        (head + NonEmpty(a[1..])) + NonEmpty(b);
      }
    }
  }

  lemma {:induction false} TrimEndKeepsRuns(text: string)
    ensures Runs(TrimEnd(text)) == Runs(text)
    ensures forall c :: c in TrimEnd(text) ==> c in text
  {
    if text != "" && IsSpace(text[|text| - 1]) {
      var shorter := text[..|text| - 1];
      TrimEndKeepsRuns(shorter);
      assert text == shorter + [text[|text| - 1]];
      SplitAfter(shorter, text[|text| - 1]);
      NonEmptyAppend(SplitAt(shorter, IsBreak), [""]);
    }
  }

  lemma {:induction false} SplitAgrees(text: string, p: char -> bool, q: char -> bool)
    requires forall c :: c in text ==> p(c) == q(c)
    ensures SplitAt(text, p) == SplitAt(text, q)
  {
    if text != "" { SplitAgrees(text[1..], p, q); }
  }

  /** Replacing, collapsing, trimming and splitting yields exactly the maximal runs of the original text. */
  lemma WordsAreRuns(text: string)
    ensures Words(text) == Runs(text)
  {
    var plain := ReplaceControls(text);
    ControlsAreBreaks(text);
    CollapseKeepsRuns(plain);
    TrimStartKeepsRuns(Collapse(plain));
    var start := TrimStart(Collapse(plain));
    TrimEndKeepsRuns(start);
    SplitAgrees(TrimEnd(start), IsBlank, IsBreak);
  }

  lemma {:induction false} FlatFirst(parts: seq<string>)
    requires parts != []
    ensures Flat(parts) == parts[0] + Flat(parts[1..])
  {
    if |parts| > 1 {
      FlatFirst(parts[..|parts| - 1]);
      assert parts[..|parts| - 1][1..] == parts[1..][..|parts| - 2];
    }
  }

  /** The words hold the visible text in order; no word is empty or holds a break. */
  lemma {:induction false} RunsHoldText(text: string)
    ensures var parts := SplitAt(text, IsBreak);
            Visible(text) == parts[0] + Flat(NonEmpty(parts[1..]))
    ensures forall part, c :: part in SplitAt(text, IsBreak) && c in part ==> !IsBreak(c)
  {
    if text != "" {
      RunsHoldText(text[1..]);
      var rest := SplitAt(text[1..], IsBreak);
      if IsBreak(text[0]) {
        assert SplitAt(text, IsBreak)[1..] == rest;
        if rest[0] != "" {
          FlatFirst(NonEmpty(rest));
          assert NonEmpty(rest)[1..] == NonEmpty(rest[1..]);
        } else {
          assert NonEmpty(rest) == NonEmpty(rest[1..]);
        }
        assert Flat(NonEmpty(rest)) == rest[0] + Flat(NonEmpty(rest[1..]));
      }
    }
  }

  lemma {:induction false} NonEmptyParts(parts: seq<string>)
    ensures forall w :: w in NonEmpty(parts) ==> w != "" && w in parts
  {
    if parts != [] { NonEmptyParts(parts[1..]); }
  }

  lemma WordsHoldText(text: string)
    ensures Flat(Words(text)) == Visible(text)
    ensures forall w :: w in Words(text) ==> w != "" && forall c :: c in w ==> !IsBreak(c)
  {
    WordsAreRuns(text);
    RunsHoldText(text);
    var parts := SplitAt(text, IsBreak);
    NonEmptyParts(parts);
    if parts[0] != "" {
      FlatFirst(NonEmpty(parts));
      assert NonEmpty(parts)[1..] == NonEmpty(parts[1..]);
    } else {
      assert NonEmpty(parts) == NonEmpty(parts[1..]);
    }
  }
}

module WordWrap {
  import opened WordText

  type Measure = string -> real

  /** A segmenter cuts every word into non-empty pieces that make up the word. */
  ghost predicate Segments(segment: string -> seq<string>) {
    forall word :: Flat(segment(word)) == word && forall g :: g in segment(word) ==> g != ""
  }

  function Join(words: seq<string>): string {
    if words == [] then ""
    else if |words| == 1 then words[0]
    else Join(words[..|words| - 1]) + " " + words[|words| - 1]
  }

  function WithoutSpaces(text: string): string {
    Drop(text, IsBlank)
  }

  lemma {:induction false} WithoutSpacesAppend(a: string, b: string)
    ensures WithoutSpaces(a + b) == WithoutSpaces(a) + WithoutSpaces(b)
  {
    if a == "" {
      assert a + b == b;
    } else {
      var head := if IsBlank(a[0]) then "" else [a[0]];
      calc {
        WithoutSpaces(a + b);
        { assert (a + b)[1..] == a[1..] + b; }
        head + WithoutSpaces(a[1..] + b);
        { WithoutSpacesAppend(a[1..], b); }
        head + (WithoutSpaces(a[1..]) + WithoutSpaces(b));
        (head + WithoutSpaces(a[1..])) + WithoutSpaces(b);
      }
    }
  }

  lemma {:induction false} NothingToDrop(a: string)
    requires forall c :: c in a ==> c != ' '
    ensures WithoutSpaces(a) == a
  {
    if a != "" {
      assert a[0] in a && forall c :: c in a[1..] ==> c in a;
      NothingToDrop(a[1..]);
    }
  }

  lemma FlatAppend(parts: seq<string>, last: string)
    ensures Flat(parts + [last]) == Flat(parts) + last
  {
  }

  lemma FlatTake(parts: seq<string>, k: nat)
    requires k < |parts|
    ensures Flat(parts[..k + 1]) == Flat(parts[..k]) + parts[k]
  {
    assert parts[..k + 1][..k] == parts[..k];
  }

  lemma JoinTake(words: seq<string>, i: nat, k: nat)
    requires i < k < |words|
    ensures Join(words[i..k + 1]) == Join(words[i..k]) + " " + words[k]
  {
    assert words[i..k + 1][..k - i] == words[i..k];
  }

  // ---- what a wrapping is ----

  predicate Cuts(words: seq<string>, cuts: seq<nat>) {
    && cuts != [] && cuts[0] == 0 && cuts[|cuts| - 1] == |words|
    && forall i, j :: 0 <= i <= j < |cuts| ==> cuts[i] <= cuts[j]
  }

  /** Line i takes the words from cut i up to cut i + 1. */
  function Line(words: seq<string>, cuts: seq<nat>, i: nat): string
    requires i + 1 < |cuts| && cuts[i] <= cuts[i + 1] <= |words|
  {
    Join(words[cuts[i]..cuts[i + 1]])
  }

  predicate Wrapping(words: seq<string>, width: real, measure: Measure, cuts: seq<nat>) {
    && Cuts(words, cuts)
    && forall i :: 0 <= i < |cuts| - 1 ==> measure(Line(words, cuts, i)) <= width
  }

  /** The lines are the words at those cuts, joined by single spaces. */
  predicate LinesOf(words: seq<string>, cuts: seq<nat>, lines: seq<string>) {
    && Cuts(words, cuts) && |lines| == |cuts| - 1
    && forall i :: 0 <= i < |lines| ==> lines[i] == Line(words, cuts, i)
  }

  /** Fewer words from the same stretch never measure more. */
  predicate Monotone(words: seq<string>, measure: Measure) {
    forall i, j, k, l :: 0 <= i <= j < k <= l <= |words| ==> measure(Join(words[j..k])) <= measure(Join(words[i..l]))
  }

  predicate WordsFit(words: seq<string>, width: real, measure: Measure) {
    forall w :: w in words ==> measure(w) <= width
  }

  /** The word opening line i + 1 did not fit on line i. */
  predicate Overflows(words: seq<string>, width: real, measure: Measure, starts: seq<nat>, i: nat)
    requires i + 1 < |starts|
  {
    starts[i] < starts[i + 1] < |words| && measure(Join(words[starts[i]..starts[i + 1] + 1])) > width
  }

  predicate Greedy(words: seq<string>, width: real, measure: Measure, starts: seq<nat>) {
    && starts != [] && starts[0] == 0 && starts[|starts| - 1] <= |words|
    && forall i :: 0 <= i < |starts| - 1 ==> Overflows(words, width, measure, starts, i)
  }

  /** Greedy stays ahead: its i-th line never starts before the i-th line of any other wrapping. */
  lemma {:induction false} StaysAhead(words: seq<string>, width: real, measure: Measure, starts: seq<nat>,
                                      cuts: seq<nat>, i: nat)
    requires Greedy(words, width, measure, starts) && Wrapping(words, width, measure, cuts) && Monotone(words, measure)
    requires i < |starts| && i < |cuts|
    ensures cuts[i] <= starts[i]
  {
    if i > 0 {
      StaysAhead(words, width, measure, starts, cuts, i - 1);
      assert Overflows(words, width, measure, starts, i - 1);
      assert measure(Line(words, cuts, i - 1)) <= width;
    }
  }

  /** No wrapping of the same words uses fewer lines. */
  lemma GreedyIsOptimal(words: seq<string>, width: real, measure: Measure, starts: seq<nat>, cuts: seq<nat>)
    requires Greedy(words, width, measure, starts) && Wrapping(words, width, measure, cuts) && Monotone(words, measure)
    requires words != [] && starts[|starts| - 1] < |words|
    ensures |starts| <= |cuts| - 1
  {
    if |cuts| <= |starts| {
      assert |cuts| < |starts| ==> Overflows(words, width, measure, starts, |cuts| - 1);
      StaysAhead(words, width, measure, starts, cuts, |cuts| - 1);
    }
  }

  // ---- the loop's standing after the first k words ----

  predicate LineFits(line: string, words: seq<string>, width: real, measure: Measure, segment: string -> seq<string>) {
    measure(line) <= width || exists w :: w in words && line in segment(w)
  }

  predicate LinesFit(lines: seq<string>, words: seq<string>, width: real, measure: Measure,
                     segment: string -> seq<string>)
  {
    forall l :: l in lines ==> l != "" && LineFits(l, words, width, measure, segment)
  }

  predicate Holds(lines: seq<string>, line: string, text: string) {
    WithoutSpaces(Flat(lines) + line) == text
  }

  /** When every word fits, the lines are the words cut at `starts`, the current line running up to word k. */
  predicate Filled(words: seq<string>, width: real, measure: Measure, k: nat, lines: seq<string>, line: string,
                   starts: seq<nat>)
  {
    && k <= |words| && Greedy(words, width, measure, starts) && |starts| == |lines| + 1
    && (forall i :: 0 <= i < |lines| ==>
          Overflows(words, width, measure, starts, i) && lines[i] == Line(words, starts, i))
    && (if k == 0 then line == "" && lines == []
        else starts[|starts| - 1] < k && line == Join(words[starts[|starts| - 1]..k]))
  }

  lemma FilledExtends(words: seq<string>, width: real, measure: Measure, k: nat, lines: seq<string>, line: string,
                      starts: seq<nat>)
    requires k < |words| && Filled(words, width, measure, k, lines, line, starts)
    ensures Filled(words, width, measure, k + 1, lines, if k == 0 then words[0] else line + " " + words[k], starts)
  {
    if k == 0 {
      assert words[0..1] == [words[0]];
    } else {
      JoinTake(words, starts[|starts| - 1], k);
    }
  }

  lemma FilledBreaks(words: seq<string>, width: real, measure: Measure, k: nat, lines: seq<string>, line: string,
                     starts: seq<nat>)
    requires 0 < k < |words| && Filled(words, width, measure, k, lines, line, starts)
    requires measure(line + " " + words[k]) > width
    ensures Filled(words, width, measure, k + 1, lines + [line], words[k], starts + [k])
  {
    JoinTake(words, starts[|starts| - 1], k);
    assert words[k..k + 1] == [words[k]];
    var longer := starts + [k];
    forall i | 0 <= i < |lines| + 1
      ensures Overflows(words, width, measure, longer, i) && (lines + [line])[i] == Line(words, longer, i)
    {
      if i < |lines| { assert Overflows(words, width, measure, starts, i) && lines[i] == Line(words, starts, i); }
    }
  }

  lemma HoldsMore(lines: seq<string>, line: string, text: string, more: string)
    requires Holds(lines, line, text) && (forall c :: c in more ==> c != ' ')
    ensures Holds(lines, line + more, text + more) && Holds(lines, line + " " + more, text + more)
    ensures Holds(lines + [line], more, text + more)
  {
    var before := Flat(lines) + line;
    NothingToDrop(more);
    WithoutSpacesAppend(before, more);
    assert before + more == Flat(lines) + (line + more);
    WithoutSpacesAppend(before, " " + more);
    WithoutSpacesAppend(" ", more);
    assert WithoutSpaces(" ") == "";
    assert before + (" " + more) == Flat(lines) + (line + " " + more);
    FlatAppend(lines, line);
  }

  // ---- why each line ends where it does ----

  /** Why a line was closed before `next`: inside a wide word at a grapheme, or else before a word, that did not fit. */
  predicate Full(inside: bool, line: string, next: string, words: seq<string>, width: real, measure: Measure,
                 segment: string -> seq<string>)
  {
    exists word :: word in words &&
      if inside then measure(word) > width && SplitsAt(line, next, segment(word), width, measure)
      else measure(line + " " + word) > width && Opens(word, next, width, measure, segment)
  }

  /** The next line opens with a later grapheme, which did not fit. */
  predicate SplitsAt(line: string, next: string, characters: seq<string>, width: real, measure: Measure) {
    exists k :: 0 < k < |characters| && characters[k] <= next && measure(line + characters[k]) > width
  }

  /** The next line opens with the word, or with its first grapheme when the word is too wide for any line. */
  predicate Opens(word: string, next: string, width: real, measure: Measure, segment: string -> seq<string>) {
    word <= next || (measure(word) > width && segment(word) != [] && segment(word)[0] <= next)
  }

  function NextLine(lines: seq<string>, line: string, i: nat): string
    requires i < |lines|
  {
    if i + 1 < |lines| then lines[i + 1] else line
  }

  /** No line was closed early; `inside` marks those closed inside a word. */
  predicate Tight(lines: seq<string>, line: string, inside: seq<bool>, words: seq<string>, width: real,
                  measure: Measure, segment: string -> seq<string>)
  {
    && |inside| == |lines|
    && forall i :: 0 <= i < |lines| ==>
         Full(inside[i], lines[i], NextLine(lines, line, i), words, width, measure, segment)
  }

  /** The closed lines with the space put back after each that was not closed inside a word. */
  function Rejoined(lines: seq<string>, inside: seq<bool>): string
    requires |inside| == |lines|
  {
    if lines == [] then ""
    else
      var n := |lines| - 1;
      Rejoined(lines[..n], inside[..n]) + lines[n] + if inside[n] then "" else " "
  }

  lemma RejoinedNext(lines: seq<string>, inside: seq<bool>, line: string, split: bool)
    requires |inside| == |lines|
    ensures Rejoined(lines + [line], inside + [split])
              == Rejoined(lines, inside) + line + if split then "" else " "
  {
  }

  /** A line in progress only grows, so the reason for closing the line before it stands. */
  lemma FullGrows(inside: bool, line: string, next: string, more: string, words: seq<string>, width: real,
                  measure: Measure, segment: string -> seq<string>)
    requires Full(inside, line, next, words, width, measure, segment)
    ensures Full(inside, line, next + more, words, width, measure, segment)
  {
    var word :| word in words &&
      if inside then measure(word) > width && SplitsAt(line, next, segment(word), width, measure)
      else measure(line + " " + word) > width && Opens(word, next, width, measure, segment);
    if inside {
      var k :| 0 < k < |segment(word)| && segment(word)[k] <= next && measure(line + segment(word)[k]) > width;
      assert segment(word)[k] <= next + more;
      assert SplitsAt(line, next + more, segment(word), width, measure);
    } else {
      assert Opens(word, next + more, width, measure, segment);
    }
  }

  lemma TightGrows(lines: seq<string>, line: string, more: string, inside: seq<bool>, words: seq<string>,
                   width: real, measure: Measure, segment: string -> seq<string>)
    requires Tight(lines, line, inside, words, width, measure, segment)
    ensures Tight(lines, line + more, inside, words, width, measure, segment)
  {
    if lines != [] {
      var n := |lines| - 1;
      assert NextLine(lines, line, n) == line;
      FullGrows(inside[n], lines[n], line, more, words, width, measure, segment);
    }
  }

  lemma TightBreaks(lines: seq<string>, line: string, next: string, inside: seq<bool>, split: bool,
                    words: seq<string>, width: real, measure: Measure, segment: string -> seq<string>)
    requires Tight(lines, line, inside, words, width, measure, segment)
    requires Full(split, line, next, words, width, measure, segment)
    ensures Tight(lines + [line], next, inside + [split], words, width, measure, segment)
  {
    forall i | 0 <= i <= |lines|
      ensures Full((inside + [split])[i], (lines + [line])[i], NextLine(lines + [line], next, i), words, width, measure,
                   segment)
    {
      if i < |lines| {
        assert NextLine(lines, line, i) == NextLine(lines + [line], next, i);
        assert Full(inside[i], lines[i], NextLine(lines, line, i), words, width, measure, segment);
      }
    }
  }

  /** The lines and the current one are the text with a break at each line end, and no line was closed early. */
  predicate Broken(lines: seq<string>, line: string, inside: seq<bool>, text: string, words: seq<string>, width: real,
                   measure: Measure, segment: string -> seq<string>)
  {
    && Tight(lines, line, inside, words, width, measure, segment)
    && Rejoined(lines, inside) + line == text
  }

  lemma BrokenGrows(lines: seq<string>, line: string, inside: seq<bool>, text: string, more: string,
                    words: seq<string>, width: real, measure: Measure, segment: string -> seq<string>)
    requires Broken(lines, line, inside, text, words, width, measure, segment)
    ensures Broken(lines, line + more, inside, text + more, words, width, measure, segment)
  {
    TightGrows(lines, line, more, inside, words, width, measure, segment);
    assert Rejoined(lines, inside) + (line + more) == Rejoined(lines, inside) + line + more;
  }

  lemma BrokenBreaks(lines: seq<string>, line: string, inside: seq<bool>, split: bool, text: string, next: string,
                     words: seq<string>, width: real, measure: Measure, segment: string -> seq<string>)
    requires Broken(lines, line, inside, text, words, width, measure, segment)
    requires Full(split, line, next, words, width, measure, segment)
    ensures Broken(lines + [line], next, inside + [split], text + (if split then "" else " ") + next, words, width,
                   measure, segment)
  {
    TightBreaks(lines, line, next, inside, split, words, width, measure, segment);
    RejoinedNext(lines, inside, line, split);
  }

  /** One grapheme more of a wide word, on the line if it fits there and opening the next one otherwise. */
  lemma BrokenSplits(lines: seq<string>, line: string, inside: seq<bool>, joined: string, word: string, k: nat,
                     words: seq<string>, width: real, measure: Measure, segment: string -> seq<string>)
    requires word in words && measure(word) > width && 0 < k < |segment(word)|
    requires Broken(lines, line, inside, joined + Flat(segment(word)[..k]), words, width, measure, segment)
    ensures var character := segment(word)[k];
            var text := joined + Flat(segment(word)[..k + 1]);
            if measure(line + character) > width
            then Broken(lines + [line], character, inside + [true], text, words, width, measure, segment)
            else Broken(lines, line + character, inside, text, words, width, measure, segment)
  {
    var character, sofar := segment(word)[k], joined + Flat(segment(word)[..k]);
    FlatTake(segment(word), k);
    assert sofar + character == joined + Flat(segment(word)[..k + 1]);
    if measure(line + character) > width {
      assert SplitsAt(line, character, segment(word), width, measure);
      BrokenBreaks(lines, line, inside, true, sofar, character, words, width, measure, segment);
      assert sofar + "" + character == sofar + character;
    } else {
      BrokenGrows(lines, line, inside, sofar, character, words, width, measure, segment);
    }
  }

  lemma GraphemeHasNoSpace(segment: string -> seq<string>, word: string, k: nat)
    requires Segments(segment) && k < |segment(word)| && forall c :: c in word ==> c != ' '
    ensures forall c :: c in segment(word)[k] ==> c != ' '
  {
    InFlat(segment(word), k);
  }

  lemma {:induction false} InFlat(parts: seq<string>, k: nat)
    requires k < |parts|
    ensures forall c :: c in parts[k] ==> c in Flat(parts)
  {
    if k < |parts| - 1 { InFlat(parts[..|parts| - 1], k); }
  }

  /** Everything known about the lines after k graphemes of a wide word. */
  ghost predicate Halfway(word: string, k: nat, lines: seq<string>, line: string, inside: seq<bool>, text: string,
                          joined: string, words: seq<string>, width: real, measure: Measure,
                          segment: string -> seq<string>)
    requires k <= |segment(word)|
  {
    && LinesFit(lines, words, width, measure, segment)
    && line != "" && LineFits(line, words, width, measure, segment)
    && Holds(lines, line, text + Flat(segment(word)[..k]))
    && Broken(lines, line, inside, joined + Flat(segment(word)[..k]), words, width, measure, segment)
  }

  lemma HoldsGrapheme(word: string, k: nat, lines: seq<string>, line: string, text: string,
                      segment: string -> seq<string>)
    requires Segments(segment) && k < |segment(word)| && forall c :: c in word ==> c != ' '
    requires Holds(lines, line, text + Flat(segment(word)[..k]))
    ensures Holds(lines, line + segment(word)[k], text + Flat(segment(word)[..k + 1]))
    ensures Holds(lines + [line], segment(word)[k], text + Flat(segment(word)[..k + 1]))
  {
    var character := segment(word)[k];
    GraphemeHasNoSpace(segment, word, k);
    HoldsMore(lines, line, text + Flat(segment(word)[..k]), character);
    FlatTake(segment(word), k);
    assert text + Flat(segment(word)[..k]) + character == text + Flat(segment(word)[..k + 1]);
  }

  lemma HalfwayStarts(word: string, lines: seq<string>, inside: seq<bool>, text: string, joined: string,
                      words: seq<string>, width: real, measure: Measure, segment: string -> seq<string>)
    requires Segments(segment) && word in words && (forall c :: c in word ==> c != ' ') && segment(word) != []
    requires LinesFit(lines, words, width, measure, segment) && Holds(lines, "", text)
    requires Broken(lines, segment(word)[0], inside, joined + segment(word)[0], words, width, measure, segment)
    ensures Halfway(word, 1, lines, segment(word)[0], inside, text, joined, words, width, measure, segment)
  {
    var character := segment(word)[0];
    assert Flat(segment(word)[..0]) == "" && text + "" == text && "" + character == character;
    HoldsGrapheme(word, 0, lines, "", text, segment);
    assert Flat(segment(word)[..1]) == character by { FlatTake(segment(word), 0); }
    assert character in segment(word);
  }

  lemma HalfwayNext(word: string, k: nat, lines: seq<string>, line: string, inside: seq<bool>, text: string,
                    joined: string, words: seq<string>, width: real, measure: Measure,
                    segment: string -> seq<string>)
    requires Segments(segment) && word in words && (forall c :: c in word ==> c != ' ') && measure(word) > width
    requires 0 < k < |segment(word)|
    requires Halfway(word, k, lines, line, inside, text, joined, words, width, measure, segment)
    ensures var character := segment(word)[k];
            if measure(line + character) > width
            then Halfway(word, k + 1, lines + [line], character, inside + [true], text, joined, words, width, measure,
                         segment)
            else Halfway(word, k + 1, lines, line + character, inside, text, joined, words, width, measure, segment)
  {
    HoldsGrapheme(word, k, lines, line, text, segment);
    BrokenSplits(lines, line, inside, joined, word, k, words, width, measure, segment);
    assert segment(word)[k] in segment(word);
  }

  /** Puts a word that is wider than a line down grapheme by grapheme. */
  method SplitWord(word: string, words: seq<string>, width: real, measure: Measure, segment: string -> seq<string>,
                   before: seq<string>, text: string, ghost earlier: seq<bool>, ghost joined: string)
    returns (lines: seq<string>, line: string, ghost inside: seq<bool>)
    requires Segments(segment) && word in words && (forall c :: c in word ==> c != ' ')
    requires LinesFit(before, words, width, measure, segment) && Holds(before, "", text)
    requires word != "" && measure(word) > width && segment(word) != []
    requires Broken(before, segment(word)[0], earlier, joined + segment(word)[0], words, width, measure, segment)
    ensures LinesFit(lines, words, width, measure, segment) && Holds(lines, line, text + word)
    ensures line != "" && LineFits(line, words, width, measure, segment)
    ensures Broken(lines, line, inside, joined + word, words, width, measure, segment)
  {
    lines, line, inside := before, "", earlier;
    var characters := segment(word);
    for k := 0 to |characters|
      invariant k == 0 ==> lines == before && line == "" && inside == earlier
      invariant k > 0 ==>
                  Halfway(word, k, lines, line, inside, text, joined, words, width, measure, segment)
    {
      var character := characters[k];
      if k == 0 {
        HalfwayStarts(word, lines, inside, text, joined, words, width, measure, segment);
      } else {
        HalfwayNext(word, k, lines, line, inside, text, joined, words, width, measure, segment);
      }
      if line != "" && measure(line + character) > width {
        lines, line, inside := lines + [line], "", inside + [true];
      }
      assert "" + character == character;
      line := line + character;
    }
    assert characters[..|characters|] == characters;
  }

  /** Everything known about the lines after the first k words. */
  ghost predicate Standing(words: seq<string>, width: real, measure: Measure, segment: string -> seq<string>,
                           k: nat, lines: seq<string>, line: string, starts: seq<nat>, inside: seq<bool>)
    requires k <= |words|
  {
    && LinesFit(lines, words, width, measure, segment)
    && Holds(lines, line, Flat(words[..k]))
    && (if k == 0 then lines == [] && line == "" && inside == []
        else
          && line != "" && LineFits(line, words, width, measure, segment)
          && Broken(lines, line, inside, Join(words[..k]), words, width, measure, segment))
    && (WordsFit(words, width, measure) ==> Filled(words, width, measure, k, lines, line, starts))
  }

  /** What stands before word k in the joined text. */
  function Before(words: seq<string>, k: nat): string
    requires k <= |words|
  {
    if k == 0 then "" else Join(words[..k]) + " "
  }

  lemma BeforeJoins(words: seq<string>, k: nat)
    requires k < |words|
    ensures Join(words[..k + 1]) == Before(words, k) + words[k]
  {
    if k > 0 { JoinTake(words, 0, k); }
  }

  /** The first word is the first line. */
  lemma BrokenFirst(words: seq<string>, width: real, measure: Measure, segment: string -> seq<string>)
    requires words != []
    ensures Broken([], words[0], [], Join(words[..1]), words, width, measure, segment)
  {
    BeforeJoins(words, 0);
    assert Rejoined([], []) + words[0] == words[0];
  }

  /** A word that fits beside the line extends it. */
  lemma BrokenFits(words: seq<string>, k: nat, lines: seq<string>, line: string, inside: seq<bool>, width: real,
                   measure: Measure, segment: string -> seq<string>)
    requires 0 < k < |words| && Broken(lines, line, inside, Join(words[..k]), words, width, measure, segment)
    ensures Broken(lines, line + " " + words[k], inside, Join(words[..k + 1]), words, width, measure, segment)
  {
    var text, more := Join(words[..k]), " " + words[k];
    BrokenGrows(lines, line, inside, text, more, words, width, measure, segment);
    assert line + more == line + " " + words[k];
    assert text + more == Join(words[..k + 1]) by { BeforeJoins(words, k); }
  }

  /** Before a word that did not fit, the line is closed and the next one opens. */
  lemma BrokenCloses(words: seq<string>, k: nat, lines: seq<string>, line: string, inside: seq<bool>, next: string,
                     width: real, measure: Measure, segment: string -> seq<string>)
    requires 0 < k < |words| && Broken(lines, line, inside, Join(words[..k]), words, width, measure, segment)
    requires measure(line + " " + words[k]) > width && Opens(words[k], next, width, measure, segment)
    ensures Broken(lines + [line], next, inside + [false], Before(words, k) + next, words, width, measure, segment)
  {
    assert words[k] in words;
    BrokenBreaks(lines, line, inside, false, Join(words[..k]), next, words, width, measure, segment);
  }

  lemma SomeGrapheme(segment: string -> seq<string>, word: string)
    requires Segments(segment) && word != ""
    ensures segment(word) != []
  {
  }

  method PlaceWord(words: seq<string>, width: real, measure: Measure, segment: string -> seq<string>, k: nat,
                   before: seq<string>, current: string, ghost starts: seq<nat>, ghost earlier: seq<bool>)
    returns (lines: seq<string>, line: string, ghost starts': seq<nat>, ghost inside: seq<bool>)
    requires Segments(segment) && k < |words| && words[k] != "" && (forall c :: c in words[k] ==> c != ' ')
    requires Standing(words, width, measure, segment, k, before, current, starts, earlier)
    ensures Standing(words, width, measure, segment, k + 1, lines, line, starts', inside)
  {
    var word := words[k];
    lines, line, starts', inside := before, current, starts, earlier;
    ghost var fits := WordsFit(words, width, measure);
    FlatTake(words, k);
    HoldsMore(lines, line, Flat(words[..k]), word);
    BeforeJoins(words, k);
    assert "" + word == word;
    var candidate := if line != "" then line + " " + word else word;
    if measure(candidate) <= width {
      if fits { FilledExtends(words, width, measure, k, lines, line, starts); }
      if k == 0 {
        BrokenFirst(words, width, measure, segment);
      } else {
        BrokenFits(words, k, lines, line, inside, width, measure, segment);
      }
      line := candidate;
      return;
    }
    SomeGrapheme(segment, word);
    ghost var opening := if measure(word) <= width then word else segment(word)[0];
    if line != "" {
      if fits {
        FilledBreaks(words, width, measure, k, lines, line, starts);
        starts' := starts + [k];
      }
      HoldsMore(lines, line, Flat(words[..k]), "");
      BrokenCloses(words, k, lines, line, inside, opening, width, measure, segment);
      lines, line, inside := lines + [line], "", inside + [false];
    }
    if measure(word) <= width {
      line := word;
      return;
    }
    lines, line, inside :=
      SplitWord(word, words, width, measure, segment, lines, Flat(words[..k]), inside, Before(words, k));
  }

  /** With every word fitting, the lines in progress and the last line are a wrapping. */
  lemma CompleteWrapping(words: seq<string>, width: real, measure: Measure, lines: seq<string>, line: string,
                         starts: seq<nat>)
    requires Filled(words, width, measure, |words|, lines, line, starts) && words != []
    ensures LinesOf(words, starts + [|words|], lines + [line])
  {
    var cuts := starts + [|words|];
    Ascending(words, width, measure, starts);
    assert Cuts(words, cuts);
    forall i | 0 <= i < |lines| + 1 ensures (lines + [line])[i] == Line(words, cuts, i) {
      if i < |lines| { assert Overflows(words, width, measure, starts, i); }
    }
  }

  lemma {:induction false} Ascending(words: seq<string>, width: real, measure: Measure, starts: seq<nat>)
    requires Greedy(words, width, measure, starts)
    ensures forall i, j :: 0 <= i <= j < |starts| ==> starts[i] <= starts[j]
  {
    if |starts| > 1 {
      var n := |starts| - 1;
      assert Overflows(words, width, measure, starts, n - 1);
      forall i | 0 <= i < n - 1 ensures Overflows(words, width, measure, starts[..n], i) {
        assert Overflows(words, width, measure, starts, i);
      }
      Ascending(words, width, measure, starts[..n]);
    }
  }

  /** The text is the lines with a space put back after each not closed inside a word, and none was closed early. */
  predicate Layout(all: seq<string>, inside: seq<bool>, words: seq<string>, width: real, measure: Measure,
                   segment: string -> seq<string>)
  {
    if all == [] then words == []
    else Broken(all[..|all| - 1], all[|all| - 1], inside, Join(words), words, width, measure, segment)
  }

  lemma HoldsAll(lines: seq<string>, line: string, text: string)
    requires Holds(lines, line, text)
    ensures WithoutSpaces(Flat(if line != "" then lines + [line] else lines)) == text
  {
    FlatAppend(lines, line);
    assert Flat(lines) + "" == Flat(lines);
  }

  lemma LayoutDone(words: seq<string>, width: real, measure: Measure, segment: string -> seq<string>,
                   lines: seq<string>, line: string, inside: seq<bool>)
    requires if words == [] then lines == [] && line == ""
             else line != "" && Broken(lines, line, inside, Join(words), words, width, measure, segment)
    ensures Layout(if line != "" then lines + [line] else lines, inside, words, width, measure, segment)
  {
    assert (lines + [line])[..|lines|] == lines;
  }

  /** Emitting the last line completes all promises. */
  lemma Complete(words: seq<string>, width: real, measure: Measure, segment: string -> seq<string>,
                 lines: seq<string>, line: string, starts: seq<nat>, inside: seq<bool>)
    requires Standing(words, width, measure, segment, |words|, lines, line, starts, inside)
    ensures var all := if line != "" then lines + [line] else lines;
            && LinesFit(all, words, width, measure, segment)
            && WithoutSpaces(Flat(all)) == Flat(words)
            && Layout(all, inside, words, width, measure, segment)
            && (WordsFit(words, width, measure) ==> exists cuts :: LinesOf(words, cuts, all))
            && (WordsFit(words, width, measure) && Monotone(words, measure) ==>
                  forall cuts :: Wrapping(words, width, measure, cuts) ==> |all| <= |cuts| - 1)
  {
    assert words[..|words|] == words;
    HoldsAll(lines, line, Flat(words));
    LayoutDone(words, width, measure, segment, lines, line, inside);
    if WordsFit(words, width, measure) {
      FewestLines(words, width, measure, lines, line, starts);
    }
  }

  lemma FewestLines(words: seq<string>, width: real, measure: Measure, lines: seq<string>, line: string,
                    starts: seq<nat>)
    requires Filled(words, width, measure, |words|, lines, line, starts) && (line == "" <==> words == [])
    ensures var all := if line != "" then lines + [line] else lines;
            && (exists cuts :: LinesOf(words, cuts, all))
            && (Monotone(words, measure) ==>
                  forall cuts :: Wrapping(words, width, measure, cuts) ==> |all| <= |cuts| - 1)
  {
    if words == [] {
      assert LinesOf(words, [0], lines);
    } else {
      CompleteWrapping(words, width, measure, lines, line, starts);
      if Monotone(words, measure) {
        forall cuts | Wrapping(words, width, measure, cuts) ensures |starts| <= |cuts| - 1 {
          GreedyIsOptimal(words, width, measure, starts, cuts);
        }
      }
    }
  }

  /**
   * Wraps the words of a text. Every line fits or is one grapheme; the lines are the text broken at spaces or
   * inside words wider than a line; and no line ends before something does not fit on it.
   */
  method WrapImageText(text: string, width: real, measure: Measure, segment: string -> seq<string>)
    returns (lines: seq<string>, ghost inside: seq<bool>)
    requires Segments(segment)
    ensures LinesFit(lines, Words(text), width, measure, segment)
    ensures WithoutSpaces(Flat(lines)) == Visible(text)
    ensures Layout(lines, inside, Words(text), width, measure, segment)
    ensures WordsFit(Words(text), width, measure) ==> exists cuts :: LinesOf(Words(text), cuts, lines)
    ensures WordsFit(Words(text), width, measure) && Monotone(Words(text), measure) ==>
              forall cuts :: Wrapping(Words(text), width, measure, cuts) ==> |lines| <= |cuts| - 1
  {
    var words := Words(text);
    WordsHoldText(text);
    lines, inside := [], [];
    var line := "";
    ghost var starts: seq<nat> := [0];
    for k := 0 to |words|
      invariant Standing(words, width, measure, segment, k, lines, line, starts, inside)
    {
      assert words[k] in words && forall c :: c in words[k] ==> !IsBreak(c);
      lines, line, starts, inside := PlaceWord(words, width, measure, segment, k, lines, line, starts, inside);
    }
    Complete(words, width, measure, segment, lines, line, starts, inside);
    if line != "" { lines := lines + [line]; }
  }
}
