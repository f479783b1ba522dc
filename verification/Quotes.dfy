/** MediaWiki's doQuotes: runs of apostrophes in a line become bold and italic tags. */
module Quotes {
  import opened Wrappers
  import opened Bytes
  import opened Markup

  const APOSTROPHE := '\''

  // ---- the pieces of a line: text at even places, runs of two or more apostrophes at odd ones

  predicate IsRun(s: string) { forall i :: 0 <= i < |s| ==> s[i] == APOSTROPHE }

  predicate PairAt(s: string, i: nat) { i + 1 < |s| && s[i] == s[i + 1] == APOSTROPHE }

  /** Where the first two apostrophes in a row are from `i` on, or -1. */
  function FirstPair(s: string, i: nat): (p: int)
    requires i <= |s|
    ensures p == -1 || (i <= p && PairAt(s, p))
    decreases |s| - i
  {
    if i == |s| then -1 else if PairAt(s, i) then i else FirstPair(s, i + 1)
  }

  lemma {:induction false} FirstPairIsFirst(s: string, i: nat, j: nat)
    requires i <= j && PairAt(s, j)
    ensures i <= FirstPair(s, i) <= j
    decreases |s| - i
  {
    if !PairAt(s, i) {
      FirstPairIsFirst(s, i + 1, j);
    }
  }

  /** Where the apostrophes at `i` end. */
  function RunEnd(s: string, i: nat): (n: nat)
    requires i <= |s|
    ensures i <= n <= |s|
    ensures PairAt(s, i) ==> n >= i + 2
    decreases |s| - i
  {
    if i == |s| || s[i] != APOSTROPHE then i else RunEnd(s, i + 1)
  }

  lemma {:induction false} RunEndIsEnd(s: string, i: nat)
    requires i <= |s|
    ensures IsRun(s[i..RunEnd(s, i)]) && (RunEnd(s, i) < |s| ==> s[RunEnd(s, i)] != APOSTROPHE)
    decreases |s| - i
  {
    if i < |s| && s[i] == APOSTROPHE {
      RunEndIsEnd(s, i + 1);
      assert s[i..RunEnd(s, i)] == [s[i]] + s[i + 1..RunEnd(s, i)];
    }
  }

  function SplitFrom(text: string, i: nat): seq<string>
    requires i <= |text|
    decreases |text| - i
  {
    var p := FirstPair(text, i);
    if p == -1 then [text[i..]] else [text[i..p], text[p..RunEnd(text, p)]] + SplitFrom(text, RunEnd(text, p))
  }

  /** preg_split( "/(''+)/", text, -1, PREG_SPLIT_DELIM_CAPTURE ) */
  function SplitRuns(text: string): seq<string> { SplitFrom(text, 0) }

  lemma {:induction false} SplitAlternates(text: string, i: nat)
    requires i <= |text|
    ensures Alternates(SplitFrom(text, i))
    decreases |text| - i
  {
    var p := FirstPair(text, i);
    if p != -1 {
      var n := RunEnd(text, p);
      RunEndIsEnd(text, p);
      SplitAlternates(text, n);
      AlternatesFrontTwo(text[i..p], text[p..n], SplitFrom(text, n));
    }
  }

  lemma JoinParts(text: string, i: nat, p: nat, n: nat)
    requires i <= p <= n <= |text|
    ensures text[i..p] + text[p..n] + text[n..] == text[i..]
  {
    assert text[i..p] + text[p..n] == text[i..n];
  }

  lemma {:induction false} SplitJoins(text: string, i: nat)
    requires i <= |text|
    ensures Join(SplitFrom(text, i)) == text[i..]
    decreases |text| - i
  {
    var p := FirstPair(text, i);
    if p == -1 {
      assert Join([text[i..]]) == text[i..];
    } else {
      var n := RunEnd(text, p);
      SplitJoins(text, n);
      JoinFrontTwo(text[i..p], text[p..n], SplitFrom(text, n));
      JoinParts(text, i, p, n);
    }
  }

  /** The pieces alternate between text and runs, and make up the line. */
  lemma SplitRunsIsSplit(text: string)
    ensures Alternates(SplitRuns(text)) && Join(SplitRuns(text)) == text
  {
    SplitAlternates(text, 0);
    SplitJoins(text, 0);
  }

  lemma AlternatesFrontTwo(a: string, b: string, rest: seq<string>)
    requires Alternates(rest) && IsRun(b) && |b| >= 2
    ensures Alternates([a, b] + rest)
  {
  }

  lemma JoinFrontTwo(a: string, b: string, rest: seq<string>)
    ensures Join([a, b] + rest) == a + b + Join(rest)
  {
    assert ([a, b] + rest)[1..] == [b] + rest && ([b] + rest)[1..] == rest;
    Associative(a, b, Join(rest));
  }

  predicate Alternates(arr: seq<string>) {
    |arr| % 2 == 1 && forall i :: 0 <= i < |arr| && i % 2 == 1 ==> IsRun(arr[i]) && |arr[i]| >= 2
  }

  /** Runs as they are marked up: italic, bold, or both. */
  predicate MarksUp(arr: seq<string>) {
    |arr| % 2 == 1 && forall i :: 0 <= i < |arr| && i % 2 == 1 ==> IsRun(arr[i]) && |arr[i]| in {2, 3, 5}
  }

  // ---- first pass: what is left of a run, and what of it becomes text

  function Repeat(c: char, n: nat): (s: string)
    ensures |s| == n && forall i :: 0 <= i < n ==> s[i] == c
  {
    if n == 0 then [] else [c] + Repeat(c, n - 1)
  }

  function Kept(run: string): string {
    if |run| == 4 then "'''" else if |run| > 5 then "'''''" else run
  }

  function Moved(run: string): string {
    if |run| == 4 then "'" else if |run| > 5 then Repeat(APOSTROPHE, |run| - 5) else ""
  }

  function NormalPiece(arr: seq<string>, i: nat): string
    requires i < |arr|
  {
    if i % 2 == 1 then Kept(arr[i]) else if i + 1 < |arr| then arr[i] + Moved(arr[i + 1]) else arr[i]
  }

  function Normalised(arr: seq<string>): seq<string> {
    seq(|arr|, i requires 0 <= i < |arr| => NormalPiece(arr, i))
  }

  lemma KeptMarksUp(run: string)
    requires IsRun(run) && |run| >= 2
    ensures IsRun(Kept(run)) && |Kept(run)| in {2, 3, 5} && Moved(run) + Kept(run) == run
  {
  }

  lemma NormalisedMarksUp(arr: seq<string>)
    requires Alternates(arr)
    ensures MarksUp(Normalised(arr))
  {
    forall i | 0 <= i < |arr| && i % 2 == 1
      ensures IsRun(Normalised(arr)[i]) && |Normalised(arr)[i]| in {2, 3, 5}
    {
      KeptMarksUp(arr[i]);
    }
  }

  lemma NormalisedFrontTwo(a: string, b: string, rest: seq<string>)
    requires |rest| % 2 == 1
    ensures Normalised([a, b] + rest) == [a + Moved(b), Kept(b)] + Normalised(rest)
  {
  }

  /** Moving apostrophes from a run to the text in front of it does not change the line. */
  lemma {:induction false} NormalisedKeepsText(arr: seq<string>)
    requires Alternates(arr)
    ensures Join(Normalised(arr)) == Join(arr)
  {
    if |arr| > 1 {
      var a, b, rest := arr[0], arr[1], arr[2..];
      assert forall i :: 0 <= i < |rest| ==> rest[i] == arr[i + 2];
      NormalisedKeepsText(rest);
      assert arr == [a, b] + rest;
      NormalisedFrontTwo(a, b, rest);
      JoinFrontTwo(a, b, rest);
      JoinFrontTwo(a + Moved(b), Kept(b), Normalised(rest));
      KeptMarksUp(b);
      Associative(a, Moved(b), Kept(b));
    } else {
      assert Normalised(arr) == arr;
    }
  }

  predicate TogglesBold(run: string) { |run| == 3 || |run| == 5 }

  predicate TogglesItalic(run: string) { |run| == 2 || |run| == 5 }

  /** How many of the first `n` pieces mark up bold, and how many italics. */
  function Bolds(arr: seq<string>, n: nat): nat
    requires n <= |arr|
  {
    if n == 0 then 0
    else Bolds(arr, n - 1) + if n % 2 == 0 && TogglesBold(arr[n - 1]) then 1 else 0
  }

  function Italics(arr: seq<string>, n: nat): nat
    requires n <= |arr|
  {
    if n == 0 then 0
    else Italics(arr, n - 1) + if n % 2 == 0 && TogglesItalic(arr[n - 1]) then 1 else 0
  }

  lemma {:induction false} CountsSeePrefix(a: seq<string>, b: seq<string>, n: nat)
    requires n <= |a| && n <= |b| && forall i :: 0 <= i < n && i % 2 == 1 ==> a[i] == b[i]
    ensures Bolds(a, n) == Bolds(b, n) && Italics(a, n) == Italics(b, n)
  {
    if n > 0 {
      CountsSeePrefix(a, b, n - 1);
    }
  }

  /** The run `i` and the text in front of it have changed as the first pass has it, and nothing else. */
  predicate Shifted(pieces: seq<string>, i: nat, arr: seq<string>)
    requires 0 < i < |pieces|
  {
    && |arr| == |pieces|
    && arr[i - 1] == pieces[i - 1] + Moved(pieces[i])
    && arr[i] == Kept(pieces[i])
    && forall j :: 0 <= j < |arr| && j != i && j != i - 1 ==> arr[j] == pieces[j]
  }

  /** Leaves the last three or five apostrophes of a run and puts the others behind the text before it. */
  method ShiftRun(pieces: seq<string>, i: nat) returns (arr: seq<string>)
    requires i < |pieces| && i % 2 == 1
    ensures Shifted(pieces, i, arr)
  {
    arr := pieces;
    if |arr[i]| == 4 {
      arr := arr[i - 1 := arr[i - 1] + "'"];
      arr := arr[i := "'''"];
    } else if |arr[i]| > 5 {
      arr := arr[i - 1 := arr[i - 1] + Repeat(APOSTROPHE, |arr[i]| - 5)];
      arr := arr[i := "'''''"];
    } else {
      assert pieces[i - 1] + "" == pieces[i - 1];
    }
  }

  predicate DoneTo(pieces: seq<string>, piece: string, i: int, j: nat)
    requires j < |pieces|
  {
    piece == if (if j % 2 == 1 then j < i else j + 1 < i) then NormalPiece(pieces, j) else pieces[j]
  }

  /** The loop below has come to piece `i`: a text is done with when the run behind it is. */
  ghost predicate NormalisedTo(pieces: seq<string>, arr: seq<string>, i: int) {
    |arr| == |pieces| && forall j :: 0 <= j < |arr| ==> DoneTo(pieces, arr[j], i, j)
  }

  lemma DoneNext(pieces: seq<string>, piece: string, i: nat, j: nat)
    requires i < |pieces| && j < |pieces| && DoneTo(pieces, piece, i, j)
    requires i % 2 == 1 ==> j != i && j != i - 1
    ensures DoneTo(pieces, piece, i + 1, j)
  {
  }

  lemma DoneRun(pieces: seq<string>, text: string, run: string, i: nat)
    requires i < |pieces| && i % 2 == 1 && DoneTo(pieces, text, i, i - 1) && DoneTo(pieces, run, i, i)
    ensures DoneTo(pieces, text + Moved(run), i + 1, i - 1) && DoneTo(pieces, Kept(run), i + 1, i)
  {
  }

  lemma NormalisedToNext(pieces: seq<string>, arr: seq<string>, i: nat, next: seq<string>)
    requires NormalisedTo(pieces, arr, i) && i < |arr|
    requires if i % 2 == 1 then Shifted(arr, i, next) else next == arr
    ensures NormalisedTo(pieces, next, i + 1)
  {
    if i % 2 == 1 {
      assert DoneTo(pieces, arr[i - 1], i, i - 1) && DoneTo(pieces, arr[i], i, i);
      DoneRun(pieces, arr[i - 1], arr[i], i);
    }
    forall j | 0 <= j < |next|
      ensures DoneTo(pieces, next[j], i + 1, j)
    {
      if i % 2 == 0 || (j != i && j != i - 1) {
        assert DoneTo(pieces, arr[j], i, j);
        DoneNext(pieces, arr[j], i, j);
      }
    }
  }

  method CountRun(run: string, bold: nat, italics: nat) returns (numbold: nat, numitalics: nat)
    ensures numbold == bold + if TogglesBold(run) then 1 else 0
    ensures numitalics == italics + if TogglesItalic(run) then 1 else 0
  {
    numbold, numitalics := bold, italics;
    if |run| == 2 {
      numitalics := numitalics + 1;
    } else if |run| == 3 {
      numbold := numbold + 1;
    } else if |run| == 5 {
      numitalics := numitalics + 1;
      numbold := numbold + 1;
    }
  }

  lemma CountsStep(arr: seq<string>, i: nat)
    requires i < |arr|
    ensures Bolds(arr, i + 1) == Bolds(arr, i) + if i % 2 == 1 && TogglesBold(arr[i]) then 1 else 0
    ensures Italics(arr, i + 1) == Italics(arr, i) + if i % 2 == 1 && TogglesItalic(arr[i]) then 1 else 0
  {
  }

  predicate Counted(arr: seq<string>, n: int, numbold: nat, numitalics: nat) {
    0 <= n <= |arr| && numbold == Bolds(arr, n) && numitalics == Italics(arr, n)
  }

  lemma ShiftKeepsCounts(before: seq<string>, i: nat, arr: seq<string>)
    requires 0 < i < |before| && Shifted(before, i, arr) && i % 2 == 1
    ensures Bolds(arr, i) == Bolds(before, i) && Italics(arr, i) == Italics(before, i)
  {
    forall k | 0 <= k < i && k % 2 == 1
      ensures before[k] == arr[k]
    {
      assert k != i - 1;
    }
    CountsSeePrefix(before, arr, i);
  }

  lemma AllNormalised(pieces: seq<string>, arr: seq<string>)
    requires NormalisedTo(pieces, arr, |arr|)
    ensures arr == Normalised(pieces)
  {
    forall j | 0 <= j < |arr|
      ensures arr[j] == Normalised(pieces)[j]
    {
      assert DoneTo(pieces, arr[j], |arr|, j);
    }
  }

  method Normalise(pieces: seq<string>) returns (arr: seq<string>, numbold: nat, numitalics: nat)
    ensures arr == Normalised(pieces)
    ensures numbold == Bolds(arr, |arr|) && numitalics == Italics(arr, |arr|)
  {
    arr := pieces;
    numbold, numitalics := 0, 0;
    for i := 0 to |arr|
      invariant NormalisedTo(pieces, arr, i)
      invariant Counted(arr, i, numbold, numitalics)
    {
      ghost var before := arr;
      if i % 2 == 1 {
        arr := ShiftRun(arr, i);
        ShiftKeepsCounts(before, i, arr);
        numbold, numitalics := CountRun(arr[i], numbold, numitalics);
      }
      CountsStep(arr, i);
      NormalisedToNext(pieces, before, i, arr);
    }
    AllNormalised(pieces, arr);
  }

  // ---- second pass: with an odd number of both, one bold run is an apostrophe and an italic one

  /** What stands in front of a bold run: a space, a word of one letter, or anything else. */
  datatype Before = Space | SingleLetter | MultiLetter

  function WordBefore(text: string): Before {
    if text != "" && text[|text| - 1] == ' ' then Space
    else if |text| >= 2 && text[|text| - 2] == ' ' then SingleLetter
    else MultiLetter
  }

  predicate IsBoldRun(arr: seq<string>, i: nat) { i < |arr| && i % 2 == 1 && |arr[i]| == 3 }

  /** The first bold run among the first `n` pieces with `w` in front, or -1. */
  function FirstBold(arr: seq<string>, w: Before, n: nat): (k: int)
    requires n <= |arr|
    ensures -1 <= k < n
    ensures k >= 0 ==> IsBoldRun(arr, k) && WordBefore(arr[k - 1]) == w
    ensures forall j :: 0 <= j < (if k == -1 then n else k) && IsBoldRun(arr, j) ==> WordBefore(arr[j - 1]) != w
  {
    if n == 0 then -1
    else
      var k := FirstBold(arr, w, n - 1);
      if k != -1 then k
      else if IsBoldRun(arr, n - 1) && WordBefore(arr[n - 2]) == w then n - 1
      else -1
  }

  /** Single-letter words come first, then other words, then spaces. */
  function Chosen(arr: seq<string>): (k: int)
    ensures -1 <= k < |arr|
    ensures k >= 0 ==> IsBoldRun(arr, k)
    ensures k == -1 ==> forall j :: 0 <= j < |arr| ==> !IsBoldRun(arr, j)
  {
    var n := |arr|;
    if FirstBold(arr, SingleLetter, n) > -1 then FirstBold(arr, SingleLetter, n)
    else if FirstBold(arr, MultiLetter, n) > -1 then FirstBold(arr, MultiLetter, n)
    else FirstBold(arr, Space, n)
  }

  predicate BothOdd(arr: seq<string>) {
    Bolds(arr, |arr|) % 2 == 1 && Italics(arr, |arr|) % 2 == 1
  }

  function Demoted(arr: seq<string>, k: nat): seq<string>
    requires IsBoldRun(arr, k)
  {
    arr[k := "''"][k - 1 := arr[k - 1] + "'"]
  }

  function Rebalanced(arr: seq<string>): seq<string> {
    if BothOdd(arr) && Chosen(arr) > -1 then Demoted(arr, Chosen(arr)) else arr
  }

  method Rebalance(pieces: seq<string>, numbold: nat, numitalics: nat) returns (arr: seq<string>)
    requires numbold == Bolds(pieces, |pieces|) && numitalics == Italics(pieces, |pieces|)
    ensures arr == Rebalanced(pieces)
  {
    arr := pieces;
    if numbold % 2 == 1 && numitalics % 2 == 1 {
      var firstsingleletterword, firstmultiletterword, firstspace := -1, -1, -1;
      for i := 0 to |arr|
        invariant firstsingleletterword == FirstBold(arr, SingleLetter, i)
        invariant firstmultiletterword == FirstBold(arr, MultiLetter, i)
        invariant firstspace == FirstBold(arr, Space, i)
      {
        if i % 2 == 1 && |arr[i]| == 3 {
          var w := WordBefore(arr[i - 1]);
          if w == Space {
            if firstspace == -1 {
              firstspace := i;
            }
          } else if w == SingleLetter {
            if firstsingleletterword == -1 {
              firstsingleletterword := i;
            }
          } else {
            if firstmultiletterword == -1 {
              firstmultiletterword := i;
            }
          }
        }
      }
      if firstsingleletterword > -1 {
        arr := Demoted(arr, firstsingleletterword);
      } else if firstmultiletterword > -1 {
        arr := Demoted(arr, firstmultiletterword);
      } else if firstspace > -1 {
        arr := Demoted(arr, firstspace);
      }
    }
  }

  lemma {:induction false} JoinChangesInTwo(arr: seq<string>, k: nat, a: string, b: string)
    requires 0 < k < |arr| && a + b == arr[k - 1] + arr[k]
    ensures Join(arr[k - 1 := a][k := b]) == Join(arr)
  {
    var changed := arr[k - 1 := a][k := b];
    if k == 1 {
      assert changed == [a, b] + arr[2..] && arr == [arr[0], arr[1]] + arr[2..];
      JoinFrontTwo(a, b, arr[2..]);
      JoinFrontTwo(arr[0], arr[1], arr[2..]);
    } else {
      JoinChangesInTwo(arr[1..], k - 1, a, b);
      assert changed[1..] == arr[1..][k - 2 := a][k - 1 := b];
    }
  }

  lemma {:induction false} DemotedCounts(arr: seq<string>, k: nat, n: nat)
    requires IsBoldRun(arr, k) && n <= |arr|
    ensures Bolds(Demoted(arr, k), n) == Bolds(arr, n) - (if n > k then 1 else 0)
    ensures Italics(Demoted(arr, k), n) == Italics(arr, n) + (if n > k then 1 else 0)
  {
    if n > 0 {
      DemotedCounts(arr, k, n - 1);
    }
  }

  /**
     The second pass keeps the line as well, and leaves bold and italics both odd only in a line that has
     no bold run to spare.
   */
  lemma RebalancedKeepsText(arr: seq<string>)
    requires MarksUp(arr)
    ensures var r := Rebalanced(arr);
            && MarksUp(r) && Join(r) == Join(arr)
            && (BothOdd(r) ==> forall i :: 0 <= i < |r| ==> !IsBoldRun(r, i))
  {
    var k := Chosen(arr);
    if BothOdd(arr) && k > -1 {
      DemotedKeepsText(arr, k);
      DemotedCounts(arr, k, |arr|);
    }
  }

  lemma DemotedKeepsText(arr: seq<string>, k: nat)
    requires MarksUp(arr) && IsBoldRun(arr, k)
    ensures MarksUp(Demoted(arr, k)) && Join(Demoted(arr, k)) == Join(arr)
  {
    assert arr[k] == "'''";
    assert arr[k - 1] + "'" + "''" == arr[k - 1] + arr[k];
    JoinChangesInTwo(arr, k, arr[k - 1] + "'", "''");
    assert Demoted(arr, k) == arr[k - 1 := arr[k - 1] + "'"][k := "''"];
  }

  // ---- third pass: tags

  /** One shown character and how it is shown. */
  datatype Glyph = Glyph(c: char, bold: bool, italic: bool)

  function Glyphs(text: string, bold: bool, italic: bool): seq<Glyph> {
    seq(|text|, i requires 0 <= i < |text| => Glyph(text[i], bold, italic))
  }

  /** The tags b and i. */
  datatype Style = Bold | Italic

  /** What a browser shows of the first `n` tokens. */
  function ShownAt(tokens: seq<Token<Style>>, n: nat): seq<Glyph>
    requires n <= |tokens| && OpenAt(tokens, n).Some?
  {
    if n == 0 then [] else ShownAt(tokens, n - 1) + TokenShown(tokens[n - 1], OpenAt(tokens, n - 1).value)
  }

  function Shown(tokens: seq<Token<Style>>): seq<Glyph>
    requires Opened(tokens).Some?
  {
    ShownAt(tokens, |tokens|)
  }

  /** What the line means: from piece `i` on, each text in the style that the runs before it add up to. */
  function Styled(arr: seq<string>, i: nat, bold: bool, italic: bool): seq<Glyph>
    requires i <= |arr|
    decreases |arr| - i
  {
    if i == |arr| then []
    else if i % 2 == 0 then Glyphs(arr[i], bold, italic) + Styled(arr, i + 1, bold, italic)
    else Styled(arr, i + 1, bold != TogglesBold(arr[i]), italic != TogglesItalic(arr[i]))
  }

  function TokenShown(token: Token<Style>, open: seq<Style>): seq<Glyph> {
    if token.Text? then Glyphs(token.text, Bold in open, Italic in open) else []
  }

  lemma {:induction false} ShownSeesPrefix(a: seq<Token<Style>>, b: seq<Token<Style>>, n: nat)
    requires n <= |a| && n <= |b| && forall i :: 0 <= i < n ==> a[i] == b[i]
    requires OpenAt(a, n).Some? && OpenAt(b, n).Some?
    ensures ShownAt(a, n) == ShownAt(b, n)
  {
    if n > 0 {
      OpenAtSeesPrefix(a, b, n - 1);
      ShownSeesPrefix(a, b, n - 1);
    }
  }

  lemma ShownNext(output: seq<Token<Style>>, token: Token<Style>, open: seq<Style>)
    requires Opened(output) == Some(open) && Step(open, token).Some?
    ensures Opened(output + [token]) == Step(open, token)
    ensures Shown(output + [token]) == Shown(output) + TokenShown(token, open)
  {
    OpenedNext(output, token);
    OpenAtSeesPrefix(output, output + [token], |output|);
    ShownSeesPrefix(output, output + [token], |output|);
  }

  /** `state`: which tags are open, innermost last; `Both` when it is not yet known which comes first. */
  datatype State = Plain | B | I | BI | IB | Both {
    function Tags(): seq<Style> {
      match this
      case B => [Style.Bold]
      case I => [Style.Italic]
      case BI => [Style.Bold, Style.Italic]
      case IB => [Style.Italic, Style.Bold]
      case _ => []
    }

    predicate Bold() { B? || BI? || IB? || Both? }

    predicate Italic() { I? || BI? || IB? || Both? }
  }

  /** The output so far leaves `open` open and shows `shown`. */
  ghost predicate Written(output: seq<Token<Style>>, open: seq<Style>, shown: seq<Glyph>) {
    Opened(output) == Some(open) && Shown(output) == shown
  }

  lemma OpenFirst(output: seq<Token<Style>>, tag: Style, shown: seq<Glyph>)
    requires Written(output, [], shown)
    ensures Written(output + [Open(tag)], [tag], shown)
  {
    ShownNext(output, Open(tag), []);
    assert [] + [tag] == [tag];
  }

  lemma OpenSecond(output: seq<Token<Style>>, outer: Style, tag: Style, shown: seq<Glyph>)
    requires Written(output, [outer], shown)
    ensures Written(output + [Open(tag)], [outer, tag], shown)
  {
    ShownNext(output, Open(tag), [outer]);
    assert [outer] + [tag] == [outer, tag];
  }

  lemma CloseFirst(output: seq<Token<Style>>, tag: Style, shown: seq<Glyph>)
    requires Written(output, [tag], shown)
    ensures Written(output + [Close(tag)], [], shown)
  {
    ShownNext(output, Close(tag), [tag]);
  }

  lemma CloseSecond(output: seq<Token<Style>>, outer: Style, tag: Style, shown: seq<Glyph>)
    requires Written(output, [outer, tag], shown)
    ensures Written(output + [Close(tag)], [outer], shown)
  {
    ShownNext(output, Close(tag), [outer, tag]);
    assert [outer, tag][..1] == [outer];
  }

  lemma Write(output: seq<Token<Style>>, text: string, open: seq<Style>, shown: seq<Glyph>)
    requires Written(output, open, shown)
    ensures Written(output + [Text(text)], open, shown + Glyphs(text, Bold in open, Italic in open))
  {
    ShownNext(output, Text(text), open);
  }

  lemma WriteInBoth(output: seq<Token<Style>>, text: string, outer: Style, inner: Style, shown: seq<Glyph>)
    requires Written(output, [outer, inner], shown) && outer != inner
    ensures Written(output + [Text(text)], [outer, inner], shown + Glyphs(text, true, true))
  {
    assert [outer, inner][0] == outer && [outer, inner][1] == inner;
    Write(output, text, [outer, inner], shown);
  }

  /** The text held back in state `Both`. */
  function Pending(state: State, buffer: string): seq<Glyph> {
    if state == Both then Glyphs(buffer, true, true) else []
  }

  // ---- the tags themselves

  /** The state behind a run of `length` apostrophes. */
  function NextState(state: State, length: nat): State {
    if length == 2 then
      match state case I => Plain case BI => B case IB => B case Both => B case B => BI case Plain => I
    else if length == 3 then
      match state case B => Plain case BI => I case IB => I case Both => I case I => IB case Plain => B
    else
      match state case B => I case I => B case BI => Plain case IB => Plain case Both => Plain case Plain => Both
  }

  function TwoTokens(state: State, buffer: string): seq<Token<Style>> {
    match state
    case I => [Close(Italic)]
    case BI => [Close(Italic)]
    case IB => [Close(Bold), Close(Italic), Open(Bold)]
    case Both => [Open(Bold), Open(Italic), Text(buffer), Close(Italic)]
    case B => [Open(Italic)]
    case Plain => [Open(Italic)]
  }

  function ThreeTokens(state: State, buffer: string): seq<Token<Style>> {
    match state
    case B => [Close(Bold)]
    case BI => [Close(Italic), Close(Bold), Open(Italic)]
    case IB => [Close(Bold)]
    case Both => [Open(Italic), Open(Bold), Text(buffer), Close(Bold)]
    case I => [Open(Bold)]
    case Plain => [Open(Bold)]
  }

  function FiveTokens(state: State, buffer: string): seq<Token<Style>> {
    match state
    case B => [Close(Bold), Open(Italic)]
    case I => [Close(Italic), Open(Bold)]
    case BI => [Close(Italic), Close(Bold)]
    case IB => [Close(Bold), Close(Italic)]
    case Both => [Open(Italic), Open(Bold), Text(buffer), Close(Bold), Close(Italic)]
    case Plain => []
  }

  function RunTokens(state: State, length: nat, buffer: string): seq<Token<Style>> {
    if length == 2 then TwoTokens(state, buffer)
    else if length == 3 then ThreeTokens(state, buffer)
    else FiveTokens(state, buffer)
  }

  /** The state that the first `n` pieces lead to. */
  function StateAt(arr: seq<string>, n: nat): State
    requires n <= |arr|
  {
    if n == 0 then Plain
    else if n % 2 == 1 then StateAt(arr, n - 1)
    else NextState(StateAt(arr, n - 1), |arr[n - 1]|)
  }

  /** The text in front of piece `n` that waits for its tags. */
  function HeldAt(arr: seq<string>, n: nat): string
    requires n <= |arr|
  {
    if n % 2 == 1 && StateAt(arr, n) == Both then arr[n - 1] else ""
  }

  function PieceTokens(arr: seq<string>, i: nat): seq<Token<Style>>
    requires i < |arr|
  {
    if i % 2 == 1 then RunTokens(StateAt(arr, i), |arr[i]|, HeldAt(arr, i))
    else if StateAt(arr, i) == Both then []
    else [Text(arr[i])]
  }

  /** What the first `n` pieces become. */
  function Converted(arr: seq<string>, n: nat): seq<Token<Style>>
    requires n <= |arr|
  {
    if n == 0 then [] else Converted(arr, n - 1) + PieceTokens(arr, n - 1)
  }

  /** What the end of the line adds. */
  function ClosingTags(state: State, buffer: string): seq<Token<Style>> {
    match state
    case Plain => []
    case B => [Close(Bold)]
    case I => [Close(Italic)]
    case BI => [Close(Italic), Close(Bold)]
    case IB => [Close(Bold), Close(Italic)]
    case Both =>
      if Truthy(buffer) then [Open(Bold), Open(Italic), Text(buffer), Close(Italic), Close(Bold)] else []
  }

  function Ending(arr: seq<string>): seq<Token<Style>> {
    ClosingTags(StateAt(arr, |arr|), HeldAt(arr, |arr|))
  }

  lemma TwoMore<T>(output: seq<T>, a: T, b: T)
    ensures output + [a] + [b] == output + [a, b]
  {
  }

  lemma ThreeMore<T>(output: seq<T>, a: T, b: T, c: T)
    ensures output + [a, b] + [c] == output + [a, b, c]
  {
  }

  lemma FourMore<T>(output: seq<T>, a: T, b: T, c: T, d: T)
    ensures output + [a, b, c] + [d] == output + [a, b, c, d]
  {
  }

  lemma FiveMore<T>(output: seq<T>, a: T, b: T, c: T, d: T, e: T)
    ensures output + [a, b, c, d] + [e] == output + [a, b, c, d, e]
  {
  }

  lemma Swap(output: seq<Token<Style>>, closed: Style, other: Style, shown: seq<Glyph>)
    requires Written(output, [closed], shown)
    ensures Written(output + [Close(closed), Open(other)], [other], shown)
  {
    CloseFirst(output, closed, shown);
    OpenFirst(output + [Close(closed)], other, shown);
    TwoMore(output, Close(closed), Open(other));
  }

  lemma CloseBoth(output: seq<Token<Style>>, outer: Style, inner: Style, shown: seq<Glyph>)
    requires Written(output, [outer, inner], shown)
    ensures Written(output + [Close(inner), Close(outer)], [], shown)
  {
    CloseSecond(output, outer, inner, shown);
    CloseFirst(output + [Close(inner)], outer, shown);
    TwoMore(output, Close(inner), Close(outer));
  }

  /** Closes both tags and opens the inner one again. */
  lemma Reopen(output: seq<Token<Style>>, outer: Style, inner: Style, shown: seq<Glyph>)
    requires Written(output, [outer, inner], shown)
    ensures Written(output + [Close(inner), Close(outer), Open(inner)], [inner], shown)
  {
    CloseBoth(output, outer, inner, shown);
    OpenFirst(output + [Close(inner), Close(outer)], inner, shown);
    ThreeMore(output, Close(inner), Close(outer), Open(inner));
  }

  /** Opens both tags for the text held back, and closes the inner one behind it. */
  lemma Flush(output: seq<Token<Style>>, outer: Style, inner: Style, buffer: string, shown: seq<Glyph>)
    requires Written(output, [], shown) && outer != inner
    ensures Written(output + [Open(outer), Open(inner), Text(buffer), Close(inner)], [outer],
                    shown + Glyphs(buffer, true, true))
  {
    OpenFirst(output, outer, shown);
    OpenSecond(output + [Open(outer)], outer, inner, shown);
    TwoMore(output, Open(outer), Open(inner));
    WriteInBoth(output + [Open(outer), Open(inner)], buffer, outer, inner, shown);
    ThreeMore(output, Open(outer), Open(inner), Text(buffer));
    CloseSecond(output + [Open(outer), Open(inner), Text(buffer)], outer, inner, shown + Glyphs(buffer, true, true));
    FourMore(output, Open(outer), Open(inner), Text(buffer), Close(inner));
  }

  lemma FlushAndClose(output: seq<Token<Style>>, outer: Style, inner: Style, buffer: string, shown: seq<Glyph>)
    requires Written(output, [], shown) && outer != inner
    ensures Written(output + [Open(outer), Open(inner), Text(buffer), Close(inner), Close(outer)], [],
                    shown + Glyphs(buffer, true, true))
  {
    Flush(output, outer, inner, buffer, shown);
    CloseFirst(output + [Open(outer), Open(inner), Text(buffer), Close(inner)], outer,
               shown + Glyphs(buffer, true, true));
    FiveMore(output, Open(outer), Open(inner), Text(buffer), Close(inner), Close(outer));
  }

  lemma NothingPending(state: State, buffer: string, shown: seq<Glyph>)
    requires state != Both
    ensures shown + Pending(state, buffer) == shown
  {
  }

  lemma TwoKeeps(output: seq<Token<Style>>, state: State, buffer: string, shown: seq<Glyph>)
    requires Written(output, state.Tags(), shown)
    ensures Written(output + TwoTokens(state, buffer), NextState(state, 2).Tags(), shown + Pending(state, buffer))
  {
    if state == Both {
      Flush(output, Bold, Italic, buffer, shown);
    } else {
      NothingPending(state, buffer, shown);
      match state {
        case I => CloseFirst(output, Italic, shown);
        case BI => CloseSecond(output, Bold, Italic, shown);
        case IB => Reopen(output, Italic, Bold, shown);
        case B => OpenSecond(output, Bold, Italic, shown);
        case Plain => OpenFirst(output, Italic, shown);
      }
    }
  }

  lemma ThreeKeeps(output: seq<Token<Style>>, state: State, buffer: string, shown: seq<Glyph>)
    requires Written(output, state.Tags(), shown)
    ensures Written(output + ThreeTokens(state, buffer), NextState(state, 3).Tags(), shown + Pending(state, buffer))
  {
    if state == Both {
      Flush(output, Italic, Bold, buffer, shown);
    } else {
      NothingPending(state, buffer, shown);
      match state {
        case B => CloseFirst(output, Bold, shown);
        case BI => Reopen(output, Bold, Italic, shown);
        case IB => CloseSecond(output, Italic, Bold, shown);
        case I => OpenSecond(output, Italic, Bold, shown);
        case Plain => OpenFirst(output, Bold, shown);
      }
    }
  }

  lemma FiveKeeps(output: seq<Token<Style>>, state: State, buffer: string, shown: seq<Glyph>)
    requires Written(output, state.Tags(), shown)
    ensures Written(output + FiveTokens(state, buffer), NextState(state, 5).Tags(), shown + Pending(state, buffer))
  {
    if state == Both {
      FlushAndClose(output, Italic, Bold, buffer, shown);
    } else {
      NothingPending(state, buffer, shown);
      match state {
        case B => Swap(output, Bold, Italic, shown);
        case I => Swap(output, Italic, Bold, shown);
        case BI => CloseBoth(output, Bold, Italic, shown);
        case IB => CloseBoth(output, Italic, Bold, shown);
        case Plain => assert output + [] == output;
      }
    }
  }

  lemma ClosingKeeps(output: seq<Token<Style>>, state: State, buffer: string, shown: seq<Glyph>)
    requires Written(output, state.Tags(), shown)
    ensures Written(output + ClosingTags(state, buffer), [],
                    if Truthy(buffer) then shown + Pending(state, buffer) else shown)
  {
    if state == Both {
      if Truthy(buffer) {
        FlushAndClose(output, Bold, Italic, buffer, shown);
      } else {
        assert output + [] == output;
      }
    } else {
      NothingPending(state, buffer, shown);
      match state {
        case B => CloseFirst(output, Bold, shown);
        case I => CloseFirst(output, Italic, shown);
        case BI => CloseBoth(output, Bold, Italic, shown);
        case IB => CloseBoth(output, Italic, Bold, shown);
        case Plain => assert output + [] == output;
      }
    }
  }

  /** A run of two. */
  method Two(output: seq<Token<Style>>, state: State, buffer: string, ghost shown: seq<Glyph>)
      returns (r: seq<Token<Style>>, next: State)
    requires Written(output, state.Tags(), shown)
    ensures Written(r, next.Tags(), shown + Pending(state, buffer))
    ensures next.Bold() == state.Bold() && next.Italic() == !state.Italic() && next != Both
    ensures r == output + TwoTokens(state, buffer) && next == NextState(state, 2)
  {
    TwoKeeps(output, state, buffer, shown);
    match state
    case I =>
      r, next := output + [Close(Italic)], Plain;
    case BI =>
      r, next := output + [Close(Italic)], B;
    case IB =>
      r, next := output + [Close(Bold), Close(Italic), Open(Bold)], B;
    case Both =>
      r, next := output + [Open(Bold), Open(Italic), Text(buffer), Close(Italic)], B;
    case B =>
      r, next := output + [Open(Italic)], BI;
    case Plain =>
      r, next := output + [Open(Italic)], I;
  }

  /** A run of three. */
  method Three(output: seq<Token<Style>>, state: State, buffer: string, ghost shown: seq<Glyph>)
      returns (r: seq<Token<Style>>, next: State)
    requires Written(output, state.Tags(), shown)
    ensures Written(r, next.Tags(), shown + Pending(state, buffer))
    ensures next.Bold() == !state.Bold() && next.Italic() == state.Italic() && next != Both
    ensures r == output + ThreeTokens(state, buffer) && next == NextState(state, 3)
  {
    ThreeKeeps(output, state, buffer, shown);
    match state
    case B =>
      r, next := output + [Close(Bold)], Plain;
    case BI =>
      r, next := output + [Close(Italic), Close(Bold), Open(Italic)], I;
    case IB =>
      r, next := output + [Close(Bold)], I;
    case Both =>
      r, next := output + [Open(Italic), Open(Bold), Text(buffer), Close(Bold)], I;
    case I =>
      r, next := output + [Open(Bold)], IB;
    case Plain =>
      r, next := output + [Open(Bold)], B;
  }

  /** A run of five. */
  method Five(output: seq<Token<Style>>, state: State, buffer: string, ghost shown: seq<Glyph>)
      returns (r: seq<Token<Style>>, next: State, held: string)
    requires Written(output, state.Tags(), shown)
    ensures Written(r, next.Tags(), shown + Pending(state, buffer))
    ensures next.Bold() == !state.Bold() && next.Italic() == !state.Italic()
    ensures held == if next == Both then "" else buffer
    ensures next == Both <==> state == Plain
    ensures r == output + FiveTokens(state, buffer) && next == NextState(state, 5)
  {
    FiveKeeps(output, state, buffer, shown);
    held := buffer;
    match state
    case B =>
      r, next := output + [Close(Bold), Open(Italic)], I;
    case I =>
      r, next := output + [Close(Italic), Open(Bold)], B;
    case BI =>
      r, next := output + [Close(Italic), Close(Bold)], Plain;
    case IB =>
      r, next := output + [Close(Bold), Close(Italic)], Plain;
    case Both =>
      r, next := output + [Open(Italic), Open(Bold), Text(buffer), Close(Bold), Close(Italic)], Plain;
    case Plain =>
      r, held, next := output, "", Both;
      assert r == output + [];
  }

  /** The last run before piece `i`, if any, leaves it open which tag comes first. */
  predicate Unsettled(arr: seq<string>, i: nat)
    requires i <= |arr|
  {
    i >= 2 &&
    var last := if i % 2 == 0 then i - 1 else i - 2;
    |arr[last]| == 5 && Bolds(arr, last) % 2 == 0 && Italics(arr, last) % 2 == 0
  }

  /** PHP takes the empty string and "0" for false. */
  predicate Truthy(s: string) { s != "" && s != "0" }

  /** What was shown, what is held back, and what the pieces from `i` on mean make up the whole line. */
  ghost predicate Accounts(arr: seq<string>, i: int, shown: seq<Glyph>, state: State, buffer: string) {
    && 0 <= i <= |arr|
    && Styled(arr, 0, false, false) == shown + Pending(state, buffer) + Styled(arr, i, state.Bold(), state.Italic())
  }

  /** The state says which styles are on: those with an odd number of runs so far. */
  ghost predicate Tracks(arr: seq<string>, i: int, state: State, buffer: string) {
    && 0 <= i <= |arr|
    && (state.Bold() <==> Bolds(arr, i) % 2 == 1) && (state.Italic() <==> Italics(arr, i) % 2 == 1)
    && (state == Both <==> Unsettled(arr, i))
    && (state == Both ==> buffer == if i % 2 == 1 then arr[i - 1] else "")
  }

  lemma AccountsAtStart(arr: seq<string>)
    ensures Accounts(arr, 0, [], Plain, "")
  {
    assert [] + [] + Styled(arr, 0, false, false) == Styled(arr, 0, false, false);
  }

  lemma AccountsForText(arr: seq<string>, i: nat, shown: seq<Glyph>, state: State, buffer: string)
    requires i < |arr| && i % 2 == 0 && Accounts(arr, i, shown, state, buffer) && state != Both
    ensures Accounts(arr, i + 1, shown + Glyphs(arr[i], state.Bold(), state.Italic()), state, buffer)
  {
    var glyphs := Glyphs(arr[i], state.Bold(), state.Italic());
    NothingPending(state, buffer, shown);
    NothingPending(state, buffer, shown + glyphs);
    Associative(shown, glyphs, Styled(arr, i + 1, state.Bold(), state.Italic()));
  }

  lemma AccountsForHeld(arr: seq<string>, i: nat, shown: seq<Glyph>)
    requires i < |arr| && i % 2 == 0 && Accounts(arr, i, shown, Both, "")
    ensures Accounts(arr, i + 1, shown, Both, arr[i])
  {
    assert shown + Pending(Both, "") == shown;
    Associative(shown, Glyphs(arr[i], true, true), Styled(arr, i + 1, true, true));
  }

  lemma AccountsForRun(arr: seq<string>, i: nat, shown: seq<Glyph>, state: State, buffer: string, next: State,
                       held: string)
    requires i < |arr| && i % 2 == 1 && Accounts(arr, i, shown, state, buffer)
    requires next.Bold() == (state.Bold() != TogglesBold(arr[i]))
    requires next.Italic() == (state.Italic() != TogglesItalic(arr[i]))
    requires next == Both ==> held == ""
    ensures Accounts(arr, i + 1, shown + Pending(state, buffer), next, held)
  {
    assert Pending(next, held) == [];
    assert shown + Pending(state, buffer) + [] == shown + Pending(state, buffer);
  }

  lemma TracksRun(arr: seq<string>, i: nat, state: State, buffer: string, next: State, held: string)
    requires i < |arr| && i % 2 == 1 && MarksUp(arr) && Tracks(arr, i, state, buffer)
    requires next.Bold() == (state.Bold() != TogglesBold(arr[i]))
    requires next.Italic() == (state.Italic() != TogglesItalic(arr[i]))
    requires next == Both <==> state == Plain && |arr[i]| == 5
    requires next == Both ==> held == ""
    ensures Tracks(arr, i + 1, next, held)
  {
    CountsStep(arr, i);
    assert state == Plain <==> !state.Bold() && !state.Italic();
  }

  /** So it is all along the line. */
  lemma {:induction false} TracksAll(arr: seq<string>, n: nat)
    requires n <= |arr| && MarksUp(arr)
    ensures Tracks(arr, n, StateAt(arr, n), HeldAt(arr, n))
  {
    if n > 0 {
      var state, buffer := StateAt(arr, n - 1), HeldAt(arr, n - 1);
      TracksAll(arr, n - 1);
      if n % 2 == 1 {
        TracksText(arr, n - 1, state, buffer);
      } else {
        TracksRun(arr, n - 1, state, buffer, StateAt(arr, n), HeldAt(arr, n));
      }
    }
  }

  predicate EvenCounts(arr: seq<string>) {
    Bolds(arr, |arr|) % 2 == 0 && Italics(arr, |arr|) % 2 == 0
  }

  /**
     The end of the line invents no tag: when bold and italics were both marked up an even number of
     times nothing is added, and otherwise exactly one closing tag for each style that is still on, unless
     a run of five was the last and has opened neither yet.
   */
  lemma NoTagInvented(arr: seq<string>)
    requires MarksUp(arr)
    ensures StateAt(arr, |arr|) == Plain <==> EvenCounts(arr)
    ensures EvenCounts(arr) ==> Ending(arr) == []
    ensures !Unsettled(arr, |arr|) ==>
              && |Ending(arr)| == Bolds(arr, |arr|) % 2 + Italics(arr, |arr|) % 2
              && (forall i :: 0 <= i < |Ending(arr)| ==> Ending(arr)[i].Close?)
    ensures Unsettled(arr, |arr|) ==>
              Ending(arr) == ClosingTags(Both, arr[|arr| - 1])
  {
    TracksAll(arr, |arr|);
  }

  lemma TracksText(arr: seq<string>, i: nat, state: State, buffer: string)
    requires i < |arr| && i % 2 == 0 && Tracks(arr, i, state, buffer)
    ensures Tracks(arr, i + 1, state, if state == Both then arr[i] else buffer)
  {
    CountsStep(arr, i);
  }

  /** The loop of the third pass has come to piece `i`. */
  ghost predicate ConvertedTo(arr: seq<string>, i: int, output: seq<Token<Style>>, state: State, buffer: string,
                              shown: seq<Glyph>) {
    && Written(output, state.Tags(), shown)
    && Accounts(arr, i, shown, state, buffer)
    && Tracks(arr, i, state, buffer)
    && Emitted(arr, i, output, state)
  }

  ghost predicate Emitted(arr: seq<string>, i: int, output: seq<Token<Style>>, state: State) {
    0 <= i <= |arr| && output == Converted(arr, i) && state == StateAt(arr, i)
  }

  lemma EmittedText(arr: seq<string>, i: nat, output: seq<Token<Style>>, state: State)
    requires i < |arr| && i % 2 == 0 && Emitted(arr, i, output, state)
    ensures Emitted(arr, i + 1, if state == Both then output else output + [Text(arr[i])], state)
  {
    assert output + [] == output;
  }

  lemma EmittedRun(arr: seq<string>, i: nat, output: seq<Token<Style>>, state: State, buffer: string,
                   r: seq<Token<Style>>, next: State)
    requires i < |arr| && i % 2 == 1 && Emitted(arr, i, output, state) && Tracks(arr, i, state, buffer)
    requires r == output + RunTokens(state, |arr[i]|, buffer) && next == NextState(state, |arr[i]|)
    ensures Emitted(arr, i + 1, r, next)
  {
    assert RunTokens(state, |arr[i]|, buffer) == PieceTokens(arr, i);
  }

  /** A text: shown at once, or held back. */
  method ConvertText(arr: seq<string>, i: nat, output: seq<Token<Style>>, state: State, buffer: string,
                     ghost shown: seq<Glyph>)
      returns (r: seq<Token<Style>>, held: string, ghost nowShown: seq<Glyph>)
    requires i < |arr| && i % 2 == 0 && ConvertedTo(arr, i, output, state, buffer, shown)
    ensures ConvertedTo(arr, i + 1, r, state, held, nowShown)
  {
    r, held, nowShown := output, buffer, shown;
    TracksText(arr, i, state, buffer);
    EmittedText(arr, i, output, state);
    if state == Both {
      assert buffer == "" && "" + arr[i] == arr[i];
      AccountsForHeld(arr, i, shown);
      held := buffer + arr[i];
    } else {
      AccountsForText(arr, i, shown, state, buffer);
      Write(output, arr[i], state.Tags(), shown);
      r := output + [Text(arr[i])];
      nowShown := shown + Glyphs(arr[i], state.Bold(), state.Italic());
    }
  }

  /** A run. */
  method ConvertRun(arr: seq<string>, i: nat, output: seq<Token<Style>>, state: State, buffer: string,
                    ghost shown: seq<Glyph>)
      returns (r: seq<Token<Style>>, next: State, held: string, ghost nowShown: seq<Glyph>)
    requires i < |arr| && i % 2 == 1 && MarksUp(arr) && ConvertedTo(arr, i, output, state, buffer, shown)
    ensures ConvertedTo(arr, i + 1, r, next, held, nowShown)
  {
    held := buffer;
    nowShown := shown + Pending(state, buffer);
    if |arr[i]| == 2 {
      r, next := Two(output, state, buffer, shown);
    } else if |arr[i]| == 3 {
      r, next := Three(output, state, buffer, shown);
    } else {
      r, next, held := Five(output, state, buffer, shown);
    }
    AccountsForRun(arr, i, shown, state, buffer, next, held);
    TracksRun(arr, i, state, buffer, next, held);
    EmittedRun(arr, i, output, state, buffer, r, next);
  }

  method Convert(arr: seq<string>) returns (output: seq<Token<Style>>)
    requires MarksUp(arr)
    ensures WellNested(output)
    ensures Shown(output) == Styled(arr, 0, false, false)
            <==> !(Unsettled(arr, |arr|) && arr[|arr| - 1] == "0")
    ensures output == Converted(arr, |arr|) + Ending(arr)
  {
    output := [];
    var buffer, state := "", Plain;
    ghost var shown: seq<Glyph> := [];
    AccountsAtStart(arr);
    for i := 0 to |arr|
      invariant ConvertedTo(arr, i, output, state, buffer, shown)
    {
      if i % 2 == 0 {
        output, buffer, shown := ConvertText(arr, i, output, state, buffer, shown);
      } else {
        output, state, buffer, shown := ConvertRun(arr, i, output, state, buffer, shown);
      }
    }
    output := ConvertEnd(arr, output, state, buffer, shown);
  }

  method ConvertEnd(arr: seq<string>, output: seq<Token<Style>>, state: State, buffer: string,
                    ghost shown: seq<Glyph>)
      returns (r: seq<Token<Style>>)
    requires |arr| % 2 == 1 && ConvertedTo(arr, |arr|, output, state, buffer, shown)
    ensures WellNested(r)
    ensures Shown(r) == Styled(arr, 0, false, false) <==> !(Unsettled(arr, |arr|) && arr[|arr| - 1] == "0")
    ensures r == Converted(arr, |arr|) + Ending(arr)
  {
    r := CloseRest(output, state, buffer, shown);
    LostText(shown, state, buffer);
    assert Styled(arr, |arr|, state.Bold(), state.Italic()) == [];
  }

  /** Closes what is open at the end of the line. */
  method CloseRest(output: seq<Token<Style>>, state: State, buffer: string, ghost shown: seq<Glyph>)
      returns (r: seq<Token<Style>>)
    requires Written(output, state.Tags(), shown)
    ensures Written(r, [], if Truthy(buffer) then shown + Pending(state, buffer) else shown)
    ensures r == output + ClosingTags(state, buffer)
  {
    ClosingKeeps(output, state, buffer, shown);
    r := output;
    assert output + [] == output;
    if state == B || state == IB {
      r := r + [Close(Bold)];
    }
    if state == I || state == BI || state == IB {
      TwoMore(output, Close(Bold), Close(Italic));
      r := r + [Close(Italic)];
    }
    if state == BI {
      TwoMore(output, Close(Italic), Close(Bold));
      r := r + [Close(Bold)];
    }
    if state == Both && Truthy(buffer) {
      r := r + [Open(Bold), Open(Italic), Text(buffer), Close(Italic), Close(Bold)];
    }
  }

  lemma LostText(shown: seq<Glyph>, state: State, buffer: string)
    ensures (if Truthy(buffer) then shown + Pending(state, buffer) else shown) == shown + Pending(state, buffer) + []
            <==> !(state == Both && buffer == "0")
  {
    if state == Both && buffer == "0" {
      assert |shown + Pending(state, buffer) + []| == |shown| + 1;
    } else if state != Both || buffer == "" {
      assert Pending(state, buffer) == [];
    }
  }

  /**
     doQuotes: the tags nest, and every text is shown in the style that the runs in front of it add up
     to, after the two passes that turn some apostrophes into text. The one exception, and it is always
     one, is the text "0" at the end of a line behind five apostrophes when neither style is on: there
     the test of the held-back text takes it for empty and drops it.
   */
  method DoQuotes(text: string) returns (output: seq<Token<Style>>)
    ensures WellNested(output)
    ensures var arr := Rebalanced(Normalised(SplitRuns(text)));
            Shown(output) == Styled(arr, 0, false, false)
            <==> !(Unsettled(arr, |arr|) && arr[|arr| - 1] == "0")
    ensures var arr := Rebalanced(Normalised(SplitRuns(text)));
            && output == Converted(arr, |arr|) + Ending(arr)
            && (EvenCounts(arr) ==> output == Converted(arr, |arr|))
  {
    var arr := SplitRuns(text);
    SplitRunsIsSplit(text);
    NormalisedMarksUp(arr);
    RebalancedKeepsText(Normalised(arr));
    if |arr| == 1 {
      output := [Text(text)];
      LineWithoutRuns(text);
    } else {
      var numbold, numitalics;
      arr, numbold, numitalics := Normalise(arr);
      arr := Rebalance(arr, numbold, numitalics);
      output := Convert(arr);
    }
    NoTagInvented(Rebalanced(Normalised(SplitRuns(text))));
  }

  lemma PiecesOfFiveAndZero(text: string)
    requires text == "'''''0"
    ensures SplitRuns(text) == ["", "'''''", "0"]
  {
    assert FirstPair(text, 0) == 0;
    assert RunEnd(text, 3) == RunEnd(text, 5) == 5;
    assert RunEnd(text, 0) == RunEnd(text, 2) == 5;
    assert FirstPair(text, 6) == FirstPair(text, 5) == -1;
    assert text[0..0] == "" && text[0..5] == "'''''" && text[5..] == "0";
    assert SplitFrom(text, 5) == ["0"];
  }

  lemma FiveAloneIsNormal(arr: seq<string>)
    requires |arr| == 3 && arr[0] == "" && |arr[1]| == 5
    ensures Normalised(arr) == arr
  {
    assert "" + Moved(arr[1]) == "";
    assert NormalPiece(arr, 0) == arr[0] && NormalPiece(arr, 1) == arr[1] && NormalPiece(arr, 2) == arr[2];
  }

  lemma FiveAloneIsBalanced(arr: seq<string>)
    requires |arr| == 3 && |arr[1]| == 5
    ensures Rebalanced(arr) == arr && Unsettled(arr, 3)
  {
    CountsStep(arr, 0);
    assert forall j :: 0 <= j < 3 ==> !IsBoldRun(arr, j);
  }

  lemma FiveAloneShows(arr: seq<string>)
    requires |arr| == 3 && arr[0] == "" && |arr[1]| == 5
    ensures Styled(arr, 0, false, false) == Glyphs(arr[2], true, true)
  {
    assert Styled(arr, 3, true, true) == [];
    assert Styled(arr, 2, true, true) == Glyphs(arr[2], true, true) + [] == Glyphs(arr[2], true, true);
    assert Styled(arr, 1, false, false) == Styled(arr, 2, true, true);
    assert Glyphs("", false, false) == [];
  }

  lemma FiveAlone(arr: seq<string>)
    requires |arr| == 3 && arr[0] == "" && |arr[1]| == 5 && IsRun(arr[1])
    ensures Rebalanced(Normalised(arr)) == arr && Unsettled(arr, 3)
    ensures Ending(arr) == ClosingTags(Both, arr[2])
    ensures Styled(arr, 0, false, false) == Glyphs(arr[2], true, true)
  {
    FiveAloneIsNormal(arr);
    FiveAloneIsBalanced(arr);
    NoTagInvented(arr);
    FiveAloneShows(arr);
  }

  /** Five apostrophes and "0": the line shows nothing. */
  lemma ZeroIsLost()
    ensures var arr := Rebalanced(Normalised(SplitRuns("'''''0")));
            && Unsettled(arr, |arr|) && arr[|arr| - 1] == "0"
            && Ending(arr) == []
            && Styled(arr, 0, false, false) == [Glyph('0', true, true)]
  {
    PiecesOfFiveAndZero("'''''0");
    FiveAlone(["", "'''''", "0"]);
  }

  lemma LineWithoutRuns(text: string)
    requires |SplitRuns(text)| == 1
    ensures Rebalanced(Normalised(SplitRuns(text))) == [text]
    ensures var output: seq<Token<Style>> := [Text(text)];
            && WellNested(output)
            && Shown(output) == Styled([text], 0, false, false)
            && output == Converted([text], 1) + Ending([text])
            && output == Converted([text], 1)
  {
    var output: seq<Token<Style>> := [Text(text)];
    assert Normalised([text]) == [text];
    Write([], text, [], []);
    assert [] + [Text(text)] == output;
    assert Glyphs(text, false, false) + [] == Glyphs(text, false, false);
  }

  /** Neither pass loses or adds a character of the line. */
  lemma PassesKeepLine(text: string)
    ensures Join(Rebalanced(Normalised(SplitRuns(text)))) == text
  {
    SplitRunsIsSplit(text);
    NormalisedMarksUp(SplitRuns(text));
    NormalisedKeepsText(SplitRuns(text));
    RebalancedKeepsText(Normalised(SplitRuns(text)));
  }
}
