/** HTML as the transformations emit it: tags and the text between them. */
module Markup {
  import opened Wrappers

  datatype Token<+T> = Open(tag: T) | Close(tag: T) | Text(text: string)

  /** The tags open behind one more token, outermost first; nothing when it closes what is not innermost. */
  function Step<T(==)>(open: seq<T>, token: Token<T>): Option<seq<T>> {
    match token
    case Open(tag) => Some(open + [tag])
    case Close(tag) =>
      if open != [] && open[|open| - 1] == tag then Some(open[..|open| - 1]) else None
    case Text(_) => Some(open)
  }

  /** The tags open behind the first `n` tokens. */
  function OpenAt<T(==)>(tokens: seq<Token<T>>, n: nat): Option<seq<T>>
    requires n <= |tokens|
  {
    if n == 0 then Some([])
    else
      var open := OpenAt(tokens, n - 1);
      if open.None? then None else Step(open.value, tokens[n - 1])
  }

  function Opened<T(==)>(tokens: seq<Token<T>>): Option<seq<T>> { OpenAt(tokens, |tokens|) }

  /** Every tag is closed, in the reverse of the order in which they were opened. */
  predicate WellNested<T(==)>(tokens: seq<Token<T>>) { Opened(tokens) == Some([]) }

  /** Something was closed that was not innermost; nothing behind it can mend that. */
  predicate Broken<T(==)>(output: seq<Token<T>>) { Opened(output).None? }

  lemma {:induction false} OpenAtSeesPrefix<T>(a: seq<Token<T>>, b: seq<Token<T>>, n: nat)
    requires n <= |a| && n <= |b| && forall i :: 0 <= i < n ==> a[i] == b[i]
    ensures OpenAt(a, n) == OpenAt(b, n)
  {
    if n > 0 {
      OpenAtSeesPrefix(a, b, n - 1);
    }
  }

  lemma OpenedNext<T>(output: seq<Token<T>>, token: Token<T>)
    ensures Opened(output + [token]) == if Opened(output).None? then None else Step(Opened(output).value, token)
  {
    OpenAtSeesPrefix(output, output + [token], |output|);
  }

  /** Up to three tokens at once. */
  lemma EmitFew<T>(output: seq<Token<T>>, tokens: seq<Token<T>>, open: seq<T>)
    requires Opened(output) == Some(open) && 0 < |tokens| <= 3
    ensures Opened(output + tokens)
            == match Step(open, tokens[0])
               case None => None
               case Some(one) =>
                 if |tokens| == 1 then Some(one)
                 else match Step(one, tokens[1])
                   case None => None
                   case Some(two) => if |tokens| == 2 then Some(two) else Step(two, tokens[2])
  {
    var one := output + [tokens[0]];
    OpenedNext(output, tokens[0]);
    if |tokens| == 1 {
      assert output + tokens == one;
    } else {
      var two := one + [tokens[1]];
      OpenedNext(one, tokens[1]);
      if |tokens| == 2 {
        assert output + tokens == two;
      } else {
        assert output + tokens == two + [tokens[2]];
        OpenedNext(two, tokens[2]);
      }
    }
  }

  lemma AddOpen<T>(output: seq<Token<T>>, open: seq<T>, tag: T)
    requires Opened(output) == Some(open)
    ensures Opened(output + [Open(tag)]) == Some(open + [tag])
  {
    OpenedNext(output, Open(tag));
  }

  lemma AddClose<T>(output: seq<Token<T>>, open: seq<T>, tag: T)
    requires Opened(output) == Some(open + [tag])
    ensures Opened(output + [Close(tag)]) == Some(open)
  {
    OpenedNext(output, Close(tag));
    assert (open + [tag])[..|open|] == open;
  }

  lemma EmitText<T>(output: seq<Token<T>>, text: string)
    ensures Opened(output + [Text(text)]) == Opened(output)
  {
    OpenedNext(output, Text(text));
  }

  /** Closing what is not innermost; nothing behind it can mend that. */
  lemma AddWrongClose<T>(output: seq<Token<T>>, open: seq<T>, tag: T)
    requires Opened(output) == Some(open) && (open == [] || open[|open| - 1] != tag)
    ensures Opened(output + [Close(tag)]).None?
  {
    OpenedNext(output, Close(tag));
  }

  lemma {:induction false} BrokenStays<T>(output: seq<Token<T>>, more: seq<Token<T>>)
    requires output <= more && Opened(output).None?
    ensures Opened(more).None?
    decreases |more|
  {
    if output != more {
      var n := |more| - 1;
      BrokenStays(output, more[..n]);
      OpenAtSeesPrefix(more, more[..n], n);
    }
  }

  // ---- which tags they are

  /** How many tags have been opened so far, and for each that is open, how many had been opened before it. */
  datatype Spots = Spots(begun: seq<nat>, opens: nat) {
    function Push(): Spots { Spots(begun + [opens], opens + 1) }

    function Pop(): Spots { Spots(if begun == [] then [] else begun[..|begun| - 1], opens) }

    function Pushes(n: nat): Spots { if n == 0 then this else Pushes(n - 1).Push() }

    function Pops(n: nat): Spots { if n == 0 then this else Pops(n - 1).Pop() }
  }

  const NO_SPOTS := Spots([], 0)

  function SpotStep<T>(s: Spots, token: Token<T>): Spots {
    match token
    case Open(_) => s.Push()
    case Close(_) => s.Pop()
    case Text(_) => s
  }

  function SpotsAt<T>(tokens: seq<Token<T>>, n: nat): Spots
    requires n <= |tokens|
  {
    if n == 0 then NO_SPOTS else SpotStep(SpotsAt(tokens, n - 1), tokens[n - 1])
  }

  function SpotsOf<T>(tokens: seq<Token<T>>): Spots { SpotsAt(tokens, |tokens|) }

  lemma {:induction false} SpotsSeePrefix<T>(a: seq<Token<T>>, b: seq<Token<T>>, n: nat)
    requires n <= |a| && n <= |b| && forall i :: 0 <= i < n ==> a[i] == b[i]
    ensures SpotsAt(a, n) == SpotsAt(b, n)
  {
    if n > 0 {
      SpotsSeePrefix(a, b, n - 1);
    }
  }

  lemma SpotsNext<T>(output: seq<Token<T>>, token: Token<T>)
    ensures SpotsOf(output + [token]) == SpotStep(SpotsOf(output), token)
  {
    SpotsSeePrefix(output, output + [token], |output|);
  }

  /** Up to three tokens at once. */
  lemma SpotsFew<T>(output: seq<Token<T>>, tokens: seq<Token<T>>)
    requires |tokens| <= 3
    ensures SpotsOf(output + tokens)
            == if tokens == [] then SpotsOf(output)
               else
                 var one := SpotStep(SpotsOf(output), tokens[0]);
                 if |tokens| == 1 then one
                 else
                   var two := SpotStep(one, tokens[1]);
                   if |tokens| == 2 then two else SpotStep(two, tokens[2])
  {
    if tokens == [] {
      assert output + tokens == output;
    } else {
      var one := output + [tokens[0]];
      SpotsNext(output, tokens[0]);
      if |tokens| == 1 {
        assert output + tokens == one;
      } else {
        SpotsNext(one, tokens[1]);
        if |tokens| == 2 {
          assert output + tokens == one + [tokens[1]];
        } else {
          assert output + tokens == one + [tokens[1]] + [tokens[2]];
          SpotsNext(one + [tokens[1]], tokens[2]);
        }
      }
    }
  }

  /** The open tags are all different, and they count among those that have been opened. */
  predicate Differ(s: Spots) {
    && (forall i :: 0 <= i < |s.begun| ==> s.begun[i] < s.opens)
    && (forall i, j :: 0 <= i < j < |s.begun| ==> s.begun[i] < s.begun[j])
  }

  lemma PushDiffers(s: Spots)
    requires Differ(s)
    ensures Differ(s.Push()) && Differ(s.Pop())
  {
    assert forall i :: 0 <= i < |s.begun| ==> s.Push().begun[i] == s.begun[i];
  }

  lemma {:induction false} SpotsDiffer<T>(tokens: seq<Token<T>>, n: nat)
    requires n <= |tokens|
    ensures Differ(SpotsAt(tokens, n))
  {
    if n > 0 {
      SpotsDiffer(tokens, n - 1);
      PushDiffers(SpotsAt(tokens, n - 1));
    }
  }

  // ---- what is read of it: the text without the white space

  predicate IsWhite(c: char) {
    c == ' ' || c == '\t' || c == '\n' || c == '\r' || c == '\0' || c == 11 as char
  }

  function InkUpTo(s: string, n: nat): string
    requires n <= |s|
  {
    if n == 0 then "" else InkUpTo(s, n - 1) + if IsWhite(s[n - 1]) then "" else [s[n - 1]]
  }

  function Ink(s: string): string { InkUpTo(s, |s|) }

  function InkAt<T>(tokens: seq<Token<T>>, n: nat): string
    requires n <= |tokens|
  {
    if n == 0 then "" else InkAt(tokens, n - 1) + if tokens[n - 1].Text? then Ink(tokens[n - 1].text) else ""
  }

  function InkOf<T>(tokens: seq<Token<T>>): string { InkAt(tokens, |tokens|) }

  lemma {:induction false} InkSeesPrefix(a: string, b: string, n: nat)
    requires n <= |a| && n <= |b| && forall i :: 0 <= i < n ==> a[i] == b[i]
    ensures InkUpTo(a, n) == InkUpTo(b, n)
  {
    if n > 0 {
      InkSeesPrefix(a, b, n - 1);
    }
  }

  lemma {:induction false} InkOfWhite(s: string, n: nat)
    requires n <= |s| && forall i :: 0 <= i < n ==> IsWhite(s[i])
    ensures InkUpTo(s, n) == ""
  {
    if n > 0 {
      InkOfWhite(s, n - 1);
    }
  }

  /** A line break has no ink. */
  lemma InkOfLine(s: string)
    ensures Ink(s + "\n") == Ink(s)
  {
    InkSeesPrefix(s, s + "\n", |s|);
  }

  /** Nor has a space in front. */
  lemma {:induction false} InkOfIndented(s: string, n: nat)
    requires 0 < n <= |s| && s[0] == ' '
    ensures InkUpTo(s, n) == InkUpTo(s[1..], n - 1)
  {
    if n > 1 {
      InkOfIndented(s, n - 1);
    }
  }

  lemma {:induction false} InkAtSeesPrefix<T>(a: seq<Token<T>>, b: seq<Token<T>>, n: nat)
    requires n <= |a| && n <= |b| && forall i :: 0 <= i < n ==> a[i] == b[i]
    ensures InkAt(a, n) == InkAt(b, n)
  {
    if n > 0 {
      InkAtSeesPrefix(a, b, n - 1);
    }
  }

  lemma InkOfNext<T>(output: seq<Token<T>>, token: Token<T>)
    ensures InkOf(output + [token]) == InkOf(output) + if token.Text? then Ink(token.text) else ""
  {
    InkAtSeesPrefix(output, output + [token], |output|);
  }

  /** Tags and line breaks add no ink. */
  lemma {:induction false} InkOfTags<T>(output: seq<Token<T>>, tokens: seq<Token<T>>)
    requires forall i :: 0 <= i < |tokens| ==> tokens[i].Text? ==> tokens[i].text == "\n"
    ensures InkOf(output + tokens) == InkOf(output)
    decreases |tokens|
  {
    if tokens == [] {
      assert output + tokens == output;
    } else {
      var n := |tokens| - 1;
      InkOfTags(output, tokens[..n]);
      InkOfNext(output + tokens[..n], tokens[n]);
      assert output + tokens == output + tokens[..n] + [tokens[n]];
      InkOfLine("");
      assert "" + "\n" == "\n";
    }
  }

  lemma InkGoesOn<T>(a: seq<T>, b: seq<T>, c: seq<T>)
    ensures a + (b + c) == (a + b) + c
  {
  }

  // ---- the same with the tags around it

  /** The tags open around a place, if they nest so far, and for each how many tags had been opened before it. */
  datatype Around<T> = Around(tags: Option<seq<T>>, begun: seq<nat>)

  function AroundAt<T(==)>(tokens: seq<Token<T>>, n: nat): Around<T>
    requires n <= |tokens|
  {
    Around(OpenAt(tokens, n), SpotsAt(tokens, n).begun)
  }

  function AroundOf<T(==)>(tokens: seq<Token<T>>): Around<T> { AroundAt(tokens, |tokens|) }

  /** One character of the text that is read, and what is open around it. */
  datatype Mark<T> = Mark(c: char, around: Around<T>)

  function MarksUpTo<T>(s: string, n: nat, around: Around<T>): seq<Mark<T>>
    requires n <= |s|
  {
    if n == 0 then [] else MarksUpTo(s, n - 1, around) + if IsWhite(s[n - 1]) then [] else [Mark(s[n - 1], around)]
  }

  function Marks<T>(s: string, around: Around<T>): seq<Mark<T>> { MarksUpTo(s, |s|, around) }

  function MarksAt<T(==)>(tokens: seq<Token<T>>, n: nat): seq<Mark<T>>
    requires n <= |tokens|
  {
    if n == 0 then []
    else MarksAt(tokens, n - 1) + if tokens[n - 1].Text? then Marks(tokens[n - 1].text, AroundAt(tokens, n - 1)) else []
  }

  function MarksOf<T(==)>(tokens: seq<Token<T>>): seq<Mark<T>> { MarksAt(tokens, |tokens|) }

  lemma {:induction false} MarksSeePrefix<T>(a: string, b: string, n: nat, around: Around<T>)
    requires n <= |a| && n <= |b| && forall i :: 0 <= i < n ==> a[i] == b[i]
    ensures MarksUpTo(a, n, around) == MarksUpTo(b, n, around)
  {
    if n > 0 {
      MarksSeePrefix(a, b, n - 1, around);
    }
  }

  lemma {:induction false} MarksOfWhite<T>(s: string, n: nat, around: Around<T>)
    requires n <= |s| && forall i :: 0 <= i < n ==> IsWhite(s[i])
    ensures MarksUpTo(s, n, around) == []
  {
    if n > 0 {
      MarksOfWhite(s, n - 1, around);
    }
  }

  lemma MarksOfLine<T>(s: string, around: Around<T>)
    ensures Marks(s + "\n", around) == Marks(s, around)
  {
    MarksSeePrefix(s, s + "\n", |s|, around);
  }

  lemma {:induction false} MarksOfIndented<T>(s: string, n: nat, around: Around<T>)
    requires 0 < n <= |s| && s[0] == ' '
    ensures MarksUpTo(s, n, around) == MarksUpTo(s[1..], n - 1, around)
  {
    if n > 1 {
      MarksOfIndented(s, n - 1, around);
    }
  }

  lemma {:induction false} MarksAtSeesPrefix<T>(a: seq<Token<T>>, b: seq<Token<T>>, n: nat)
    requires n <= |a| && n <= |b| && forall i :: 0 <= i < n ==> a[i] == b[i]
    ensures MarksAt(a, n) == MarksAt(b, n)
  {
    if n > 0 {
      MarksAtSeesPrefix(a, b, n - 1);
      OpenAtSeesPrefix(a, b, n - 1);
      SpotsSeePrefix(a, b, n - 1);
    }
  }

  lemma MarksOfNext<T>(output: seq<Token<T>>, token: Token<T>)
    ensures MarksOf(output + [token])
            == MarksOf(output) + if token.Text? then Marks(token.text, AroundOf(output)) else []
  {
    MarksAtSeesPrefix(output, output + [token], |output|);
    OpenAtSeesPrefix(output, output + [token], |output|);
    SpotsSeePrefix(output, output + [token], |output|);
  }

  /** Tags and line breaks are not read. */
  lemma {:induction false} MarksOfTags<T>(output: seq<Token<T>>, tokens: seq<Token<T>>)
    requires forall i :: 0 <= i < |tokens| ==> tokens[i].Text? ==> tokens[i].text == "\n"
    ensures MarksOf(output + tokens) == MarksOf(output)
    decreases |tokens|
  {
    if tokens == [] {
      assert output + tokens == output;
    } else {
      var n := |tokens| - 1;
      MarksOfTags(output, tokens[..n]);
      MarksOfNext(output + tokens[..n], tokens[n]);
      assert output + tokens == output + tokens[..n] + [tokens[n]];
      MarksOfWhite("\n", 1, AroundOf(output + tokens[..n]));
    }
  }

  /** Nothing more is read. */
  ghost predicate ReadsSame<T>(was: seq<Token<T>>, output: seq<Token<T>>) {
    InkOf(output) == InkOf(was) && MarksOf(output) == MarksOf(was)
  }

  lemma TagsReadSame<T>(output: seq<Token<T>>, tokens: seq<Token<T>>)
    requires forall i :: 0 <= i < |tokens| ==> tokens[i].Text? ==> tokens[i].text == "\n"
    ensures ReadsSame(output, output + tokens)
  {
    InkOfTags(output, tokens);
    MarksOfTags(output, tokens);
  }
}
