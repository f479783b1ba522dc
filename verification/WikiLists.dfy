/**
 The wiki lists of CCodeGenerator::parse: the list characters at the start of a line against the list that is
 open (current_list), each character of which stands for two elements on the way to the cursor.
 */
module WikiLists {
  import opened Wrappers
  import opened ElementCursor
  import opened ListPrefix

  function ListName(ch: char): Name {
    if ch == '#' then Ol else if ch == '*' then Ul else Dl
  }

  function ItemName(ch: char): Name {
    if ch == ':' then Dd else if ch == ';' then Dt else Li
  }

  predicate IsItem(name: Name) { name == Li || name == Dt || name == Dd }

  predicate IsList(name: Name) { name == Ul || name == Ol || name == Dl }

  // ---- the invariant

  /** The elements behind the first `base` are a list and an item for each open list character. */
  ghost predicate Pairs(path: seq<Frame>, base: nat, current: string) {
    && |path| == base + 2 * |current|
    && forall i :: 0 <= i < |current| ==>
         && IsListChar(current[i])
         && path[base + 2 * i].name == ListName(current[i])
         && path[base + 2 * i + 1].name == ItemName(current[i])
  }

  /** The stack has the names from element `bottom` on; an item to start from must be one of them. */
  ghost predicate Follows(c: Cursor, bottom: nat, base: nat, current: string) {
    && Shadows(c, bottom) && bottom <= base && Pairs(c.path, base, current)
    && (IsItem(c.path[base - 1].name) ==> bottom < base)
  }

  // ---- closing and opening

  function SetType(c: Cursor): (r: Cursor)
    requires c.path != []
    ensures |r.path| == |c.path|
  {
    c.(path := c.path[|c.path| - 1 := c.Last().(tagtype := Some("wiki"))])
  }

  function OpenPair(c: Cursor, ch: char): (r: Cursor)
    ensures |r.path| == |c.path| + 2
  {
    ChildOf(ChildOf(c, ListName(ch), None), ItemName(ch), None)
  }

  /** Opens a list and an item for each of the characters from the m-th on. */
  function OpenPairs(c: Cursor, prefix: string, m: nat): (r: Cursor)
    requires m <= |prefix|
    ensures |r.path| >= |c.path|
    decreases |prefix| - m
  {
    if m == |prefix| then c else OpenPairs(OpenPair(c, prefix[m]), prefix, m + 1)
  }

  /** A new item in the place of the one the cursor is in. */
  function NextItem(c: Cursor, name: Name): (r: Cursor)
    requires CanRise(c)
    ensures |r.path| == |c.path|
  {
    ChildOf(ParentOf(c), name, None)
  }

  /** Closing down to the characters the lines share; the next item there when something was closed. */
  function Reopened(c: Cursor, base: nat, current: string, m: nat): (r: Cursor)
    requires c.path != [] && base >= 1
    ensures r.path != []
  {
    var closed := CloseTo(c, base + 2 * m);
    if m < |current| && IsItem(closed.Last().name) && CanRise(closed) then NextItem(closed, closed.Last().name)
    else closed
  }

  /** A line with list characters in front. */
  function AfterListLine(c: Cursor, base: nat, current: string, prefix: string): (r: Cursor)
    requires c.path != [] && base >= 1 && prefix != ""
    ensures r.path != []
  {
    var m := Common(current, prefix);
    if m == |current| == |prefix| && CanRise(c) then SetType(NextItem(c, ItemName(prefix[m - 1])))
    else SetType(OpenPairs(Reopened(c, base, current, m), prefix, m))
  }

  // ---- what a line does

  /** How much of the path a line with list characters leaves alone: all of it when it only goes deeper. */
  function KeptDepth(base: nat, current: string, prefix: string): (k: nat) {
    var m := Common(current, prefix);
    if m == |current| < |prefix| || m == 0 then base + 2 * m else base + 2 * m - 1
  }

  lemma PairsClose(c: Cursor, bottom: nat, base: nat, current: string, m: nat)
    requires Follows(c, bottom, base, current) && m <= |current|
    ensures var r := CloseTo(c, base + 2 * m);
            Follows(r, bottom, base, current[..m]) && Untouched(c, r, base + 2 * m)
  {
    ClosedFollows(c, bottom, base, current, m);
    CloseToLeavesRest(c, bottom, base + 2 * m);
  }

  lemma ClosedFollows(c: Cursor, bottom: nat, base: nat, current: string, m: nat)
    requires Follows(c, bottom, base, current) && m <= |current|
    ensures Follows(CloseTo(c, base + 2 * m), bottom, base, current[..m])
  {
    CloseToKeepsNames(c, bottom, base + 2 * m);
    PairsSeeNames(c.path, CloseTo(c, base + 2 * m).path, base, current, m);
  }

  lemma PairsSeeNames(a: seq<Frame>, b: seq<Frame>, base: nat, current: string, m: nat)
    requires base >= 1 && m <= |current| && Pairs(a, base, current)
    requires |b| == base + 2 * m && SameNames(a, b, |b|)
    ensures Pairs(b, base, current[..m]) && b[base - 1].name == a[base - 1].name
  {
    forall i | 0 <= i < m
      ensures IsListChar(current[i])
      ensures b[base + 2 * i].name == ListName(current[i]) && b[base + 2 * i + 1].name == ItemName(current[i])
    {
      assert a[base + 2 * i].name == b[base + 2 * i].name && a[base + 2 * i + 1].name == b[base + 2 * i + 1].name;
    }
  }

  lemma ItemFollowsItem(c: Cursor, bottom: nat, base: nat, current: string)
    requires Follows(c, bottom, base, current) && IsItem(c.Last().name)
    ensures CanRise(c)
    ensures var r := NextItem(c, c.Last().name);
            Follows(r, bottom, base, current) && |c.path| >= 2 && Untouched(c, r, |c.path| - 1)
  {
    CanStillRise(c, bottom);
    NextItemLeavesRest(c, c.Last().name);
    NextItemFollows(c, bottom, base, current);
  }

  lemma NextItemLeavesRest(c: Cursor, name: Name)
    requires CanRise(c)
    ensures Untouched(c, NextItem(c, name), |c.path| - 1)
  {
    RiseLeavesRest(c);
  }

  lemma NextItemFollows(c: Cursor, bottom: nat, base: nat, current: string)
    requires Follows(c, bottom, base, current) && |c.path| > bottom && CanRise(c)
    ensures Follows(NextItem(c, c.Last().name), bottom, base, current)
  {
    MovesKeepShadow(c, bottom, c.Last().name, None);
    MovesKeepShadow(ParentOf(c), bottom, c.Last().name, None);
  }

  lemma {:induction false} PairsOpen(c: Cursor, bottom: nat, base: nat, prefix: string, m: nat)
    requires m <= |prefix| && Follows(c, bottom, base, prefix[..m])
    requires forall i :: 0 <= i < |prefix| ==> IsListChar(prefix[i])
    ensures var r := OpenPairs(c, prefix, m);
            Follows(r, bottom, base, prefix) && Untouched(c, r, |c.path|)
    decreases |prefix| - m
  {
    if m < |prefix| {
      var next := OpenPair(c, prefix[m]);
      PairOpens(c, bottom, base, prefix, m);
      PairsOpen(next, bottom, base, prefix, m + 1);
      UntouchedFurtherUp(next, OpenPairs(c, prefix, m), |next.path|, |c.path|);
    } else {
      assert prefix[..m] == prefix;
    }
  }

  lemma PairOpens(c: Cursor, bottom: nat, base: nat, prefix: string, m: nat)
    requires m < |prefix| && Follows(c, bottom, base, prefix[..m]) && IsListChar(prefix[m])
    ensures Follows(OpenPair(c, prefix[m]), bottom, base, prefix[..m + 1])
    ensures Untouched(c, OpenPair(c, prefix[m]), |c.path|)
  {
  }

  lemma TypeIsSet(c: Cursor, bottom: nat, base: nat, current: string)
    requires Follows(c, bottom, base, current)
    ensures Follows(SetType(c), bottom, base, current)
    ensures forall k: nat :: 1 <= k < |c.path| ==> Untouched(c, SetType(c), k)
  {
  }

  lemma SameListKeeps(c: Cursor, bottom: nat, base: nat, current: string)
    requires Follows(c, bottom, base, current) && current != ""
    ensures CanRise(c) && IsItem(c.Last().name)
    ensures c.Last().name == ItemName(current[|current| - 1])
    ensures var r := SetType(NextItem(c, ItemName(current[|current| - 1])));
            Follows(r, bottom, base, current) && Untouched(c, r, |c.path| - 1)
  {
    assert c.path[base + 2 * (|current| - 1) + 1].name == ItemName(current[|current| - 1]);
    ItemFollowsItem(c, bottom, base, current);
    TypeIsSet(NextItem(c, c.Last().name), bottom, base, current);
    UntouchedInTwo(c, NextItem(c, c.Last().name), SetType(NextItem(c, c.Last().name)), |c.path| - 1);
  }

  lemma ReopenedFollows(c: Cursor, bottom: nat, base: nat, current: string, m: nat)
    requires Follows(c, bottom, base, current) && m <= |current|
    ensures Follows(Reopened(c, base, current, m), bottom, base, current[..m])
    ensures m == |current| ==> Reopened(c, base, current, m) == c
  {
    var closed := CloseTo(c, base + 2 * m);
    ClosedFollows(c, bottom, base, current, m);
    if m < |current| && IsItem(closed.Last().name) {
      ItemFollowsItem(closed, bottom, base, current[..m]);
    }
  }

  lemma ReopenedLeavesRest(c: Cursor, bottom: nat, base: nat, current: string, m: nat, k: nat)
    requires Follows(c, bottom, base, current) && m <= |current|
    requires if m > 0 then k == base + 2 * m - 1 else k == base && !IsItem(c.path[base - 1].name)
    ensures Untouched(c, Reopened(c, base, current, m), k)
  {
    var closed := CloseTo(c, base + 2 * m);
    PairsClose(c, bottom, base, current, m);
    UntouchedFurtherUp(c, closed, base + 2 * m, k);
    if m < |current| && IsItem(closed.Last().name) {
      ItemFollowsItem(closed, bottom, base, current[..m]);
      UntouchedInTwo(c, closed, Reopened(c, base, current, m), k);
    }
  }

  lemma OtherListFollows(c: Cursor, bottom: nat, base: nat, prefix: string, m: nat)
    requires m <= |prefix| && Follows(c, bottom, base, prefix[..m])
    requires forall i :: 0 <= i < |prefix| ==> IsListChar(prefix[i])
    ensures Follows(SetType(OpenPairs(c, prefix, m)), bottom, base, prefix)
  {
    PairsOpen(c, bottom, base, prefix, m);
    TypeIsSet(OpenPairs(c, prefix, m), bottom, base, prefix);
  }

  lemma OtherListLeavesRest(c: Cursor, bottom: nat, base: nat, prefix: string, m: nat, k: nat)
    requires m <= |prefix| && Follows(c, bottom, base, prefix[..m])
    requires forall i :: 0 <= i < |prefix| ==> IsListChar(prefix[i])
    requires 1 <= k <= |c.path| && k < base + 2 * |prefix|
    ensures Untouched(c, SetType(OpenPairs(c, prefix, m)), k)
  {
    PairsOpen(c, bottom, base, prefix, m);
    var r := OpenPairs(c, prefix, m);
    UntouchedFurtherUp(c, r, |c.path|, k);
    TypeIsSet(r, bottom, base, prefix);
    UntouchedInTwo(c, r, SetType(r), k);
  }

  lemma DifferentListKeeps(c: Cursor, bottom: nat, base: nat, current: string, prefix: string, m: nat)
    requires Follows(c, bottom, base, current) && m == Common(current, prefix)
    requires prefix != "" && forall i :: 0 <= i < |prefix| ==> IsListChar(prefix[i])
    requires m < |current| || m < |prefix|
    ensures Follows(AfterListLine(c, base, current, prefix), bottom, base, prefix)
    ensures !IsItem(c.path[base - 1].name) || m > 0 ==>
              Untouched(c, AfterListLine(c, base, current, prefix), KeptDepth(base, current, prefix))
  {
    var r, k := AfterListLine(c, base, current, prefix), KeptDepth(base, current, prefix);
    KeptDepthIs(base, current, prefix, m);
    DifferentListIs(c, base, current, prefix, m);
    DifferentListFollows(c, bottom, base, current, prefix, m, r);
    if !IsItem(c.path[base - 1].name) || m > 0 {
      DifferentListLeavesRest(c, bottom, base, current, prefix, m, r, k);
    }
  }

  lemma DifferentListFollows(c: Cursor, bottom: nat, base: nat, current: string, prefix: string, m: nat, r: Cursor)
    requires Follows(c, bottom, base, current) && m <= |current| && m <= |prefix| && prefix[..m] == current[..m]
    requires prefix != "" && forall i :: 0 <= i < |prefix| ==> IsListChar(prefix[i])
    requires r == SetType(OpenPairs(Reopened(c, base, current, m), prefix, m))
    ensures Follows(r, bottom, base, prefix)
  {
    ReopenedFollows(c, bottom, base, current, m);
    OtherListFollows(Reopened(c, base, current, m), bottom, base, prefix, m);
  }

  lemma DifferentListLeavesRest(c: Cursor, bottom: nat, base: nat, current: string, prefix: string, m: nat, r: Cursor,
                                k: nat)
    requires Follows(c, bottom, base, current) && m <= |current| && m <= |prefix| && prefix[..m] == current[..m]
    requires prefix != "" && forall i :: 0 <= i < |prefix| ==> IsListChar(prefix[i])
    requires r == SetType(OpenPairs(Reopened(c, base, current, m), prefix, m)) && (m < |current| || m < |prefix|)
    requires k == (if m == 0 || m == |current| then base + 2 * m else base + 2 * m - 1)
    requires !IsItem(c.path[base - 1].name) || m > 0
    ensures Untouched(c, r, k)
  {
    var again := Reopened(c, base, current, m);
    ReopenedFollows(c, bottom, base, current, m);
    OtherListLeavesRest(again, bottom, base, prefix, m, k);
    if m < |current| {
      ReopenedLeavesRest(c, bottom, base, current, m, k);
      UntouchedInTwo(c, again, r, k);
    } else {
      assert again == c;
    }
  }

  lemma KeptDepthIs(base: nat, current: string, prefix: string, m: nat)
    requires m == Common(current, prefix) && (m < |current| || m < |prefix|)
    ensures KeptDepth(base, current, prefix) == if m == 0 || m == |current| then base + 2 * m else base + 2 * m - 1
  {
  }

  lemma DifferentListIs(c: Cursor, base: nat, current: string, prefix: string, m: nat)
    requires c.path != [] && base >= 1 && prefix != "" && m == Common(current, prefix)
    requires m < |current| || m < |prefix|
    ensures AfterListLine(c, base, current, prefix) == SetType(OpenPairs(Reopened(c, base, current, m), prefix, m))
  {
  }

  /**
   After a line with list characters they are the open list. Whatever encloses the first character that differs
   is left alone; when none does, the last item ends and the next one begins.
   */
  lemma ListLineKeeps(c: Cursor, bottom: nat, base: nat, current: string, prefix: string)
    requires Follows(c, bottom, base, current)
    requires prefix != "" && forall i :: 0 <= i < |prefix| ==> IsListChar(prefix[i])
    ensures Follows(AfterListLine(c, base, current, prefix), bottom, base, prefix)
    ensures !IsItem(c.path[base - 1].name) || Common(current, prefix) > 0 ==>
              Untouched(c, AfterListLine(c, base, current, prefix), KeptDepth(base, current, prefix))
  {
    var m := Common(current, prefix);
    if m == |current| == |prefix| {
      assert current == current[..m] == prefix[..m] == prefix;
      SameListKeeps(c, bottom, base, current);
      assert KeptDepth(base, current, prefix) == |c.path| - 1;
      assert AfterListLine(c, base, current, prefix) == SetType(NextItem(c, ItemName(current[m - 1])));
    } else {
      DifferentListKeeps(c, bottom, base, current, prefix, m);
    }
  }

  // ---- any other line, and whole pages

  /** A line without list characters goes back to where the lists began. */
  lemma OtherLineKeeps(c: Cursor, bottom: nat, base: nat, current: string)
    requires Follows(c, bottom, base, current)
    ensures Follows(CloseTo(c, base), bottom, base, "") && |CloseTo(c, base).path| == base
    ensures Untouched(c, CloseTo(c, base), base)
  {
    PairsClose(c, bottom, base, current, 0);
    assert current[..0] == "";
  }

  /** A line: its list characters, the nodes it adds where they lead, and the text it leaves in the buffer. */
  datatype Line = Line(prefix: string, content: seq<Node>, text: string)

  predicate GoodLine(line: Line) { forall i :: 0 <= i < |line.prefix| ==> IsListChar(line.prefix[i]) }

  predicate GoodLines(lines: seq<Line>) { forall i :: 0 <= i < |lines| ==> GoodLine(lines[i]) }

  /** The content, which ends where it began. */
  function AddContent(c: Cursor, content: seq<Node>, text: string): (r: Cursor)
    requires c.path != []
    ensures r.path != []
  {
    Cursor(c.path[|c.path| - 1 := c.Last().(children := c.Last().children + content)], c.stack, text)
  }

  function AfterStart(c: Cursor, base: nat, current: string, prefix: string): (r: Cursor)
    requires c.path != [] && base >= 1
    ensures r.path != []
  {
    if prefix == "" then CloseTo(Flushed(c), base) else AfterListLine(Flushed(c), base, current, prefix)
  }

  lemma ContentKeeps(c: Cursor, bottom: nat, base: nat, current: string, content: seq<Node>, text: string)
    requires Follows(c, bottom, base, current)
    ensures Follows(AddContent(c, content, text), bottom, base, current)
    ensures Untouched(c, AddContent(c, content, text), base)
  {
    assert Untouched(c, AddContent(c, content, text), |c.path|);
    UntouchedFurtherUp(c, AddContent(c, content, text), |c.path|, base);
  }

  lemma FlushFollows(c: Cursor, bottom: nat, base: nat, current: string)
    requires Follows(c, bottom, base, current)
    ensures Follows(Flushed(c), bottom, base, current) && Untouched(c, Flushed(c), base)
  {
    assert Untouched(c, Flushed(c), |c.path|);
    UntouchedFurtherUp(c, Flushed(c), |c.path|, base);
  }

  lemma StartKeeps(c: Cursor, bottom: nat, base: nat, current: string, prefix: string)
    requires Follows(c, bottom, base, current)
    requires forall i :: 0 <= i < |prefix| ==> IsListChar(prefix[i])
    ensures Follows(AfterStart(c, base, current, prefix), bottom, base, prefix)
    ensures !IsItem(c.path[base - 1].name) ==> Untouched(c, AfterStart(c, base, current, prefix), base)
  {
    var f := Flushed(c);
    var r := AfterStart(c, base, current, prefix);
    FlushFollows(c, bottom, base, current);
    if prefix == "" {
      OtherLineKeeps(f, bottom, base, current);
      UntouchedInTwo(c, f, r, base);
    } else {
      ListLineKeeps(f, bottom, base, current, prefix);
      if !IsItem(c.path[base - 1].name) {
        UntouchedFurtherUp(f, r, KeptDepth(base, current, prefix), base);
        UntouchedInTwo(c, f, r, base);
      }
    }
  }

  function AfterLine(c: Cursor, base: nat, current: string, line: Line): (r: Cursor)
    requires c.path != [] && base >= 1
    ensures r.path != []
  {
    AddContent(AfterStart(c, base, current, line.prefix), line.content, line.text)
  }

  lemma LineKeeps(c: Cursor, bottom: nat, base: nat, current: string, line: Line)
    requires Follows(c, bottom, base, current) && GoodLine(line)
    ensures Follows(AfterLine(c, base, current, line), bottom, base, line.prefix)
    ensures !IsItem(c.path[base - 1].name) ==> Untouched(c, AfterLine(c, base, current, line), base)
  {
    var start := AfterStart(c, base, current, line.prefix);
    StartKeeps(c, bottom, base, current, line.prefix);
    ContentKeeps(start, bottom, base, line.prefix, line.content, line.text);
    if !IsItem(c.path[base - 1].name) {
      UntouchedInTwo(c, start, AfterLine(c, base, current, line), base);
    }
  }

  function AfterLines(c: Cursor, base: nat, current: string, lines: seq<Line>): (r: Cursor)
    requires c.path != [] && base >= 1
    decreases |lines|
  {
    if lines == [] then c
    else AfterLines(AfterLine(c, base, current, lines[0]), base, lines[0].prefix, lines[1..])
  }

  function LastPrefix(current: string, lines: seq<Line>): string {
    if lines == [] then current else lines[|lines| - 1].prefix
  }

  /**
   After any lines the cursor is where the list characters of the last one say, and what encloses the place where
   the lists began is as it was.
   */
  lemma {:induction false} LinesKeep(c: Cursor, bottom: nat, base: nat, current: string, lines: seq<Line>)
    requires Follows(c, bottom, base, current) && GoodLines(lines)
    ensures Follows(AfterLines(c, base, current, lines), bottom, base, LastPrefix(current, lines))
    ensures !IsItem(c.path[base - 1].name) ==> Untouched(c, AfterLines(c, base, current, lines), base)
    decreases |lines|
  {
    if lines == [] {
      assert Untouched(c, c, base);
    } else {
      var next := AfterLine(c, base, current, lines[0]);
      LineKeeps(c, bottom, base, current, lines[0]);
      LinesInTwo(c, base, current, lines, next);
      LinesKeep(next, bottom, base, lines[0].prefix, lines[1..]);
      if !IsItem(c.path[base - 1].name) {
        UntouchedInTwo(c, next, AfterLines(c, base, current, lines), base);
      }
    }
  }

  lemma LinesInTwo(c: Cursor, base: nat, current: string, lines: seq<Line>, next: Cursor)
    requires c.path != [] && base >= 1 && lines != [] && next == AfterLine(c, base, current, lines[0])
    ensures AfterLines(c, base, current, lines) == AfterLines(next, base, lines[0].prefix, lines[1..])
    ensures LastPrefix(current, lines) == LastPrefix(lines[0].prefix, lines[1..])
  {
  }

  // ---- the parser

  /** The character at a place; beyond the end it is none that the lists know. */
  function At(text: string, pos: nat): char {
    if pos < |text| then text[pos] else '\0'
  }

  /** The list characters from a place on. */
  function PrefixAt(text: string, pos: nat): (prefix: string)
    ensures pos + |prefix| <= |text| || prefix == ""
    decreases |text| - pos
  {
    if IsListChar(At(text, pos)) then [At(text, pos)] + PrefixAt(text, pos + 1) else ""
  }

  lemma {:induction false} PrefixIsSlice(text: string, pos: nat)
    requires pos <= |text|
    ensures var n := pos + |PrefixAt(text, pos)|;
            && n <= |text| && PrefixAt(text, pos) == text[pos..n] && !IsListChar(At(text, n))
            && (forall i :: pos <= i < n ==> IsListChar(text[i]))
    decreases |text| - pos
  {
    if IsListChar(At(text, pos)) {
      PrefixIsSlice(text, pos + 1);
    }
  }

  lemma {:induction false} OpenPairsOfRest(c: Cursor, prefix: string, m: nat, k: nat)
    requires m + k <= |prefix|
    ensures OpenPairs(c, prefix, m + k) == OpenPairs(c, prefix[m..], k)
    decreases |prefix| - m - k
  {
    if m + k < |prefix| {
      OpenPairsOfRest(OpenPair(c, prefix[m + k]), prefix, m, k + 1);
    }
  }

  lemma {:induction false} PrefixOfRest(text: string, pos: nat, m: nat)
    requires pos <= |text| && m <= |PrefixAt(text, pos)|
    ensures PrefixAt(text, pos + m) == PrefixAt(text, pos)[m..]
    decreases m
  {
    if m > 0 {
      PrefixOfRest(text, pos + 1, m - 1);
    }
  }

  /** The last item and its list, which end together. */
  lemma PairAtEnd(c: Cursor, bottom: nat, base: nat, list: string, n: nat)
    requires 0 < n <= |list| && Follows(c, bottom, base, list[..n])
    ensures CanRise(c) && IsItem(c.Last().name)
    ensures CanRise(ParentOf(c)) && IsList(ParentOf(c).Last().name)
    ensures var up := ParentOf(ParentOf(c));
            Follows(up, bottom, base, list[..n - 1]) && CloseTo(up, base) == CloseTo(c, base)
  {
    assert c.path[base + 2 * (n - 1)].name == ListName(list[n - 1]);
    assert c.path[base + 2 * (n - 1) + 1].name == ItemName(list[n - 1]);
    RiseKeepsNames(c, bottom);
    RiseKeepsNames(ParentOf(c), bottom);
  }

  lemma ClosedCanRise(c: Cursor, bottom: nat, base: nat, current: string, m: nat)
    requires Follows(c, bottom, base, current) && m <= |current|
    ensures var closed := CloseTo(c, base + 2 * m); IsItem(closed.Last().name) ==> CanRise(closed)
  {
    PairsClose(c, bottom, base, current, m);
    if IsItem(CloseTo(c, base + 2 * m).Last().name) {
      ItemFollowsItem(CloseTo(c, base + 2 * m), bottom, base, current[..m]);
    }
  }

  lemma ReopenedIs(c: Cursor, base: nat, current: string, m: nat, closed: Cursor)
    requires c.path != [] && base >= 1 && closed == CloseTo(c, base + 2 * m)
    requires IsItem(closed.Last().name) ==> CanRise(closed)
    ensures Reopened(c, base, current, m)
            == if m < |current| && IsItem(closed.Last().name) then NextItem(closed, closed.Last().name) else closed
  {
  }

  lemma OtherListIs(c: Cursor, base: nat, current: string, text: string, pos: nat, m: nat)
    requires c.path != [] && base >= 1 && pos <= |text|
    requires m == Common(current, PrefixAt(text, pos)) && (m < |current| || m < |PrefixAt(text, pos)|)
    requires PrefixAt(text, pos) != ""
    ensures pos + m <= |text| && current[..m] + PrefixAt(text, pos + m) == PrefixAt(text, pos)
    ensures AfterListLine(c, base, current, PrefixAt(text, pos))
            == SetType(OpenPairs(Reopened(c, base, current, m), PrefixAt(text, pos + m), 0))
  {
    PrefixIsSlice(text, pos);
    PrefixOfRest(text, pos, m);
    DifferentListIs(c, base, current, PrefixAt(text, pos), m);
    OpenPairsOfRest(Reopened(c, base, current, m), PrefixAt(text, pos), m, 0);
  }

  lemma PartlyMatched(current: string, text: string, pos: nat, m: nat)
    requires pos < |text| && IsListChar(text[pos]) && m == Common(current, PrefixAt(text, pos))
    ensures PrefixAt(text, pos) != ""
    ensures IsListChar(At(text, pos + m)) <==> m < |PrefixAt(text, pos)|
    ensures m == |current| && m == |PrefixAt(text, pos)| ==> current == PrefixAt(text, pos)
  {
    PrefixOfRest(text, pos, m);
    assert current[..|current|] == current;
  }

  class WikiListParser {
    const element: CElement
    var current: string
    ghost const bottom: nat
    ghost const base: nat

    ghost predicate Valid() reads this, element {
      element.Valid() && base >= 1 && Follows(element.View(), bottom, base, current)
    }

    constructor (element: CElement)
      requires element.Valid() && (element.stack != [] || !IsItem(element.View().Last().name))
      requires |element.stack| < |element.path| && Shadows(element.View(), |element.path| - |element.stack|)
      ensures Valid() && this.element == element && current == "" && base == |element.path|
    {
      this.element := element;
      current := "";
      bottom, base := |element.path| - |element.stack|, |element.path|;
    }

    /** How far the line agrees with the open list. */
    method Match(text: string, pos: nat) returns (m: nat)
      requires pos <= |text|
      requires forall i :: 0 <= i < |current| ==> IsListChar(current[i])
      ensures m == Common(current, PrefixAt(text, pos))
    {
      var prefix := PrefixAt(text, pos);
      PrefixIsSlice(text, pos);
      m := 0;
      while m < |current| && current[m] == At(text, pos + m)
        invariant m <= |current| && m <= |prefix| && current[..m] == prefix[..m]
      {
        assert prefix[m] == text[pos + m];
        m := m + 1;
      }
      CommonIs(current, prefix, m);
    }

    /** Closes the lists behind the first `m`. */
    method CloseLists(m: nat)
      requires Valid() && m <= |current|
      modifies this`current, element
      ensures element.Valid() && current == old(current[..m])
      ensures element.View() == CloseTo(old(element.View()), base + 2 * m)
    {
      ghost var before := element.View();
      while m < |current|
        invariant element.Valid() && m <= |current| && current[..m] == old(current[..m])
        invariant |element.path| == base + 2 * |current| && Shadows(element.View(), bottom)
        invariant CloseTo(element.View(), base + 2 * m) == CloseTo(before, base + 2 * m)
        decreases |current|
      {
        RiseKeepsNames(element.View(), bottom);
        RiseKeepsNames(ParentOf(element.View()), bottom);
        var _ := element.BecomeParent();
        var _ := element.BecomeParent();
        current := current[..m] + current[m + 1..];
      }
    }

    /** Opens the lists for the characters from `at` on, and returns where they end. */
    method OpenLists(text: string, at: nat) returns (next: nat)
      requires element.Valid() && at <= |text|
      modifies this`current, element
      ensures element.Valid() && next == at + |PrefixAt(text, at)| && next <= |text|
      ensures current == old(current) + PrefixAt(text, at)
      ensures element.View() == OpenPairs(old(element.View()), PrefixAt(text, at), 0)
    {
      ghost var prefix := PrefixAt(text, at);
      PrefixIsSlice(text, at);
      next := at;
      while IsListChar(At(text, next))
        invariant element.Valid() && at <= next <= at + |prefix|
        invariant current == old(current) + prefix[..next - at]
        invariant OpenPairs(element.View(), prefix, next - at) == OpenPairs(old(element.View()), prefix, 0)
        decreases |text| - next
      {
        assert prefix[next - at] == text[next];
        current := current + [text[next]];
        element.BecomeChild(ListName(text[next]), None);
        element.BecomeChild(ItemName(text[next]), None);
        next := next + 1;
      }
    }

    method SetTypeOfElement()
      requires element.Valid()
      modifies element`path
      ensures element.Valid() && element.View() == SetType(old(element.View()))
    {
      var n := |element.path|;
      element.path := element.path[n - 1 := element.path[n - 1].(tagtype := Some("wiki"))];
    }

    /** Ends the item the cursor is in, if it is in one. */
    method EndItem()
      requires element.Valid() && (IsItem(element.View().Last().name) ==> CanRise(element.View()))
      modifies element
      ensures element.Valid()
      ensures element.View() ==
              if IsItem(old(element.View()).Last().name) then ParentOf(old(element.View())) else old(element.View())
    {
      if IsItem(element.path[|element.path| - 1].name) {
        var _ := element.BecomeParent();
      }
    }

    /** Closes the lists behind the first `m`; where some were closed inside an item, the next item begins. */
    method StartNextItem(m: nat)
      requires Valid() && m <= |current|
      modifies this`current, element
      ensures element.Valid() && current == old(current[..m])
      ensures element.View() == Reopened(old(element.View()), base, old(current), m)
    {
      ghost var closed := CloseTo(element.View(), base + 2 * m);
      ClosedCanRise(element.View(), bottom, base, current, m);
      ReopenedIs(element.View(), base, current, m, closed);
      var ended := m == |current|;
      CloseLists(m);
      assert element.View() == closed;
      var name := element.path[|element.path| - 1].name;
      if !ended && IsItem(name) {
        EndItem();
        element.BecomeChild(name, None);
      }
    }

    /** The rest of a line that goes on with the list as it is. */
    method SameList()
      requires Valid() && current != ""
      modifies element
      ensures element.Valid() && element.View() == AfterListLine(old(element.View()), base, current, current)
    {
      SameListKeeps(element.View(), bottom, base, current);
      CommonIs(current, current, |current|);
      EndItem();
      element.BecomeChild(ItemName(current[|current| - 1]), None);
      SetTypeOfElement();
    }

    /** The rest of a line whose list differs from the open one. */
    method OtherList(text: string, ghost pos: nat, m: nat, at: nat) returns (next: nat)
      requires Valid() && pos <= |text| && PrefixAt(text, pos) != "" && at == pos + m
      requires m == Common(current, PrefixAt(text, pos)) && (m < |current| || m < |PrefixAt(text, pos)|)
      modifies this`current, element
      ensures element.Valid() && current == PrefixAt(text, pos) && next == pos + |current|
      ensures element.View() == AfterListLine(old(element.View()), base, old(current), current)
    {
      OtherListIs(element.View(), base, current, text, pos, m);
      StartNextItem(m);
      next := OpenLists(text, at);
      SetTypeOfElement();
    }

    /** At a line that starts with list characters; returns the place of the last of them. */
    method ListLine(text: string, pos: nat) returns (next: nat)
      requires Valid() && pos < |text| && IsListChar(text[pos])
      modifies this`current, element
      ensures Valid() && current == PrefixAt(text, pos) && next == pos + |current| - 1
      ensures element.View() == AfterStart(old(element.View()), base, old(current), current)
    {
      ghost var prefix := PrefixAt(text, pos);
      PrefixIsSlice(text, pos);
      StartKeeps(element.View(), bottom, base, current, prefix);
      FlushFollows(element.View(), bottom, base, current);
      element.FlushBuffer();
      next := ListPart(text, pos);
    }

    method ListPart(text: string, pos: nat) returns (next: nat)
      requires Valid() && pos < |text| && IsListChar(text[pos])
      modifies this`current, element
      ensures element.Valid() && current == PrefixAt(text, pos) && next == pos + |current| - 1
      ensures element.View() == AfterListLine(old(element.View()), base, old(current), current)
    {
      var m := Match(text, pos);
      PartlyMatched(current, text, pos, m);
      if m < |current| || IsListChar(At(text, pos + m)) {
        next := OtherList(text, pos, m, pos + m);
      } else {
        SameList();
        next := pos + m;
      }
      next := next - 1;
    }

    /** At any other line. */
    method OtherLine()
      requires Valid()
      modifies this`current, element
      ensures Valid() && current == "" && |element.path| == base
      ensures element.View() == AfterStart(old(element.View()), base, old(current), "")
    {
      FlushFollows(element.View(), bottom, base, current);
      element.FlushBuffer();
      ghost var f := element.View();
      ghost var (list, n) := (current, |current|);
      assert list[..n] == list;
      while current != ""
        invariant element.Valid() && n == |current| <= |list| && Follows(element.View(), bottom, base, list[..n])
        invariant CloseTo(element.View(), base) == CloseTo(f, base)
        decreases |current|
      {
        EndPair(list, n);
        current := current[1..];
        n := n - 1;
      }
    }

    method EndPair(ghost list: string, ghost n: nat)
      requires element.Valid() && 0 < n <= |list| && Follows(element.View(), bottom, base, list[..n])
      modifies element
      ensures element.Valid() && Follows(element.View(), bottom, base, list[..n - 1])
      ensures CloseTo(element.View(), base) == CloseTo(old(element.View()), base)
    {
      PairAtEnd(element.View(), bottom, base, list, n);
      EndItem();
      if IsList(element.path[|element.path| - 1].name) {
        var _ := element.BecomeParent();
      }
    }
  }
}
