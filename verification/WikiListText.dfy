/** What becomes of the text of lines with lists: it stays, and each line with list characters has its own item. */
module WikiListText {
  import opened Wrappers
  import opened ListPrefix
  import opened ElementCursor
  import opened ElementText
  import opened WikiLists

  lemma {:induction false} CloseToKeepsText(c: Cursor, n: nat)
    requires c.buffer == "" && n >= 1
    ensures TextOf(CloseTo(c, n)) == TextOf(c) && CloseTo(c, n).buffer == ""
    decreases |c.path|
  {
    if |c.path| > n && CanRise(c) {
      RiseKeepsText(c);
      CloseToKeepsText(ParentOf(c), n);
    }
  }

  lemma TypeKeepsText(c: Cursor)
    requires c.path != [] && c.buffer == ""
    ensures TextOf(SetType(c)) == TextOf(c) && SetType(c).buffer == ""
    ensures SetType(c).Last().children == c.Last().children
  {
    SpotOfLast(c.path, SetType(c).path);
  }

  lemma NextItemKeepsText(c: Cursor, name: Name)
    requires CanRise(c) && c.buffer == ""
    ensures var r := NextItem(c, name); TextOf(r) == TextOf(c) && r.buffer == "" && r.Last().children == []
  {
    RiseKeepsText(c);
    ChildKeepsText(ParentOf(c), name, None);
  }

  lemma {:induction false} PairsKeepText(c: Cursor, prefix: string, m: nat)
    requires c.path != [] && c.buffer == "" && m <= |prefix|
    ensures var r := OpenPairs(c, prefix, m);
            && TextOf(r) == TextOf(c) && r.buffer == ""
            && (m < |prefix| || c.Last().children == [] ==> r.Last().children == [])
    decreases |prefix| - m
  {
    if m < |prefix| {
      var list := ChildOf(c, ListName(prefix[m]), None);
      ChildKeepsText(c, ListName(prefix[m]), None);
      ChildKeepsText(list, ItemName(prefix[m]), None);
      PairsKeepText(OpenPair(c, prefix[m]), prefix, m + 1);
    }
  }

  /** Closing what is not shared keeps all text; where a line ends in a list that was open, its next item is empty. */
  lemma ReopeningKeepsText(c: Cursor, bottom: nat, base: nat, current: string, m: nat)
    requires Follows(c, bottom, base, current) && c.buffer == "" && m <= |current|
    ensures var r := Reopened(c, base, current, m);
            TextOf(r) == TextOf(c) && r.buffer == "" && (0 < m < |current| ==> r.Last().children == [])
  {
    var closed := CloseTo(c, base + 2 * m);
    CloseToKeepsText(c, base + 2 * m);
    PairsClose(c, bottom, base, current, m);
    if m > 0 {
      assert current[..m][m - 1] == current[m - 1] && closed.Last().name == ItemName(current[m - 1]);
      CanStillRise(closed, bottom);
    }
    if CanRise(closed) {
      NextItemKeepsText(closed, closed.Last().name);
    }
  }

  /** A line with list characters keeps all text, and the item it leads to has nothing in it yet. */
  lemma ListLineStartsItem(c: Cursor, bottom: nat, base: nat, current: string, prefix: string)
    requires Follows(c, bottom, base, current) && c.buffer == "" && prefix != ""
    ensures var r := AfterListLine(c, base, current, prefix);
            TextOf(r) == TextOf(c) && r.buffer == "" && r.Last().children == []
  {
    var m := Common(current, prefix);
    if m == |current| == |prefix| {
      CanStillRise(c, bottom);
      NextItemKeepsText(c, ItemName(prefix[m - 1]));
      TypeKeepsText(NextItem(c, ItemName(prefix[m - 1])));
    } else {
      var open := Reopened(c, base, current, m);
      ReopeningKeepsText(c, bottom, base, current, m);
      PairsKeepText(open, prefix, m);
      TypeKeepsText(OpenPairs(open, prefix, m));
    }
  }

  /** The start of any line: nothing is lost. */
  lemma StartKeepsText(c: Cursor, bottom: nat, base: nat, current: string, prefix: string)
    requires Follows(c, bottom, base, current)
    ensures var r := AfterStart(c, base, current, prefix);
            TextOf(r) == TextOf(c) && r.buffer == "" && (prefix != "" ==> r.Last().children == [])
  {
    FlushKeepsText(c);
    FlushFollows(c, bottom, base, current);
    if prefix == "" {
      CloseToKeepsText(Flushed(c), base);
    } else {
      ListLineStartsItem(Flushed(c), bottom, base, current, prefix);
    }
  }

  /** The text of the first `n` nodes of a line's content, behind `k` other children. */
  function InContentOf(content: seq<Node>, n: nat, spot: Spot, k: nat): seq<Leaf>
    requires n <= |content|
  {
    if n == 0 then [] else InContentOf(content, n - 1, spot, k) + InNode(content[n - 1], spot, k + n - 1)
  }

  lemma {:induction false} ContentAdded(children: seq<Node>, content: seq<Node>, n: nat, spot: Spot)
    requires n <= |content|
    ensures InNodes(children + content, |children| + n, spot)
            == InNodes(children, |children|, spot) + InContentOf(content, n, spot, |children|)
  {
    if n == 0 {
      NodesSeePrefix(children + content, children, |children|, spot);
    } else {
      ContentAdded(children, content, n - 1, spot);
      assert (children + content)[|children| + n - 1] == content[n - 1];
    }
  }

  /** What a line adds: its content, and behind it its text. */
  function AddedByLine(c: Cursor, base: nat, current: string, line: Line): seq<Leaf>
    requires c.path != [] && base >= 1
  {
    var start := AfterStart(c, base, current, line.prefix);
    InContentOf(line.content, |line.content|, SpotOf(start), |start.Last().children|) + Leaves(line.text, SpotOf(start))
  }

  lemma ContentKeepsText(c: Cursor, content: seq<Node>)
    requires c.path != [] && c.buffer == ""
    ensures var r := AddContent(c, content, "");
            && SpotOf(r) == SpotOf(c) && TextOf(r) == InPath(r.path, |r.path|)
            && TextOf(r) == TextOf(c) + InContentOf(content, |content|, SpotOf(c), |c.Last().children|)
  {
    var (r, n, children) := (AddContent(c, content, ""), |c.path|, c.Last().children);
    SpotOfLast(c.path, r.path);
    ContentAdded(children, content, |content|, SpotOf(c));
    Associative(InPath(c.path, n - 1), InNodes(children, |children|, SpotOf(c)),
                InContentOf(content, |content|, SpotOf(c), |children|));
    assert TextOf(c) == InPath(c.path, n) && TextOf(r) == InPath(r.path, n);
  }

  lemma LineKeepsText(c: Cursor, bottom: nat, base: nat, current: string, line: Line)
    requires Follows(c, bottom, base, current)
    ensures TextOf(AfterLine(c, base, current, line)) == TextOf(c) + AddedByLine(c, base, current, line)
  {
    var start := AfterStart(c, base, current, line.prefix);
    StartKeepsText(c, bottom, base, current, line.prefix);
    ContentKeepsText(start, line.content);
    var bare := AddContent(start, line.content, "");
    assert AfterLine(c, base, current, line) == bare.(buffer := line.text);
    Associative(TextOf(start), InContentOf(line.content, |line.content|, SpotOf(start), |start.Last().children|),
                Leaves(line.text, SpotOf(start)));
  }

  function AddedByLines(c: Cursor, base: nat, current: string, lines: seq<Line>): seq<Leaf>
    requires c.path != [] && base >= 1
    decreases |lines|
  {
    if lines == [] then []
    else
      AddedByLine(c, base, current, lines[0])
      + AddedByLines(AfterLine(c, base, current, lines[0]), base, lines[0].prefix, lines[1..])
  }

  /** Whole pages of lines keep all text, in order, and each line where its list characters led. */
  lemma {:induction false} LinesKeepText(c: Cursor, bottom: nat, base: nat, current: string, lines: seq<Line>)
    requires Follows(c, bottom, base, current) && GoodLines(lines)
    ensures TextOf(AfterLines(c, base, current, lines)) == TextOf(c) + AddedByLines(c, base, current, lines)
    decreases |lines|
  {
    if lines == [] {
      assert TextOf(c) + [] == TextOf(c);
    } else {
      var next := AfterLine(c, base, current, lines[0]);
      LineKeeps(c, bottom, base, current, lines[0]);
      LineKeepsText(c, bottom, base, current, lines[0]);
      LinesInTwo(c, base, current, lines, next);
      assert forall i :: 0 <= i < |lines[1..]| ==> lines[1..][i] == lines[i + 1];
      LinesKeepText(next, bottom, base, lines[0].prefix, lines[1..]);
      Associative(TextOf(c), AddedByLine(c, base, current, lines[0]),
                  AddedByLines(next, base, lines[0].prefix, lines[1..]));
    }
  }
}
