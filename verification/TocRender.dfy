/**
 CTocGenerator::render: the nested lists of the table of contents, and the number of each section in it.
 */
module TocRender {
  import opened Wrappers
  import opened Dotted
  import opened ElementCursor

  // ---- the numbers

  function Zeros(n: nat): (zs: seq<nat>)
    ensures |zs| == n && forall i :: 0 <= i < n ==> zs[i] == 0
  {
    seq(n, _ => 0)
  }

  /** The counters for a section at this level: one more there, none deeper, and no more than needed before. */
  function Bump(counts: seq<nat>, level: nat): (r: seq<nat>)
    requires level >= 1
    ensures |r| == level && r[level - 1] >= 1
  {
    if level <= |counts| then counts[..level - 1] + [counts[level - 1] + 1]
    else counts + Zeros(level - 1 - |counts|) + [1]
  }

  /** The counters after the first `n` sections; those too deep to be shown do not count. */
  function Counts(levels: seq<nat>, n: nat, maxDepth: int): (r: seq<nat>)
    requires n <= |levels| && forall i :: 0 <= i < |levels| ==> levels[i] >= 1
    ensures r == [] || r[|r| - 1] >= 1
  {
    if n == 0 then []
    else if levels[n - 1] <= maxDepth then Bump(Counts(levels, n - 1, maxDepth), levels[n - 1])
    else Counts(levels, n - 1, maxDepth)
  }

  /** The first `n` counters without the zeros of levels that were jumped over. */
  function NonZero(counts: seq<nat>, n: nat): (r: seq<nat>)
    requires n <= |counts|
    ensures forall i :: 0 <= i < |r| ==> r[i] >= 1
    ensures n > 0 && counts[n - 1] >= 1 ==> r != []
  {
    if n == 0 then []
    else if counts[n - 1] == 0 then NonZero(counts, n - 1)
    else NonZero(counts, n - 1) + [counts[n - 1]]
  }

  function Shown(counts: seq<nat>): seq<nat> { NonZero(counts, |counts|) }

  lemma {:induction false} NonZeroSeesPrefix(a: seq<nat>, b: seq<nat>, n: nat)
    requires n <= |a| && n <= |b| && forall i :: 0 <= i < n ==> a[i] == b[i]
    ensures NonZero(a, n) == NonZero(b, n)
  {
    if n > 0 {
      NonZeroSeesPrefix(a, b, n - 1);
    }
  }

  lemma {:induction false} NonZeroSkipsZeros(counts: seq<nat>, k: nat, n: nat)
    requires k <= n <= |counts| && forall i :: k <= i < n ==> counts[i] == 0
    ensures NonZero(counts, n) == NonZero(counts, k)
  {
    if k < n {
      NonZeroSkipsZeros(counts, k, n - 1);
    }
  }

  lemma {:induction false} NonZeroIsPrefix(counts: seq<nat>, k: nat, n: nat)
    requires k <= n <= |counts|
    ensures NonZero(counts, k) <= NonZero(counts, n)
  {
    if k < n {
      NonZeroIsPrefix(counts, k, n - 1);
    }
  }

  function ShownAfterBump(counts: seq<nat>, level: nat): seq<nat>
    requires level >= 1
  {
    if level <= |counts| then NonZero(counts, level - 1) + [counts[level - 1] + 1] else Shown(counts) + [1]
  }

  /** What a bump does to the numbers that are shown. */
  lemma BumpShown(counts: seq<nat>, level: nat)
    requires level >= 1
    ensures Shown(Bump(counts, level)) == ShownAfterBump(counts, level)
  {
    var r := Bump(counts, level);
    if level <= |counts| {
      NonZeroSeesPrefix(counts, r, level - 1);
    } else {
      NonZeroSeesPrefix(counts, r, |counts|);
      NonZeroSkipsZeros(r, |counts|, level - 1);
    }
  }

  predicate AreLevels(levels: seq<nat>) { forall i :: 0 <= i < |levels| ==> levels[i] >= 1 }

  /** The counters themselves always grow, in the order of the numbers. */
  lemma BumpGrows(counts: seq<nat>, level: nat)
    requires level >= 1
    ensures Before(counts, Bump(counts, level))
  {
    assert BeforeAt(counts, Bump(counts, level), if level <= |counts| then level - 1 else |counts|);
  }

  lemma NextCounts(levels: seq<nat>, n: nat, maxDepth: int)
    requires 0 < n <= |levels| && AreLevels(levels)
    ensures var (a, b) := (Counts(levels, n - 1, maxDepth), Counts(levels, n, maxDepth));
            if levels[n - 1] <= maxDepth then Before(a, b) else a == b
  {
    if levels[n - 1] <= maxDepth {
      BumpGrows(Counts(levels, n - 1, maxDepth), levels[n - 1]);
    }
  }

  lemma {:induction false} CountsGrow(levels: seq<nat>, i: nat, j: nat, maxDepth: int)
    requires i <= j <= |levels| && AreLevels(levels)
    ensures var (a, b) := (Counts(levels, i, maxDepth), Counts(levels, j, maxDepth));
            (a == b || Before(a, b)) && (i < j && levels[j - 1] <= maxDepth ==> Before(a, b))
  {
    if i < j {
      CountsGrow(levels, i, j - 1, maxDepth);
      NextCounts(levels, j, maxDepth);
      var (a, m) := (Counts(levels, i, maxDepth), Counts(levels, j - 1, maxDepth));
      if Before(a, m) && levels[j - 1] <= maxDepth {
        BeforeIsTransitive(a, m, Counts(levels, j, maxDepth));
      }
    }
  }

  // ---- labels

  predicate Visible(levels: seq<nat>, n: nat, maxDepth: int) {
    0 < n <= |levels| && levels[n - 1] <= maxDepth
  }

  function ShownAt(levels: seq<nat>, n: nat, maxDepth: int): (r: seq<nat>)
    requires n <= |levels| && AreLevels(levels)
    ensures Visible(levels, n, maxDepth) ==> r != []
  {
    Shown(Counts(levels, n, maxDepth))
  }

  /** The number of the n-th section, counted from 1. */
  function LabelOf(levels: seq<nat>, n: nat, maxDepth: int): string
    requires AreLevels(levels) && Visible(levels, n, maxDepth)
  {
    Label(ShownAt(levels, n, maxDepth))
  }

  /** Is the n-th section at a level that an earlier one jumped over, with nothing less deep in between. */
  predicate InGap(levels: seq<nat>, n: nat, maxDepth: int)
    requires AreLevels(levels) && 0 < n <= |levels|
  {
    var counts := Counts(levels, n - 1, maxDepth);
    levels[n - 1] <= |counts| && counts[levels[n - 1] - 1] == 0
  }

  ghost predicate NoGaps(levels: seq<nat>, n: nat, maxDepth: int)
    requires AreLevels(levels)
  {
    forall k: nat :: Visible(levels, k, maxDepth) && k <= n ==> !InGap(levels, k, maxDepth)
  }

  lemma BeforeBigger(a: seq<nat>, prefix: seq<nat>, n: nat)
    requires prefix + [n] <= a
    ensures Before(a, prefix + [n + 1])
  {
    assert prefix == (prefix + [n])[..|prefix|] == a[..|prefix|];
    assert BeforeAt(a, prefix + [n + 1], |prefix|);
  }

  lemma BeforeLonger(a: seq<nat>, n: nat)
    ensures Before(a, a + [n])
  {
    assert BeforeAt(a, a + [n], |a|);
  }

  /** Outside of gaps what is shown grows too. */
  lemma BumpShownGrows(counts: seq<nat>, level: nat)
    requires level >= 1 && (level <= |counts| ==> counts[level - 1] >= 1)
    ensures Before(Shown(counts), ShownAfterBump(counts, level))
  {
    if level <= |counts| {
      NonZeroIsPrefix(counts, level, |counts|);
      BeforeBigger(Shown(counts), NonZero(counts, level - 1), counts[level - 1]);
    } else {
      BeforeLonger(Shown(counts), 1);
    }
  }

  lemma NextShown(levels: seq<nat>, n: nat, maxDepth: int)
    requires 0 < n <= |levels| && AreLevels(levels) && (Visible(levels, n, maxDepth) ==> !InGap(levels, n, maxDepth))
    ensures if Visible(levels, n, maxDepth) then Before(ShownAt(levels, n - 1, maxDepth), ShownAt(levels, n, maxDepth))
            else ShownAt(levels, n - 1, maxDepth) == ShownAt(levels, n, maxDepth)
  {
    if Visible(levels, n, maxDepth) {
      var counts := Counts(levels, n - 1, maxDepth);
      assert Counts(levels, n, maxDepth) == Bump(counts, levels[n - 1]);
      BumpShown(counts, levels[n - 1]);
      BumpShownGrows(counts, levels[n - 1]);
    }
  }

  lemma {:induction false} ShownGrows(levels: seq<nat>, i: nat, j: nat, maxDepth: int)
    requires i <= j <= |levels| && AreLevels(levels) && NoGaps(levels, j, maxDepth)
    ensures var (a, b) := (ShownAt(levels, i, maxDepth), ShownAt(levels, j, maxDepth));
            (a == b || Before(a, b)) && (i < j && Visible(levels, j, maxDepth) ==> Before(a, b))
  {
    if i < j {
      ShownGrows(levels, i, j - 1, maxDepth);
      NextShown(levels, j, maxDepth);
      var (a, m) := (ShownAt(levels, i, maxDepth), ShownAt(levels, j - 1, maxDepth));
      if Before(a, m) && Visible(levels, j, maxDepth) {
        BeforeIsTransitive(a, m, ShownAt(levels, j, maxDepth));
      }
    }
  }

  /** Where a bump leaves a zero: one that was there before, or one that it puts in. */
  lemma ZeroAfterBump(counts: seq<nat>, level: nat, p: nat)
    requires p < level && Bump(counts, level)[p] == 0
    ensures p < |counts| ==> counts[p] == 0 && NonZero(Bump(counts, level), p) == NonZero(counts, p)
    ensures p >= |counts| ==> Shown(Bump(counts, level)) == NonZero(Bump(counts, level), p) + [1]
  {
    var r := Bump(counts, level);
    if p < |counts| {
      NonZeroSeesPrefix(r, counts, p);
    } else {
      NonZeroSeesPrefix(r, counts, |counts|);
      NonZeroSkipsZeros(r, |counts|, p);
      BumpShown(counts, level);
    }
  }

  /** A level that was jumped over: the section that did it has the number the level would give next. */
  lemma {:induction false} GapWasJumped(levels: seq<nat>, n: nat, p: nat, maxDepth: int) returns (k: nat)
    requires n <= |levels| && AreLevels(levels)
    requires p < |Counts(levels, n, maxDepth)| && Counts(levels, n, maxDepth)[p] == 0
    ensures k <= n && Visible(levels, k, maxDepth)
    ensures ShownAt(levels, k, maxDepth) == NonZero(Counts(levels, n, maxDepth), p) + [1]
  {
    if !Visible(levels, n, maxDepth) {
      k := GapWasJumped(levels, n - 1, p, maxDepth);
    } else {
      ZeroAfterBump(Counts(levels, n - 1, maxDepth), levels[n - 1], p);
      if p < |Counts(levels, n - 1, maxDepth)| {
        k := GapWasJumped(levels, n - 1, p, maxDepth);
      } else {
        k := n;
      }
    }
  }

  /** No two shown sections have the same number if and only if none falls in a gap. */
  lemma LabelsDifferIffNoGaps(levels: seq<nat>, maxDepth: int)
    requires AreLevels(levels)
    ensures NoGaps(levels, |levels|, maxDepth) <==>
            forall i: nat, j: nat :: i < j && Visible(levels, i, maxDepth) && Visible(levels, j, maxDepth) ==>
              LabelOf(levels, i, maxDepth) != LabelOf(levels, j, maxDepth)
  {
    if NoGaps(levels, |levels|, maxDepth) {
      forall i: nat, j: nat | i < j && Visible(levels, i, maxDepth) && Visible(levels, j, maxDepth)
        ensures LabelOf(levels, i, maxDepth) != LabelOf(levels, j, maxDepth)
      {
        LabelsDifferWithoutGaps(levels, i, j, maxDepth);
      }
    } else {
      var n: nat :| Visible(levels, n, maxDepth) && n <= |levels| && InGap(levels, n, maxDepth);
      var i := LabelComesTwice(levels, n, maxDepth);
      assert LabelOf(levels, i, maxDepth) == LabelOf(levels, n, maxDepth);
    }
  }

  lemma LabelsDifferWithoutGaps(levels: seq<nat>, i: nat, j: nat, maxDepth: int)
    requires AreLevels(levels) && NoGaps(levels, |levels|, maxDepth)
    requires i < j && Visible(levels, i, maxDepth) && Visible(levels, j, maxDepth)
    ensures LabelOf(levels, i, maxDepth) != LabelOf(levels, j, maxDepth)
  {
    ShownGrows(levels, i, j, maxDepth);
    BeforeIsStrict(ShownAt(levels, i, maxDepth));
    if LabelOf(levels, i, maxDepth) == LabelOf(levels, j, maxDepth) {
      LabelsDiffer(ShownAt(levels, i, maxDepth), ShownAt(levels, j, maxDepth));
    }
  }

  lemma LabelComesTwice(levels: seq<nat>, n: nat, maxDepth: int) returns (i: nat)
    requires AreLevels(levels) && Visible(levels, n, maxDepth) && InGap(levels, n, maxDepth)
    ensures i < n && Visible(levels, i, maxDepth)
    ensures LabelOf(levels, i, maxDepth) == LabelOf(levels, n, maxDepth)
  {
    i := GapWasJumped(levels, n - 1, levels[n - 1] - 1, maxDepth);
    BumpShown(Counts(levels, n - 1, maxDepth), levels[n - 1]);
  }

  // ---- levels without gaps

  /** The first section is the least deep, and each is at most one deeper than the one before. */
  predicate RisesByOne(levels: seq<nat>) {
    && AreLevels(levels)
    && (forall i :: 0 <= i < |levels| ==> levels[0] <= levels[i])
    && (forall i :: 0 < i < |levels| ==> levels[i] <= levels[i - 1] + 1)
  }

  /** What the counters look like when levels rise by one at most: no zeros from the first level on. */
  predicate Dense(levels: seq<nat>, n: nat, maxDepth: int)
    requires n <= |levels| && AreLevels(levels)
  {
    var counts := Counts(levels, n, maxDepth);
    && (n > 0 && levels[0] <= maxDepth ==>
          |counts| == if levels[n - 1] <= maxDepth then levels[n - 1] else maxDepth)
    && (n > 0 ==> forall p :: levels[0] - 1 <= p < |counts| ==> counts[p] >= 1)
    && (n == 0 ==> counts == [])
  }

  lemma NextIsDense(levels: seq<nat>, n: nat, maxDepth: int)
    requires n < |levels| && RisesByOne(levels) && Dense(levels, n, maxDepth)
    ensures Dense(levels, n + 1, maxDepth)
    ensures Visible(levels, n + 1, maxDepth) ==> !InGap(levels, n + 1, maxDepth)
  {
  }

  lemma {:induction false} LevelsAreDense(levels: seq<nat>, n: nat, maxDepth: int)
    requires n <= |levels| && RisesByOne(levels)
    ensures Dense(levels, n, maxDepth)
  {
    if n > 0 {
      LevelsAreDense(levels, n - 1, maxDepth);
      NextIsDense(levels, n - 1, maxDepth);
    }
  }

  /** Levels that rise by one at most never give the same number twice. */
  lemma LabelsDifferWhenRisingByOne(levels: seq<nat>, i: nat, j: nat, maxDepth: int)
    requires RisesByOne(levels) && i < j && Visible(levels, i, maxDepth) && Visible(levels, j, maxDepth)
    ensures LabelOf(levels, i, maxDepth) != LabelOf(levels, j, maxDepth)
  {
    forall k: nat | Visible(levels, k, maxDepth) && k <= |levels| ensures !InGap(levels, k, maxDepth) {
      LevelsAreDense(levels, k - 1, maxDepth);
      NextIsDense(levels, k - 1, maxDepth);
    }
    LabelsDifferWithoutGaps(levels, i, j, maxDepth);
  }

  lemma CountsAfterJump(levels: seq<nat>)
    requires levels == [1, 3, 2]
    ensures Counts(levels, 1, 3) == [1] && Counts(levels, 2, 3) == [1, 0, 1]
  {
    assert Counts(levels, 0, 3) == [];
    assert Bump([], 1) == [1];
    assert Bump([1], 3) == [1, 0, 1];
  }

  /** Jumping over a level and coming back to it does: after 1 and 3 the number of 2 is the one that 3 had. */
  lemma JumpingBackRepeatsLabel(levels: seq<nat>)
    requires levels == [1, 3, 2]
    ensures LabelOf(levels, 2, 3) == LabelOf(levels, 3, 3)
  {
    CountsAfterJump(levels);
    assert Counts(levels, 3, 3) == Bump([1, 0, 1], 2);
    SameShownAfterJump([1, 0, 1]);
  }

  lemma SameShownAfterJump(counts: seq<nat>)
    requires counts == [1, 0, 1]
    ensures Shown(Bump(counts, 2)) == Shown(counts)
  {
    BumpShown(counts, 2);
    assert NonZero(counts, 2) == NonZero(counts, 1);
  }

  // ---- lists and their items in the order of the document

  /** A list begins or ends, or an item comes. */
  datatype Piece = Opened | Closed | Item(node: Node)

  function PiecesIn(nodes: seq<Node>, n: nat): seq<Piece>
    requires n <= |nodes|
    decreases nodes, n
  {
    if n == 0 then [] else PiecesIn(nodes, n - 1) + PiecesOfNode(nodes[n - 1])
  }

  function PiecesOfNode(node: Node): seq<Piece> {
    if node.TextNode? then []
    else if node.name == Li then [Item(node)]
    else if node.name == Ul then [Opened] + PiecesIn(node.children, |node.children|) + [Closed]
    else PiecesIn(node.children, |node.children|)
  }

  /** What an element that is still open has in it so far. */
  function PiecesOfFrame(f: Frame): seq<Piece> {
    (if f.name == Ul then [Opened] else []) + PiecesIn(f.children, |f.children|)
  }

  /** The pieces below the elements of the path from `base` on; what is open comes last. */
  function PiecesOn(path: seq<Frame>, base: nat, n: nat): seq<Piece>
    requires n <= |path|
  {
    if n <= base then [] else PiecesOn(path, base, n - 1) + PiecesOfFrame(path[n - 1])
  }

  lemma {:induction false} PiecesInPrefix(a: seq<Node>, b: seq<Node>, n: nat)
    requires n <= |a| && n <= |b| && forall i :: 0 <= i < n ==> a[i] == b[i]
    ensures PiecesIn(a, n) == PiecesIn(b, n)
  {
    if n > 0 {
      PiecesInPrefix(a, b, n - 1);
    }
  }

  lemma {:induction false} PiecesOnStep(path: seq<Frame>, base: nat, n: nat)
    requires base < n <= |path|
    ensures PiecesOn(path, base, n) == PiecesOn(path, base, n - 1) + PiecesOfFrame(path[n - 1])
  {
  }

  lemma {:induction false} PiecesOnPrefix(a: seq<Frame>, b: seq<Frame>, base: nat, n: nat)
    requires n <= |a| && n <= |b| && forall i :: 0 <= i < n ==> a[i] == b[i]
    ensures PiecesOn(a, base, n) == PiecesOn(b, base, n)
  {
    if n > base {
      PiecesOnPrefix(a, b, base, n - 1);
      assert a[n - 1] == b[n - 1];
      PiecesOnStep(a, base, n);
      PiecesOnStep(b, base, n);
    }
  }

  function PiecesBelow(c: Cursor, base: nat): seq<Piece> { PiecesOn(c.path, base, |c.path|) }

  lemma PiecesOfLonger(nodes: seq<Node>, node: Node)
    ensures PiecesIn(nodes + [node], |nodes| + 1) == PiecesIn(nodes, |nodes|) + PiecesOfNode(node)
  {
    assert (nodes + [node])[|nodes|] == node;
    PiecesInPrefix(nodes, nodes + [node], |nodes|);
  }

  lemma Behind<T>(a: seq<T>, b: seq<T>, c: seq<T>)
    ensures a + (b + c) == a + b + c
  {
  }

  lemma FrameGrows(f: Frame, node: Node)
    ensures PiecesOfFrame(f.Add(node)) == PiecesOfFrame(f) + PiecesOfNode(node)
  {
    PiecesOfLonger(f.children, node);
    Behind(if f.name == Ul then [Opened] else [], PiecesIn(f.children, |f.children|), PiecesOfNode(node));
  }

  lemma ListNodeCloses(f: Frame)
    requires f.name == Ul
    ensures PiecesOfNode(Elem(Ul, f.children)) == PiecesOfFrame(f) + [Closed]
  {
  }

  lemma PathGrows(path: seq<Frame>, more: seq<Frame>, base: nat, f: Frame)
    requires base <= |path| && more == path + [f]
    ensures PiecesOn(more, base, |more|) == PiecesOn(path, base, |path|) + PiecesOfFrame(f)
  {
    PiecesOnPrefix(path, more, base, |path|);
  }

  /** Entering a list opens it, behind all that was there. */
  lemma EnteringOpens(c: Cursor, base: nat)
    requires base <= |c.path|
    ensures PiecesBelow(ChildOf(c, Ul, None), base) == PiecesBelow(c, base) + [Opened]
  {
    var f := Frame(Ul, None, []);
    PathGrows(c.path, ChildOf(c, Ul, None).path, base, f);
    assert PiecesOfFrame(f) == [Opened] + [] == [Opened];
  }

  /** Leaving it closes it; the items and their lists stay as they are. */
  lemma LeavingKeepsItems(c: Cursor, base: nat)
    requires CanRise(c) && |c.path| - 1 > base && c.Last().name == Ul
    ensures PiecesBelow(ParentOf(c), base) == PiecesBelow(c, base) + [Closed]
  {
    var n := |c.path|;
    var (path, parent, list) := (c.path[..n - 2], c.path[n - 2], c.path[n - 1]);
    var node := Elem(Ul, list.children);
    PathGrows(path, path + [parent.Add(node)], base, parent.Add(node));
    FrameGrows(parent, node);
    ListNodeCloses(list);
    PathGrows(path, path + [parent], base, parent);
    PathGrows(path + [parent], c.path, base, list);
    var front := PiecesOn(path, base, |path|);
    Behind(front, PiecesOfFrame(parent), PiecesOfNode(node));
    Behind(front + PiecesOfFrame(parent), PiecesOfFrame(list), [Closed]);
  }

  lemma ItemIsAdded(c: Cursor, base: nat, item: Node)
    requires base < |c.path| && item.Elem? && item.name == Li
    ensures PiecesBelow(Appended(c, item), base) == PiecesBelow(c, base) + [Item(item)]
  {
    var path := c.path[..|c.path| - 1];
    PathGrows(path, c.path, base, c.Last());
    PathGrows(path, Appended(c, item).path, base, c.Last().Add(item));
    FrameGrows(c.Last(), item);
    Behind(PiecesOn(path, base, |path|), PiecesOfFrame(c.Last()), [Item(item)]);
  }

  /** How many lists are open behind the first `k` pieces. */
  function Depth(pieces: seq<Piece>, k: nat): int
    requires k <= |pieces|
  {
    if k == 0 then 0
    else Depth(pieces, k - 1) + match pieces[k - 1] case Opened => 1 case Closed => -1 case Item(_) => 0
  }

  lemma {:induction false} DepthSeesPrefix(a: seq<Piece>, b: seq<Piece>, k: nat)
    requires k <= |a| && k <= |b| && forall i :: 0 <= i < k ==> a[i] == b[i]
    ensures Depth(a, k) == Depth(b, k)
  {
    if k > 0 {
      DepthSeesPrefix(a, b, k - 1);
    }
  }

  function Times(piece: Piece, n: nat): seq<Piece> { if n == 0 then [] else Times(piece, n - 1) + [piece] }

  /** The lists that open or close on the way from so many open ones to so many. */
  function Moves(from: nat, to: nat): seq<Piece> {
    if to >= from then Times(Opened, to - from) else Times(Closed, from - to)
  }

  lemma OneMoreMove(pieces: seq<Piece>, from: nat, to: nat)
    ensures to >= from ==> pieces + Moves(from, to) + [Opened] == pieces + Moves(from, to + 1)
    ensures 0 < to <= from ==> pieces + Moves(from, to) + [Closed] == pieces + Moves(from, to - 1)
  {
    if to >= from {
      Behind(pieces, Moves(from, to), [Opened]);
    }
    if 0 < to <= from {
      assert to == from ==> Moves(from, to) == Times(Closed, 0);
      Behind(pieces, Moves(from, to), [Closed]);
    }
  }

  lemma {:induction false} DepthAfterTimes(pieces: seq<Piece>, piece: Piece, n: nat)
    requires !piece.Item?
    ensures var all := pieces + Times(piece, n);
            Depth(all, |all|) == if piece.Opened? then Depth(pieces, |pieces|) + n else Depth(pieces, |pieces|) - n
  {
    if n == 0 {
      assert pieces + [] == pieces;
    } else {
      DepthAfterTimes(pieces, piece, n - 1);
      Behind(pieces, Times(piece, n - 1), [piece]);
      DepthOfOneMore(pieces + Times(piece, n - 1), piece);
    }
  }

  lemma DepthOfOneMore(pieces: seq<Piece>, piece: Piece)
    ensures Depth(pieces + [piece], |pieces|) == Depth(pieces, |pieces|)
    ensures Depth(pieces + [piece], |pieces| + 1)
            == Depth(pieces, |pieces|) + match piece case Opened => 1 case Closed => -1 case Item(_) => 0
  {
    DepthSeesPrefix(pieces, pieces + [piece], |pieces|);
  }

  // ---- rendering

  datatype Section = Section(title: string, level: nat)

  function LevelsOf(sections: seq<Section>): (levels: seq<nat>)
    ensures |levels| == |sections|
  {
    seq(|sections|, i requires 0 <= i < |sections| => sections[i].level)
  }

  /** The counters cut off at this level, or filled up to it. */
  function Resized(counts: seq<nat>, level: nat): (r: seq<nat>)
    ensures |r| == level
  {
    if level <= |counts| then counts[..level] else counts + Zeros(level - |counts|)
  }

  /** The first `n` counters, or all if there are fewer, as they stand in front of a number. */
  function DotsAt(counts: seq<nat>, n: nat): string {
    var k := if n <= |counts| then n else |counts|;
    Dots(NonZero(counts, k), |NonZero(counts, k)|)
  }

  lemma DotsAtResized(counts: seq<nat>, level: nat, n: nat)
    requires n <= level
    ensures DotsAt(Resized(counts, level), n) == DotsAt(counts, n)
  {
    var r := Resized(counts, level);
    if n <= |counts| {
      NonZeroSeesPrefix(counts, r, n);
    } else {
      NonZeroSeesPrefix(counts, r, |counts|);
      NonZeroSkipsZeros(r, |counts|, n);
    }
  }

  /** What stands in front of the numbers at each depth that is open. */
  predicate Prefixes(numbering: seq<string>, counts: seq<nat>, base: nat) {
    forall j :: 0 <= j < |numbering| ==> numbering[j] == DotsAt(counts, base + j)
  }

  lemma PrefixesLonger(numbering: seq<string>, s: string, counts: seq<nat>, base: nat)
    requires Prefixes(numbering, counts, base) && s == DotsAt(counts, base + |numbering|)
    ensures Prefixes(numbering + [s], counts, base)
  {
    forall j | 0 <= j <= |numbering|
      ensures (numbering + [s])[j] == DotsAt(counts, base + j)
    {
    }
  }

  lemma PrefixesResized(numbering: seq<string>, counts: seq<nat>, base: nat, level: nat)
    requires Prefixes(numbering, counts, base) && base + |numbering| <= level + 1
    ensures Prefixes(numbering, Resized(counts, level), base)
  {
    forall j | 0 <= j < |numbering| ensures numbering[j] == DotsAt(Resized(counts, level), base + j) {
      DotsAtResized(counts, level, base + j);
    }
  }

  /** How many lists are open when `n` prefixes are. */
  function ListsOpen(n: nat, maxDepth: int): nat {
    if n <= maxDepth then n else if maxDepth >= 0 then maxDepth else 0
  }

  /** The cursor is as many lists below the title as there should be, and just these lists and items have come. */
  ghost predicate InLists(c: Cursor, top: Cursor, base: nat, lists: nat, items: seq<Piece>) {
    && 0 < |top.path| == base && |c.path| == base + lists && |top.stack| <= |c.stack| == |top.stack| + lists
    && (forall i :: base <= i < |c.path| ==> c.path[i].name == Ul)
    && Untouched(top, c, base)
    && PiecesBelow(c, base - 1) == PiecesBelow(top, base - 1) + items
  }

  lemma ListOpens(c: Cursor, top: Cursor, base: nat, lists: nat, items: seq<Piece>)
    requires InLists(c, top, base, lists, items)
    ensures InLists(ChildOf(c, Ul, None), top, base, lists + 1, items + [Opened])
  {
    EnteringOpens(c, base - 1);
    Behind(PiecesBelow(top, base - 1), items, [Opened]);
  }

  lemma ListCloses(c: Cursor, top: Cursor, base: nat, lists: nat, items: seq<Piece>)
    requires InLists(c, top, base, lists, items) && lists > 0
    ensures CanRise(c) && InLists(ParentOf(c), top, base, lists - 1, items + [Closed])
  {
    LeavingKeepsItems(c, base - 1);
    RiseLeavesRest(c);
    UntouchedFurtherUp(c, ParentOf(c), |c.path| - 1, base);
    UntouchedInTwo(top, c, ParentOf(c), base);
    Behind(PiecesBelow(top, base - 1), items, [Closed]);
  }

  lemma ItemComes(c: Cursor, top: Cursor, base: nat, lists: nat, items: seq<Piece>, item: Node)
    requires InLists(c, top, base, lists, items) && item.Elem? && item.name == Li
    ensures InLists(Appended(c, item), top, base, lists, items + [Item(item)])
  {
    ItemIsAdded(c, base - 1, item);
    Behind(PiecesBelow(top, base - 1), items, [Item(item)]);
  }

  /** The counters in front of a number, as they are written out: the zeros are left out. */
  method DotsOf(counts: seq<nat>) returns (s: string)
    ensures s == DotsAt(counts, |counts|)
  {
    s := "";
    var i := 0;
    while i < |counts|
      invariant i <= |counts| && s == DotsAt(counts, i)
    {
      if counts[i] != 0 {
        DotsOfLonger(NonZero(counts, i), NonZero(counts, i + 1), |NonZero(counts, i)|);
        s := s + Decimal(counts[i]) + ".";
      }
      i := i + 1;
    }
  }

  /** On the way from `lists` open lists to as many as `n` prefixes take. */
  ghost predicate Going(c: Cursor, top: Cursor, items: seq<Piece>, lists: nat, n: nat, maxDepth: int) {
    InLists(c, top, |top.path|, ListsOpen(n, maxDepth), items + Moves(lists, ListsOpen(n, maxDepth)))
  }

  /** One level deeper. */
  method Deeper(e: CElement, ghost counts: seq<nat>, subcount: seq<nat>, numbering: seq<string>, ghost base: nat,
                maxDepth: int, ghost top: Cursor, ghost items: seq<Piece>, ghost lists: nat)
    returns (more: seq<string>)
    requires e.Valid() && Going(e.View(), top, items, lists, |numbering|, maxDepth)
    requires lists <= ListsOpen(|numbering|, maxDepth)
    requires Prefixes(numbering, counts, base) && DotsAt(subcount, |subcount|) == DotsAt(counts, base + |numbering|)
    modifies e
    ensures |more| == |numbering| + 1 && Prefixes(more, counts, base)
    ensures e.Valid() && Going(e.View(), top, items, lists, |more|, maxDepth)
  {
    ghost var now := items + Moves(lists, ListsOpen(|numbering|, maxDepth));
    var s := DotsOf(subcount);
    more := numbering + [s];
    PrefixesLonger(numbering, s, counts, base);
    OneDeeperMove(items, lists, |numbering|, maxDepth, now);
    if |more| <= maxDepth {
      ListOpens(e.View(), top, |top.path|, ListsOpen(|numbering|, maxDepth), now);
      e.BecomeChild(Ul, None);
    }
  }

  /** One level up; when that leaves a list the cursor is on it. */
  method Shallower(e: CElement, ghost counts: seq<nat>, numbering: seq<string>, ghost base: nat, maxDepth: int,
                   ghost top: Cursor, ghost items: seq<Piece>, ghost lists: nat)
    returns (less: seq<string>)
    requires e.Valid() && numbering != [] && Going(e.View(), top, items, lists, |numbering|, maxDepth)
    requires ListsOpen(|numbering|, maxDepth) <= lists && Prefixes(numbering, counts, base)
    modifies e
    ensures |less| == |numbering| - 1 && Prefixes(less, counts, base)
    ensures e.Valid() && Going(e.View(), top, items, lists, |less|, maxDepth)
  {
    ghost var now := items + Moves(lists, ListsOpen(|numbering|, maxDepth));
    less := numbering[..|numbering| - 1];
    OneUpMove(items, lists, |numbering|, maxDepth, now);
    if |less| < maxDepth {
      ListCloses(e.View(), top, |top.path|, ListsOpen(|numbering|, maxDepth), now);
      assert e.View().Last().name == Ul;
      var _ := e.BecomeParent();
    }
  }

  /** The counters on the way from one depth to another: cut off step by step, or filled up at the first step. */
  ghost predicate OnTheWay(counts: seq<nat>, current: seq<nat>, from: nat, depth: nat, level: nat) {
    if level >= from then from <= depth <= level && current == if depth == from then counts else Resized(counts, level)
    else level <= depth <= from && |counts| == from && current == counts[..depth]
  }

  lemma OneDeeper(counts: seq<nat>, current: seq<nat>, from: nat, depth: nat, level: nat)
    requires |counts| <= from && OnTheWay(counts, current, from, depth, level) && depth < level
    ensures OnTheWay(counts, Resized(current, level), from, depth + 1, level)
    ensures DotsAt(current, |current|) == DotsAt(counts, depth)
  {
    DotsAtResized(counts, level, level);
  }

  lemma OneDeeperMove(pieces: seq<Piece>, lists: nat, n: nat, maxDepth: int, now: seq<Piece>)
    requires lists <= ListsOpen(n, maxDepth) && now == pieces + Moves(lists, ListsOpen(n, maxDepth))
    ensures (if n + 1 <= maxDepth then now + [Opened] else now) == pieces + Moves(lists, ListsOpen(n + 1, maxDepth))
  {
    OneMoreMove(pieces, lists, ListsOpen(n, maxDepth));
  }

  lemma OneUpMove(pieces: seq<Piece>, lists: nat, n: nat, maxDepth: int, now: seq<Piece>)
    requires n > 0 && ListsOpen(n, maxDepth) <= lists && now == pieces + Moves(lists, ListsOpen(n, maxDepth))
    ensures (if n - 1 < maxDepth then now + [Closed] else now) == pieces + Moves(lists, ListsOpen(n - 1, maxDepth))
  {
    OneMoreMove(pieces, lists, ListsOpen(n, maxDepth));
  }

  lemma OneUp(counts: seq<nat>, current: seq<nat>, from: nat, depth: nat, level: nat)
    requires OnTheWay(counts, current, from, depth, level) && depth > level
    ensures |current| > 0 && OnTheWay(counts, Resized(current, |current| - 1), from, depth - 1, level)
  {
  }

  /** From one section's depth to the next one's. */
  method GoTo(e: CElement, level: nat, from: nat, base: nat, counts: seq<nat>, numbering: seq<string>, maxDepth: int,
              ghost top: Cursor, ghost items: seq<Piece>)
    returns (subcount: seq<nat>, prefixes: seq<string>)
    requires e.Valid() && InLists(e.View(), top, |top.path|, ListsOpen(|numbering|, maxDepth), items)
    requires level > base && from == base + |numbering| && Prefixes(numbering, counts, base)
    requires |counts| <= from && (level <= from ==> |counts| == from)
    modifies e
    ensures e.Valid() && InLists(e.View(), top, |top.path|, ListsOpen(|prefixes|, maxDepth),
                                 items + Moves(ListsOpen(|numbering|, maxDepth), ListsOpen(|prefixes|, maxDepth)))
    ensures subcount == Resized(counts, level)
    ensures level == base + |prefixes| && Prefixes(prefixes, subcount, base)
  {
    var depth := from;
    subcount, prefixes := counts, numbering;
    ghost var lists := ListsOpen(|numbering|, maxDepth);
    assert items + [] == items;
    while depth != level
      invariant e.Valid() && Going(e.View(), top, items, lists, |prefixes|, maxDepth)
      invariant depth == base + |prefixes| && Prefixes(prefixes, counts, base)
      invariant OnTheWay(counts, subcount, from, depth, level)
      decreases if depth < level then level - depth else depth - level
    {
      if depth < level {
        OneDeeper(counts, subcount, from, depth, level);
        depth := depth + 1;
        prefixes := Deeper(e, counts, subcount, prefixes, base, maxDepth, top, items, lists);
        subcount := Resized(subcount, level);
      } else {
        OneUp(counts, subcount, from, depth, level);
        depth := depth - 1;
        prefixes := Shallower(e, counts, prefixes, base, maxDepth, top, items, lists);
        subcount := Resized(subcount, |subcount| - 1);
      }
    }
    PrefixesResized(prefixes, counts, base, level);
  }

  // ---- items

  /** The number stands in two pieces of text, that of the levels around and its own. */
  function LinkNode(prefix: string, number: string, title: string): Node {
    var span := Named("span");
    Elem(Named("a"), [Elem(span, [TextNode(prefix), TextNode(number)]), TextNode(" "), Elem(span, [TextNode(title)])])
  }

  function ItemNode(prefix: string, number: string, title: string): Node {
    Elem(Li, [LinkNode(prefix, number, title)])
  }

  /** How many lists are open behind the first `n` sections. */
  function ListsAt(sections: seq<Section>, n: nat, base: nat, maxDepth: int): nat
    requires n <= |sections|
  {
    if n == 0 || sections[n - 1].level <= base then 0 else ListsOpen(sections[n - 1].level - base, maxDepth)
  }

  /** The lists and items for the first `n` sections: on the way to each, lists open or close, but never both. */
  function PiecesOf(sections: seq<Section>, n: nat, base: nat, maxDepth: int): seq<Piece>
    requires n <= |sections| && AreLevels(LevelsOf(sections))
    decreases n, 1
  {
    if n == 0 then []
    else
      MovedTo(sections, n, base, maxDepth) + ItemFor(sections, n, maxDepth)
  }

  function ItemFor(sections: seq<Section>, n: nat, maxDepth: int): seq<Piece>
    requires 0 < n <= |sections| && AreLevels(LevelsOf(sections))
  {
    if !Visible(LevelsOf(sections), n, maxDepth) then []
    else [Item(ItemOf(Counts(LevelsOf(sections), n, maxDepth), sections[n - 1].title))]
  }

  lemma {:induction false} DepthOfPieces(sections: seq<Section>, n: nat, base: nat, maxDepth: int)
    requires n <= |sections| && AreLevels(LevelsOf(sections))
    ensures var pieces := PiecesOf(sections, n, base, maxDepth);
            Depth(pieces, |pieces|) == ListsAt(sections, n, base, maxDepth)
    decreases n, 1
  {
    if n > 0 {
      var moved := MovedTo(sections, n, base, maxDepth);
      DepthOnTheWay(sections, n, base, maxDepth);
      if Visible(LevelsOf(sections), n, maxDepth) {
        DepthOfOneMore(moved, ItemFor(sections, n, maxDepth)[0]);
      } else {
        assert moved + [] == moved;
      }
    }
  }

  /** What has come on the way to a section. */
  function MovedTo(sections: seq<Section>, n: nat, base: nat, maxDepth: int): seq<Piece>
    requires 0 < n <= |sections| && AreLevels(LevelsOf(sections))
    decreases n, 0
  {
    PiecesOf(sections, n - 1, base, maxDepth)
    + Moves(ListsAt(sections, n - 1, base, maxDepth), ListsAt(sections, n, base, maxDepth))
  }

  lemma DepthAfterMoves(pieces: seq<Piece>, from: nat, to: nat)
    requires Depth(pieces, |pieces|) == from
    ensures Depth(pieces + Moves(from, to), |pieces + Moves(from, to)|) == to
  {
    if to >= from {
      DepthAfterTimes(pieces, Opened, to - from);
    } else {
      DepthAfterTimes(pieces, Closed, from - to);
    }
  }

  /** Where the item of a section goes, as many lists are open as there should be. */
  lemma {:induction false} DepthOnTheWay(sections: seq<Section>, n: nat, base: nat, maxDepth: int)
    requires 0 < n <= |sections| && AreLevels(LevelsOf(sections))
    ensures var moved := MovedTo(sections, n, base, maxDepth);
            Depth(moved, |moved|) == ListsAt(sections, n, base, maxDepth)
    decreases n, 0
  {
    DepthOfPieces(sections, n - 1, base, maxDepth);
    DepthAfterMoves(PiecesOf(sections, n - 1, base, maxDepth), ListsAt(sections, n - 1, base, maxDepth),
                    ListsAt(sections, n, base, maxDepth));
  }

  /**
   The item of every section that is shown is there, and it hangs in as many lists as the section is deep below the
   first: `k` is its place.
   */
  lemma ItemHangs(sections: seq<Section>, n: nat, base: nat, maxDepth: int) returns (k: nat)
    requires 0 < n <= |sections| && AreLevels(LevelsOf(sections))
    requires Visible(LevelsOf(sections), n, maxDepth) && base < sections[n - 1].level
    ensures var pieces := PiecesOf(sections, |sections|, base, maxDepth);
            && k < |pieces|
            && pieces[k] == Item(ItemOf(Counts(LevelsOf(sections), n, maxDepth), sections[n - 1].title))
            && Depth(pieces, k) == sections[n - 1].level - base
  {
    var front := PiecesOf(sections, n, base, maxDepth);
    DepthOnTheWay(sections, n, base, maxDepth);
    PiecesGrow(sections, n, |sections|, base, maxDepth);
    k := |front| - 1;
    assert sections[n - 1].level == LevelsOf(sections)[n - 1];
    var moved := MovedTo(sections, n, base, maxDepth);
    assert front == moved + ItemFor(sections, n, maxDepth) && k == |moved|;
    DepthSeesPrefix(moved, PiecesOf(sections, |sections|, base, maxDepth), k);
  }

  ghost predicate Starts<T>(a: seq<T>, b: seq<T>) {
    |a| <= |b| && forall i :: 0 <= i < |a| ==> a[i] == b[i]
  }

  lemma {:induction false} PiecesGrow(sections: seq<Section>, n: nat, m: nat, base: nat, maxDepth: int)
    requires n <= m <= |sections| && AreLevels(LevelsOf(sections))
    ensures Starts(PiecesOf(sections, n, base, maxDepth), PiecesOf(sections, m, base, maxDepth))
  {
    if n < m {
      PiecesGrow(sections, n, m - 1, base, maxDepth);
      PiecesGrowByOne(sections, m, base, maxDepth);
      StartsInTwo(PiecesOf(sections, n, base, maxDepth), PiecesOf(sections, m - 1, base, maxDepth),
                  PiecesOf(sections, m, base, maxDepth));
    } else {
      assert PiecesOf(sections, n, base, maxDepth) == PiecesOf(sections, m, base, maxDepth);
    }
  }

  lemma StartsInTwo<T>(a: seq<T>, b: seq<T>, c: seq<T>)
    requires Starts(a, b) && Starts(b, c)
    ensures Starts(a, c)
  {
  }

  lemma {:induction false} PiecesGrowByOne(sections: seq<Section>, m: nat, base: nat, maxDepth: int)
    requires 0 < m <= |sections| && AreLevels(LevelsOf(sections))
    ensures Starts(PiecesOf(sections, m - 1, base, maxDepth), PiecesOf(sections, m, base, maxDepth))
  {
    var (moves, item) := (Moves(ListsAt(sections, m - 1, base, maxDepth), ListsAt(sections, m, base, maxDepth)),
                          ItemFor(sections, m, maxDepth));
    PiecesOfStep(sections, m, base, maxDepth);
    MoreStarts(PiecesOf(sections, m - 1, base, maxDepth), moves, item);
  }

  lemma MoreStarts<T>(a: seq<T>, b: seq<T>, c: seq<T>)
    ensures Starts(a, a + b + c)
  {
  }

  lemma {:induction false} PiecesOfStep(sections: seq<Section>, n: nat, base: nat, maxDepth: int)
    requires 0 < n <= |sections| && AreLevels(LevelsOf(sections))
    ensures PiecesOf(sections, n, base, maxDepth)
            == PiecesOf(sections, n - 1, base, maxDepth)
               + Moves(ListsAt(sections, n - 1, base, maxDepth), ListsAt(sections, n, base, maxDepth))
               + ItemFor(sections, n, maxDepth)
  {
  }

  /** The two pieces of text are the number of the section. */
  lemma ItemShowsLabel(levels: seq<nat>, n: nat, maxDepth: int)
    requires AreLevels(levels) && Visible(levels, n, maxDepth)
    ensures var counts := Counts(levels, n, maxDepth);
            && counts != []
            && DotsAt(counts, |counts| - 1) + Decimal(counts[|counts| - 1]) == LabelOf(levels, n, maxDepth)
  {
    var counts := Counts(levels, n, maxDepth);
    LabelIsDots(NonZero(counts, |counts| - 1), counts[|counts| - 1]);
  }

  /** Is `d` the cursor that `c` becomes on entering an element, and then giving it these children. */
  ghost predicate Inside(c: Cursor, d: Cursor, name: Name, children: seq<Node>) {
    d == c.(path := c.path + [Frame(name, None, children)], stack := c.stack + [name])
  }

  lemma InsideRises(c: Cursor, d: Cursor, name: Name, children: seq<Node>)
    requires c.path != [] && Inside(c, d, name, children) && name != P
    ensures CanRise(d) && ParentOf(d) == Appended(c, Elem(name, children))
  {
  }

  lemma InsideGrows(c: Cursor, d: Cursor, name: Name, children: seq<Node>, node: Node)
    requires Inside(c, d, name, children)
    ensures Inside(c, Appended(d, node), name, children + [node])
  {
  }

  method AppendSpan(e: CElement, name: Name, nodes: seq<Node>)
    requires e.Valid() && name != P
    modifies e
    ensures e.Valid() && e.View() == Appended(old(e.View()), Elem(name, nodes))
  {
    ghost var c := e.View();
    e.BecomeChild(name, None);
    var i := 0;
    while i < |nodes|
      invariant i <= |nodes| && e.Valid() && Inside(c, e.View(), name, nodes[..i])
    {
      InsideGrows(c, e.View(), name, nodes[..i], nodes[i]);
      e.AppendChild(nodes[i]);
      assert nodes[..i + 1] == nodes[..i] + [nodes[i]];
      i := i + 1;
    }
    assert nodes[..i] == nodes;
    InsideRises(c, e.View(), name, nodes);
    var _ := e.BecomeParent();
  }

  /** The link in an item. */
  method AppendLink(e: CElement, prefix: string, number: string, title: string)
    requires e.Valid()
    modifies e
    ensures e.Valid() && e.View() == Appended(old(e.View()), LinkNode(prefix, number, title))
  {
    ghost var c := e.View();
    var (link, span) := (Named("a"), Named("span"));
    var (first, second) := (Elem(span, [TextNode(prefix), TextNode(number)]), Elem(span, [TextNode(title)]));
    e.BecomeChild(link, None);
    InsideGrows(c, e.View(), link, [], first);
    AppendSpan(e, span, [TextNode(prefix), TextNode(number)]);
    InsideGrows(c, e.View(), link, [] + [first], TextNode(" "));
    e.AppendChild(TextNode(" "));
    InsideGrows(c, e.View(), link, [] + [first] + [TextNode(" ")], second);
    AppendSpan(e, span, [TextNode(title)]);
    InsideRises(c, e.View(), link, [] + [first] + [TextNode(" ")] + [second]);
    assert [] + [first] + [TextNode(" ")] + [second] == [first, TextNode(" "), second];
    var _ := e.BecomeParent();
  }

  /** The item of a section, built at the cursor. */
  method AppendItem(e: CElement, prefix: string, number: string, title: string)
    requires e.Valid()
    modifies e
    ensures e.Valid() && e.View() == Appended(old(e.View()), ItemNode(prefix, number, title))
  {
    ghost var c := e.View();
    e.BecomeChild(Li, None);
    InsideGrows(c, e.View(), Li, [], LinkNode(prefix, number, title));
    AppendLink(e, prefix, number, title);
    InsideRises(c, e.View(), Li, [] + [LinkNode(prefix, number, title)]);
    assert [] + [LinkNode(prefix, number, title)] == [LinkNode(prefix, number, title)];
    var _ := e.BecomeParent();
  }

  lemma ResizedTwice(counts: seq<nat>, subcount: seq<nat>, depth: nat, level: nat)
    requires |counts| <= depth && (subcount == Resized(counts, depth) || (subcount == [] && counts == []))
    ensures Resized(subcount, level) == Resized(counts, level)
  {
  }

  lemma {:induction false} CountsWithin(levels: seq<nat>, n: nat, maxDepth: int)
    requires n <= |levels| && AreLevels(levels)
    ensures Counts(levels, n, maxDepth) == [] || |Counts(levels, n, maxDepth)| <= maxDepth
  {
    if n > 0 {
      CountsWithin(levels, n - 1, maxDepth);
    }
  }

  /** The counter of a section goes up by one. */
  lemma BumpIs(counts: seq<nat>, level: nat, subcount: seq<nat>)
    requires level >= 1 && subcount == Resized(counts, level)
    ensures Bump(counts, level) == subcount[level - 1 := subcount[level - 1] + 1]
  {
  }

  lemma PrefixesAfterBump(numbering: seq<string>, subcount: seq<nat>, more: seq<nat>, base: nat)
    requires Prefixes(numbering, subcount, base) && |subcount| == base + |numbering| && numbering != []
    requires more == subcount[|subcount| - 1 := subcount[|subcount| - 1] + 1]
    ensures Prefixes(numbering, more, base)
    ensures numbering[|numbering| - 1] + Decimal(more[|more| - 1]) == Label(Shown(more)) && Shown(more) != []
  {
    forall j | 0 <= j < |numbering| ensures numbering[j] == DotsAt(more, base + j) {
      NonZeroSeesPrefix(subcount, more, base + j);
    }
    var n := |more| - 1;
    LabelIsDots(NonZero(more, n), more[n]);
  }

  // ---- the whole table

  function Least(levels: seq<nat>, n: nat): (least: nat)
    requires 0 < n <= |levels|
    ensures forall i :: 0 <= i < n ==> least <= levels[i]
    ensures exists i :: 0 <= i < n && levels[i] == least
  {
    if n == 1 then levels[0]
    else if levels[n - 1] < Least(levels, n - 1) then levels[n - 1] else Least(levels, n - 1)
  }

  /** The first section is made as little deep as any. */
  function Lowered(sections: seq<Section>): (r: seq<Section>)
    requires sections != []
    ensures |r| == |sections|
    ensures AreLevels(LevelsOf(sections)) ==> AreLevels(LevelsOf(r))
    ensures forall i :: 0 <= i < |r| ==> LevelsOf(r)[0] <= LevelsOf(r)[i]
  {
    var least := Least(LevelsOf(sections), |sections|);
    var r := sections[0 := sections[0].(level := least)];
    assert LevelsOf(r)[0] == least;
    assert forall i :: 0 < i < |r| ==> LevelsOf(r)[i] == r[i].level == LevelsOf(sections)[i];
    r
  }

  method LowerFirst(sections: seq<Section>) returns (r: seq<Section>)
    requires sections != []
    ensures r == Lowered(sections)
  {
    var least := sections[0].level;
    var i := 1;
    while i < |sections|
      invariant 1 <= i <= |sections| && least == Least(LevelsOf(sections), i)
    {
      if sections[i].level < least {
        least := sections[i].level;
      }
      i := i + 1;
    }
    r := sections[0 := sections[0].(level := least)];
  }

  /** What the counters are after `n` sections: those of the shown ones, as long as the last section is deep. */
  ghost predicate Counted(levels: seq<nat>, n: nat, maxDepth: int, subcount: seq<nat>, depth: nat)
    requires n <= |levels| && AreLevels(levels)
  {
    var counts := Counts(levels, n, maxDepth);
    && |counts| <= depth
    && if n == 0 then subcount == [] else depth == levels[n - 1] && subcount == Resized(counts, depth)
  }

  /** The counters for the next section, `r` long, and counted up if it is shown. */
  lemma CountedNext(levels: seq<nat>, n: nat, maxDepth: int, subcount: seq<nat>, depth: nat, level: nat, r: seq<nat>)
    requires n < |levels| && AreLevels(levels) && Counted(levels, n, maxDepth, subcount, depth)
    requires level == levels[n] && r == Resized(subcount, level)
    ensures WillCount(levels, n, maxDepth, r)
  {
    var counts := Counts(levels, n, maxDepth);
    ResizedTwice(counts, subcount, depth, level);
    CountsWithin(levels, n, maxDepth);
    BumpIs(counts, level, r);
  }

  /** What the loop keeps. */
  ghost predicate Rendered(c: Cursor, top: Cursor, sections: seq<Section>, n: nat, base: nat, maxDepth: int,
                           subcount: seq<nat>, numbering: seq<string>)
    requires n <= |sections| && AreLevels(LevelsOf(sections))
  {
    && Counted(LevelsOf(sections), n, maxDepth, subcount, base + |numbering|)
    && Prefixes(numbering, subcount, base)
    && (if n == 0 then numbering == [] else sections[n - 1].level == base + |numbering|)
    && InLists(c, top, |top.path|, ListsOpen(|numbering|, maxDepth),
               PiecesOf(sections, n, base, maxDepth))
  }

  lemma {:induction false} RenderedNext(c: Cursor, top: Cursor, sections: seq<Section>, n: nat, base: nat,
                                        maxDepth: int, subcount: seq<nat>, numbering: seq<string>, all: seq<Piece>)
    requires n < |sections| && AreLevels(LevelsOf(sections))
    requires sections[n].level == base + |numbering| && Prefixes(numbering, subcount, base)
    requires Counted(LevelsOf(sections), n + 1, maxDepth, subcount, sections[n].level)
    requires all == PiecesOf(sections, n + 1, base, maxDepth)
    requires InLists(c, top, |top.path|, ListsOpen(|numbering|, maxDepth), all)
    ensures Rendered(c, top, sections, n + 1, base, maxDepth, subcount, numbering)
  {
  }

  lemma PiecesNext(sections: seq<Section>, n: nat, base: nat, maxDepth: int, moved: seq<Piece>)
    requires n < |sections| && AreLevels(LevelsOf(sections))
    requires moved == MovedTo(sections, n + 1, base, maxDepth)
    ensures sections[n].level > maxDepth ==> PiecesOf(sections, n + 1, base, maxDepth) == moved
    ensures sections[n].level <= maxDepth ==>
              var counts := Counts(LevelsOf(sections), n + 1, maxDepth);
              && counts != []
              && PiecesOf(sections, n + 1, base, maxDepth) == moved + [Item(ItemOf(counts, sections[n].title))]
  {
    assert LevelsOf(sections)[n] == sections[n].level;
    assert moved + [] == moved;
  }

  lemma CountedIsResized(levels: seq<nat>, n: nat, maxDepth: int, subcount: seq<nat>, depth: nat)
    requires n < |levels| && AreLevels(levels) && Counted(levels, n, maxDepth, subcount, depth)
    ensures |subcount| <= depth && (levels[n] <= depth ==> |subcount| == depth || n == 0)
  {
  }

  /** The item of a section, where the cursor is at its depth. */
  method RenderItem(e: CElement, section: Section, ghost base: nat, counters: seq<nat>, prefixes: seq<string>)
    returns (counts: seq<nat>)
    requires e.Valid() && |counters| == section.level == base + |prefixes| && prefixes != []
    requires Prefixes(prefixes, counters, base)
    modifies e
    ensures counts == counters[section.level - 1 := counters[section.level - 1] + 1]
    ensures e.Valid() && Prefixes(prefixes, counts, base)
    ensures e.View() == Appended(old(e.View()), ItemOf(counts, section.title))
  {
    counts := counters[section.level - 1 := counters[section.level - 1] + 1];
    PrefixesAfterBump(prefixes, counters, counts, base);
    AppendItem(e, prefixes[|prefixes| - 1], Decimal(counts[section.level - 1]), section.title);
  }

  /** The item with the number of these counters. */
  function ItemOf(counts: seq<nat>, title: string): Node
    requires counts != []
  {
    ItemNode(DotsAt(counts, |counts| - 1), Decimal(counts[|counts| - 1]), title)
  }

  /** One section: to its depth, and then its item, unless it is too deep. */
  method RenderSection(e: CElement, sections: seq<Section>, n: nat, base: nat, maxDepth: int, subcount: seq<nat>,
                       numbering: seq<string>, ghost top: Cursor)
    returns (counts: seq<nat>, prefixes: seq<string>)
    requires n < |sections| && AreLevels(LevelsOf(sections)) && sections[n].level > base && e.Valid()
    requires Rendered(e.View(), top, sections, n, base, maxDepth, subcount, numbering)
    modifies e
    ensures e.Valid() && Rendered(e.View(), top, sections, n + 1, base, maxDepth, counts, prefixes)
  {
    ghost var (levels, items) := (LevelsOf(sections), PiecesOf(sections, n, base, maxDepth));
    var level := sections[n].level;
    CountedIsResized(levels, n, maxDepth, subcount, base + |numbering|);
    counts, prefixes := GoTo(e, level, base + |numbering|, base, subcount, numbering, maxDepth, top, items);
    CountedNext(levels, n, maxDepth, subcount, base + |numbering|, level, counts);
    ghost var moved := items + Moves(ListsOpen(|numbering|, maxDepth), ListsOpen(|prefixes|, maxDepth));
    counts := AddSection(e, sections, n, base, maxDepth, counts, prefixes, top, moved);
  }

  /** These counters are those after the next section, once the last of them is counted up if it is shown. */
  ghost predicate WillCount(levels: seq<nat>, n: nat, maxDepth: int, counts: seq<nat>)
    requires n < |levels| && AreLevels(levels)
  {
    && |counts| == levels[n]
    && if levels[n] <= maxDepth then
         var counted := counts[levels[n] - 1 := counts[levels[n] - 1] + 1];
         Counts(levels, n + 1, maxDepth) == counted && Counted(levels, n + 1, maxDepth, counted, levels[n])
       else Counted(levels, n + 1, maxDepth, counts, levels[n])
  }

  /** The section's item, if it is not too deep, where the cursor is at its depth already. */
  method AddSection(e: CElement, sections: seq<Section>, n: nat, ghost base: nat, maxDepth: int, counts: seq<nat>,
                    prefixes: seq<string>, ghost top: Cursor, ghost moved: seq<Piece>)
    returns (counted: seq<nat>)
    requires e.Valid() && n < |sections| && AreLevels(LevelsOf(sections)) && prefixes != []
    requires WillCount(LevelsOf(sections), n, maxDepth, counts)
    requires sections[n].level == base + |prefixes| && Prefixes(prefixes, counts, base)
    requires InLists(e.View(), top, |top.path|, ListsOpen(|prefixes|, maxDepth), moved)
    requires moved == MovedTo(sections, n + 1, base, maxDepth)
    modifies e
    ensures e.Valid() && Rendered(e.View(), top, sections, n + 1, base, maxDepth, counted, prefixes)
  {
    var level := sections[n].level;
    ghost var all := moved;
    assert LevelsOf(sections)[n] == level;
    PiecesNext(sections, n, base, maxDepth, moved);
    counted := counts;
    if level <= maxDepth {
      ghost var c := e.View();
      counted := RenderItem(e, sections[n], base, counts, prefixes);
      ItemComes(c, top, |top.path|, ListsOpen(|prefixes|, maxDepth), moved, ItemOf(counted, sections[n].title));
      all := moved + [Item(ItemOf(counted, sections[n].title))];
    }
    RenderedNext(e.View(), top, sections, n, base, maxDepth, counted, prefixes, all);
  }

  /**
   The items of the sections that are not too deep, in their order and each with its number, go into lists below the
   cursor, each into as many as its section is deep; lists only open on the way down and only close on the way up. The
   cursor ends in as many lists as the last section is deep, and nothing above is touched.
   */
  method Render(e: CElement, sections: seq<Section>, maxLevels: int, enabled: bool)
    requires e.Valid() && AreLevels(LevelsOf(sections))
    modifies e
    ensures e.Valid()
    ensures !enabled || sections == [] ==> e.View() == old(e.View())
    ensures enabled && sections != [] ==>
              var lowered := Lowered(sections);
              var base := lowered[0].level - 1;
              InLists(e.View(), old(e.View()), |old(e.path)|,
                      ListsOpen(lowered[|lowered| - 1].level - base, base + maxLevels),
                      PiecesOf(lowered, |lowered|, base, base + maxLevels))
  {
    if !enabled || sections == [] {
      return;
    }
    var lowered := LowerFirst(sections);
    var base := lowered[0].level - 1;
    forall i | 0 <= i < |lowered|
      ensures lowered[i].level > base
    {
      assert LevelsOf(lowered)[i] == lowered[i].level && LevelsOf(lowered)[0] == lowered[0].level;
    }
    RenderAll(e, lowered, base, base + maxLevels);
  }

  /** The loop over the sections. */
  method RenderAll(e: CElement, lowered: seq<Section>, base: nat, maxDepth: int)
    requires e.Valid() && lowered != [] && AreLevels(LevelsOf(lowered))
    requires forall i :: 0 <= i < |lowered| ==> lowered[i].level > base
    modifies e
    ensures e.Valid()
    ensures InLists(e.View(), old(e.View()), |old(e.path)|, ListsOpen(lowered[|lowered| - 1].level - base, maxDepth),
                    PiecesOf(lowered, |lowered|, base, maxDepth))
  {
    ghost var top := e.View();
    var subcount: seq<nat>, numbering: seq<string> := [], [];
    var n := 0;
    while n < |lowered|
      invariant n <= |lowered| && e.Valid()
      invariant Rendered(e.View(), top, lowered, n, base, maxDepth, subcount, numbering)
    {
      subcount, numbering := RenderSection(e, lowered, n, base, maxDepth, subcount, numbering, top);
      n := n + 1;
    }
    RenderedInLists(e.View(), top, lowered, base, maxDepth, subcount, numbering);
  }

  lemma {:induction false} RenderedInLists(c: Cursor, top: Cursor, sections: seq<Section>, base: nat, maxDepth: int,
                                           subcount: seq<nat>, numbering: seq<string>)
    requires sections != [] && AreLevels(LevelsOf(sections)) && sections[|sections| - 1].level >= base
    requires Rendered(c, top, sections, |sections|, base, maxDepth, subcount, numbering)
    ensures InLists(c, top, |top.path|, ListsOpen(sections[|sections| - 1].level - base, maxDepth),
                    PiecesOf(sections, |sections|, base, maxDepth))
  {
  }
}
