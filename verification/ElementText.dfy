/** The text below a cursor, with the place of each character in the tree, and what the operations do to it. */
module ElementText {
  import opened Wrappers
  import opened ElementCursor

  /** An element by its name, and the number of its place among the children of its parent. */
  type Spot = seq<(Name, nat)>

  /** A character that is no space, and the elements around it, outermost first. */
  datatype Leaf = Leaf(c: char, spot: Spot)

  function LeavesUpTo(s: string, n: nat, spot: Spot): seq<Leaf>
    requires n <= |s|
  {
    if n == 0 then [] else LeavesUpTo(s, n - 1, spot) + if IsSpace(s[n - 1]) then [] else [Leaf(s[n - 1], spot)]
  }

  function Leaves(s: string, spot: Spot): seq<Leaf> { LeavesUpTo(s, |s|, spot) }

  /** The text in a node that is the k-th child of what stands at `spot`. */
  function InNode(node: Node, spot: Spot, k: nat): seq<Leaf>
    decreases node, 0
  {
    match node
    case TextNode(text) => Leaves(text, spot)
    case Elem(name, children) => InNodes(children, |children|, spot + [(name, k)])
  }

  /** The text in the first `n` children of what stands at `spot`. */
  function InNodes(nodes: seq<Node>, n: nat, spot: Spot): seq<Leaf>
    requires n <= |nodes|
    decreases nodes, n
  {
    if n == 0 then [] else InNodes(nodes, n - 1, spot) + InNode(nodes[n - 1], spot, n - 1)
  }

  /** Where the n-th element of the path stands: an open element will be the next child of its parent. */
  function SpotAt(path: seq<Frame>, n: nat): Spot
    requires n <= |path|
  {
    if n == 0 then []
    else SpotAt(path, n - 1) + [(path[n - 1].name, if n == 1 then 0 else |path[n - 2].children|)]
  }

  function SpotOf(c: Cursor): Spot { SpotAt(c.path, |c.path|) }

  /** The text in the first `n` elements of the path, in document order. */
  function InPath(path: seq<Frame>, n: nat): seq<Leaf>
    requires n <= |path|
  {
    if n == 0 then []
    else InPath(path, n - 1) + InNodes(path[n - 1].children, |path[n - 1].children|, SpotAt(path, n))
  }

  /** All text there is, with what has not yet been put into the tree. */
  function TextOf(c: Cursor): seq<Leaf> { InPath(c.path, |c.path|) + Leaves(c.buffer, SpotOf(c)) }

  // ---- joining

  lemma Associative(a: seq<Leaf>, b: seq<Leaf>, c: seq<Leaf>)
    ensures a + (b + c) == (a + b) + c
  {
  }

  lemma {:induction false} LeavesSeePrefix(a: string, b: string, n: nat, spot: Spot)
    requires n <= |a| && n <= |b| && forall i :: 0 <= i < n ==> a[i] == b[i]
    ensures LeavesUpTo(a, n, spot) == LeavesUpTo(b, n, spot)
  {
    if n > 0 {
      LeavesSeePrefix(a, b, n - 1, spot);
    }
  }

  lemma {:induction false} LeavesInTwo(a: string, b: string, n: nat, spot: Spot)
    requires n <= |b|
    ensures LeavesUpTo(a + b, |a| + n, spot) == Leaves(a, spot) + LeavesUpTo(b, n, spot)
  {
    if n == 0 {
      LeavesSeePrefix(a + b, a, |a|, spot);
    } else {
      LeavesInTwo(a, b, n - 1, spot);
      assert (a + b)[|a| + n - 1] == b[n - 1];
    }
  }

  lemma {:induction false} BlankHasNoLeaves(s: string, n: nat, spot: Spot)
    requires n <= |s| && Blank(s)
    ensures LeavesUpTo(s, n, spot) == []
  {
    if n > 0 {
      assert s[n - 1] in s;
      BlankHasNoLeaves(s, n - 1, spot);
    }
  }

  lemma {:induction false} NodesSeePrefix(a: seq<Node>, b: seq<Node>, n: nat, spot: Spot)
    requires n <= |a| && n <= |b| && forall i :: 0 <= i < n ==> a[i] == b[i]
    ensures InNodes(a, n, spot) == InNodes(b, n, spot)
    decreases n
  {
    if n > 0 {
      NodesSeePrefix(a, b, n - 1, spot);
    }
  }

  lemma NodeAdded(nodes: seq<Node>, node: Node, spot: Spot)
    ensures InNodes(nodes + [node], |nodes| + 1, spot) == InNodes(nodes, |nodes|, spot) + InNode(node, spot, |nodes|)
  {
    NodesSeePrefix(nodes, nodes + [node], |nodes|, spot);
  }

  /** The spots on a path depend on the names, and on what each element has in front of the next. */
  lemma {:induction false} PathSeesPrefix(a: seq<Frame>, b: seq<Frame>, n: nat)
    requires n <= |a| && n <= |b| && forall i :: 0 <= i < n ==> a[i] == b[i]
    ensures SpotAt(a, n) == SpotAt(b, n) && InPath(a, n) == InPath(b, n)
  {
    if n > 0 {
      PathSeesPrefix(a, b, n - 1);
    }
  }

  lemma {:induction false} SpotOfLast(a: seq<Frame>, b: seq<Frame>)
    requires |a| == |b| > 0 && (forall i :: 0 <= i < |a| - 1 ==> a[i] == b[i]) && a[|a| - 1].name == b[|a| - 1].name
    ensures SpotAt(a, |a|) == SpotAt(b, |a|) && InPath(a, |a| - 1) == InPath(b, |a| - 1)
  {
    PathSeesPrefix(a, b, |a| - 1);
  }

  // ---- the moves

  /** A node is read behind all that there was. */
  lemma AppendAddsText(c: Cursor, node: Node)
    requires c.path != [] && c.buffer == ""
    ensures TextOf(Appended(c, node)) == TextOf(c) + InNode(node, SpotOf(c), |c.Last().children|)
    ensures SpotOf(Appended(c, node)) == SpotOf(c)
  {
    var r := Appended(c, node);
    var n := |c.path|;
    var children := c.Last().children;
    SpotOfLast(c.path, r.path);
    NodeAdded(children, node, SpotOf(c));
    Associative(InPath(c.path, n - 1), InNodes(children, |children|, SpotOf(c)), InNode(node, SpotOf(c), |children|));
    assert r.path[n - 1].children == children + [node];
    assert InPath(r.path, n) + Leaves("", SpotOf(r)) == InPath(r.path, n);
    assert InPath(c.path, n) + Leaves("", SpotOf(c)) == InPath(c.path, n);
  }

  /** What was held back is in the tree, in the element in which it was written. */
  lemma FlushKeepsText(c: Cursor)
    requires c.path != []
    ensures TextOf(Flushed(c)) == TextOf(c) && SpotOf(Flushed(c)) == SpotOf(c)
  {
    var bare := c.(buffer := "");
    assert TextOf(bare) == InPath(c.path, |c.path|) && SpotOf(bare) == SpotOf(c);
    if Blank(c.buffer) {
      BlankHasNoLeaves(c.buffer, |c.buffer|, SpotOf(c));
    } else {
      AppendAddsText(bare, TextNode(c.buffer));
      assert Flushed(c) == Appended(bare, TextNode(c.buffer));
    }
  }

  lemma ChildKeepsText(c: Cursor, name: Name, tagtype: Option<string>)
    requires c.path != [] && c.buffer == ""
    ensures TextOf(ChildOf(c, name, tagtype)) == TextOf(c)
    ensures SpotOf(ChildOf(c, name, tagtype)) == SpotOf(c) + [(name, |c.Last().children|)]
  {
    var r := ChildOf(c, name, tagtype);
    PathSeesPrefix(c.path, r.path, |c.path|);
    assert InNodes([], 0, SpotOf(r)) == [];
  }

  /** An element that is left keeps its text, and its place. */
  lemma RiseKeepsText(c: Cursor)
    requires CanRise(c) && c.buffer == ""
    ensures TextOf(ParentOf(c)) == TextOf(c) && SpotOf(ParentOf(c)) == SpotAt(c.path, |c.path| - 1)
  {
    var n := |c.path|;
    var (parent, f, up) := (c.path[n - 2], c.path[n - 1], c.(path := c.path[..n - 1]));
    PathSeesPrefix(c.path, up.path, n - 1);
    assert TextOf(up) == InPath(c.path, n - 1) && SpotOf(up) == SpotAt(c.path, n - 1);
    assert TextOf(c) == InPath(c.path, n - 1) + InNodes(f.children, |f.children|, SpotOf(c));
    assert SpotOf(c) == SpotOf(up) + [(f.name, |parent.children|)];
    if f.name == P && f.children == [] {
      AppendAddsText(up, Elem(Br, []));
      assert ParentOf(c).path == if parent.name == Pre then up.path else Appended(up, Elem(Br, [])).path;
      TextOfPath(ParentOf(c), if parent.name == Pre then up else Appended(up, Elem(Br, [])));
    } else {
      AppendAddsText(up, Elem(f.name, f.children));
      assert ParentOf(c).path == Appended(up, Elem(f.name, f.children)).path;
      TextOfPath(ParentOf(c), Appended(up, Elem(f.name, f.children)));
    }
  }

  lemma TextOfPath(a: Cursor, b: Cursor)
    requires a.path == b.path && a.buffer == b.buffer
    ensures TextOf(a) == TextOf(b) && SpotOf(a) == SpotOf(b)
  {
  }

  // ---- the operations

  lemma {:induction false} ClimbKeepsText(c: Cursor, tagtype: string)
    requires c.path != [] && c.buffer == ""
    ensures TextOf(Climb(c, tagtype)) == TextOf(c) && Climb(c, tagtype).buffer == ""
    decreases |c.path|
  {
    if !(TableOnly(c.Last().name) && HasType(c.Last(), tagtype)) && CanRise(c) {
      RiseKeepsText(c);
      ClimbKeepsText(ParentOf(c), tagtype);
    }
  }

  lemma CellEndKeepsText(c: Cursor, tagtype: string)
    requires c.path != []
    ensures TextOf(CellEnded(c, tagtype)) == TextOf(c) && CellEnded(c, tagtype).buffer == ""
  {
    FlushKeepsText(c);
    ClimbKeepsText(Flushed(c), tagtype);
    var climbed := Climbed(Flushed(c), tagtype);
    if CanRise(climbed) {
      RiseKeepsText(climbed);
    }
  }

  lemma RowEndKeepsText(c: Cursor, tagtype: string)
    requires c.path != []
    ensures TextOf(RowEnded(c, tagtype)) == TextOf(c) && RowEnded(c, tagtype).buffer == ""
  {
    CellEndKeepsText(c, tagtype);
    if CanRise(CellEnded(c, tagtype)) {
      RiseKeepsText(CellEnded(c, tagtype));
    }
  }

  lemma RowStartKeepsText(c: Cursor, tagtype: string)
    requires c.path != []
    ensures TextOf(RowStarted(c, tagtype)) == TextOf(c) && RowStarted(c, tagtype).buffer == ""
  {
    RowEndKeepsText(c, tagtype);
    ChildKeepsText(RowEnded(c, tagtype), Tr, Some(tagtype));
  }

  lemma CellStartKeepsText(c: Cursor, tagtype: string, name: Name)
    requires c.path != []
    ensures TextOf(CellStarted(c, tagtype, name)) == TextOf(c)
  {
    CellEndKeepsText(c, tagtype);
    RowStartKeepsText(CellEnded(c, tagtype), tagtype);
    ChildKeepsText(RowFor(CellEnded(c, tagtype), tagtype), name, Some(tagtype));
  }

  /** What an operation adds to the text: text where the cursor is, or a node as its next child. */
  function AddedBy(c: Cursor, op: Operation): seq<Leaf>
    requires c.path != []
  {
    match op {
      case DoText(text) => Leaves(text, SpotOf(c))
      case DoAppend(node) => InNode(node, SpotOf(c), |c.Last().children| + if Blank(c.buffer) then 0 else 1)
      case _ => []
    }
  }

  /**
   Every operation, be it allowed or not, keeps all text that is not blank, in its order and each character in the
   elements in which it was written; it adds just what it is for.
   */
  lemma OperationKeepsText(c: Cursor, op: Operation, tagtype: string)
    requires c.path != []
    ensures TextOf(Apply(c, op, tagtype)) == TextOf(c) + AddedBy(c, op)
  {
    var f := Flushed(c);
    FlushKeepsText(c);
    assert TextOf(c) + [] == TextOf(c);
    match op {
      case DoStartTable => ChildKeepsText(f, Table, Some(tagtype));
      case DoStartRow => RowStartKeepsText(c, tagtype);
      case DoStartCell(header) => CellStartKeepsText(c, tagtype, CellName(header));
      case DoStartCaption => {
        RowEndKeepsText(c, tagtype);
        ChildKeepsText(RowEnded(c, tagtype), Caption, Some(tagtype));
      }
      case DoEndRow => RowEndKeepsText(c, tagtype);
      case DoEndTable => {
        RowEndKeepsText(c, tagtype);
        if CanRise(RowEnded(c, tagtype)) {
          RiseKeepsText(RowEnded(c, tagtype));
        }
      }
      case DoOpen(name, otherType) => ChildKeepsText(f, name, otherType);
      case DoClose => {
        if CanRise(f) {
          RiseKeepsText(f);
        }
      }
      case DoAppend(node) => AppendAddsText(f, node);
      case DoText(text) => {
        LeavesInTwo(c.buffer, text, |text|, SpotOf(c));
        Associative(InPath(c.path, |c.path|), Leaves(c.buffer, SpotOf(c)), Leaves(text, SpotOf(c)));
      }
      case DoFlush => {}
    }
  }

  function AddedByAll(c: Cursor, ops: seq<Operation>, tagtype: string): seq<Leaf>
    requires c.path != []
    decreases |ops|
  {
    if ops == [] then [] else AddedBy(c, ops[0]) + AddedByAll(Apply(c, ops[0], tagtype), ops[1..], tagtype)
  }

  /** So does every run. */
  lemma {:induction false} RunKeepsText(c: Cursor, ops: seq<Operation>, tagtype: string)
    requires c.path != []
    ensures TextOf(Run(c, ops, tagtype)) == TextOf(c) + AddedByAll(c, ops, tagtype)
    decreases |ops|
  {
    if ops == [] {
      assert TextOf(c) + [] == TextOf(c);
    } else {
      var next := Apply(c, ops[0], tagtype);
      OperationKeepsText(c, ops[0], tagtype);
      RunKeepsText(next, ops[1..], tagtype);
      Associative(TextOf(c), AddedBy(c, ops[0]), AddedByAll(next, ops[1..], tagtype));
    }
  }

  // ---- cells

  lemma {:induction false} SpotAtIsPrefix(path: seq<Frame>, k: nat, n: nat)
    requires k <= n <= |path|
    ensures SpotAt(path, k) <= SpotAt(path, n) && |SpotAt(path, n)| == n && |SpotAt(path, k)| == k
  {
    if n > 0 {
      SpotAtIsPrefix(path, if k < n then k else k - 1, n - 1);
    }
  }

  lemma {:induction false} LeavesAreAtSpot(s: string, n: nat, spot: Spot, i: nat)
    requires n <= |s| && i < |LeavesUpTo(s, n, spot)|
    ensures LeavesUpTo(s, n, spot)[i].spot == spot
  {
    if i < |LeavesUpTo(s, n - 1, spot)| {
      LeavesAreAtSpot(s, n - 1, spot, i);
    }
  }

  /**
   Text that is written in a cell, the k-th element of the path, is in that very cell whatever follows, also once it
   has been closed: `j` is where a character of it is read.
   */
  lemma TextStaysInCell(c: Cursor, base: nat, text: string, ops: seq<Operation>, tagtype: string, i: nat)
    returns (k: nat, j: nat)
    requires Shadows(c, base) && PlaceOf(c, base, tagtype) == InCell && i < |Leaves(text, SpotOf(c))|
    ensures k <= |c.path| && k > 0 && IsCell(c.path[k - 1].name) && HasType(c.path[k - 1], tagtype)
    ensures var all := TextOf(Run(c, [DoText(text)] + ops, tagtype));
            j < |all| && all[j].c == Leaves(text, SpotOf(c))[i].c && SpotAt(c.path, k) <= all[j].spot
  {
    k := GroundLength(c.path, base, |c.path|, tagtype) + 1;
    CellOfGround(c, base, tagtype);
    SpotAtIsPrefix(c.path, k, |c.path|);
    LeavesAreAtSpot(text, |text|, SpotOf(c), i);
    var all := [DoText(text)] + ops;
    RunKeepsText(c, all, tagtype);
    assert all[0] == DoText(text);
    j := |TextOf(c)| + i;
  }
}
