/**
 CElement: a cursor in a DOM tree that keeps the names of the elements it has entered on a stack of its
 own, and the table operations built on it.
 */
module ElementCursor {
  import opened Wrappers

  /** Element names; the ones that the operations look for have a constructor of their own. */
  datatype Name =
    | Table | Tr | Td | Th | Caption | P | Pre | Br | Ul | Ol | Dl | Li | Dt | Dd
    | Named(name: string)

  /** Of the attributes only "tagtype" matters here, and a closed element has lost it. */
  datatype Node =
    | TextNode(text: string)
    | Elem(name: Name, children: seq<Node>)

  /** An element on the way from the document to the cursor, with the children it has so far. */
  datatype Frame = Frame(name: Name, tagtype: Option<string>, children: seq<Node>) {
    function Add(child: Node): Frame { this.(children := children + [child]) }
  }

  /** `stack` is m_dom_stack, `buffer` the text not yet put in the tree. */
  datatype Cursor = Cursor(path: seq<Frame>, stack: seq<Name>, buffer: string) {
    function Last(): Frame
      requires path != []
    {
      path[|path| - 1]
    }
  }

  predicate HasType(f: Frame, tagtype: string) { f.tagtype == Some(tagtype) }

  predicate TableOnly(name: Name) { name == Caption || name == Td || name == Th || name == Tr }

  predicate IsCell(name: Name) { name == Td || name == Th || name == Caption }

  // ---- moving

  function ChildOf(c: Cursor, name: Name, tagtype: Option<string>): Cursor {
    c.(path := c.path + [Frame(name, tagtype, [])], stack := c.stack + [name])
  }

  /** The element as its parent keeps it: an empty paragraph turns into a line break, or into nothing. */
  function Left(parent: Frame, f: Frame): Frame {
    if f.name == P && f.children == [] then
      if parent.name == Pre then parent else parent.Add(Elem(Br, []))
    else parent.Add(Elem(f.name, f.children))
  }

  /** Can the cursor move up: there is a parent element, and a name to take from the stack. */
  predicate CanRise(c: Cursor) { |c.path| >= 2 && c.stack != [] }

  function ParentOf(c: Cursor): (r: Cursor)
    requires CanRise(c)
    ensures |r.path| == |c.path| - 1
  {
    var n := |c.path|;
    c.(path := c.path[..n - 2] + [Left(c.path[n - 2], c.path[n - 1])], stack := c.stack[..|c.stack| - 1])
  }

  /** The stack has the names of the elements from position `base` of the path on. */
  predicate Shadows(c: Cursor, base: nat) {
    && 1 <= base <= |c.path| && |c.stack| == |c.path| - base
    && forall i :: 0 <= i < |c.stack| ==> c.stack[i] == c.path[base + i].name
  }

  /** Moving keeps the stack and the path in step; up, as long as the cursor is below where it started. */
  lemma MovesKeepShadow(c: Cursor, base: nat, name: Name, tagtype: Option<string>)
    requires Shadows(c, base)
    ensures Shadows(ChildOf(c, name, tagtype), base)
    ensures |c.path| > base <==> CanRise(c) && |c.stack| > 0
    ensures |c.path| > base ==> Shadows(ParentOf(c), base)
  {
  }

  lemma CanStillRise(c: Cursor, base: nat)
    requires Shadows(c, base) && |c.path| > base
    ensures CanRise(c)
  {
  }

  // ---- text

  predicate IsSpace(ch: char) { ch == ' ' || '\t' <= ch <= '\r' }

  predicate Blank(s: string) { forall ch <- s :: IsSpace(ch) }

  function Appended(c: Cursor, node: Node): Cursor
    requires c.path != []
  {
    c.(path := c.path[|c.path| - 1 := c.Last().Add(node)])
  }

  function Flushed(c: Cursor): (r: Cursor)
    requires c.path != []
    ensures |r.path| == |c.path| && r.stack == c.stack && r.buffer == ""
  {
    if Blank(c.buffer) then c.(buffer := "") else Appended(c, TextNode(c.buffer)).(buffer := "")
  }

  // ---- table operations

  /** The loop of endCell: up to the next row, cell or caption of this type. */
  function Climb(c: Cursor, tagtype: string): (r: Cursor)
    requires c.path != []
    ensures 1 <= |r.path| <= |c.path|
    decreases |c.path|
  {
    if (TableOnly(c.Last().name) && HasType(c.Last(), tagtype)) || !CanRise(c) then c
    else Climb(ParentOf(c), tagtype)
  }

  function Climbed(f: Cursor, tagtype: string): (r: Cursor)
    requires f.path != []
    ensures r.path != []
  {
    if Table in f.stack && f.Last().name != Table then Climb(f, tagtype) else f
  }

  function LeaveCell(c: Cursor, tagtype: string): (r: Cursor)
    requires c.path != []
    ensures 1 <= |r.path| <= |c.path|
  {
    if HasType(c.Last(), tagtype) && IsCell(c.Last().name) && CanRise(c) then ParentOf(c) else c
  }

  function ClimbAndLeave(c: Cursor, tagtype: string): (r: Cursor)
    requires c.path != []
    ensures 1 <= |r.path| <= |c.path|
  {
    LeaveCell(Climbed(c, tagtype), tagtype)
  }

  function CellEnded(c: Cursor, tagtype: string): (r: Cursor)
    requires c.path != []
    ensures 1 <= |r.path| <= |c.path|
  {
    ClimbAndLeave(Flushed(c), tagtype)
  }

  function RowEnded(c: Cursor, tagtype: string): (r: Cursor)
    requires c.path != []
    ensures 1 <= |r.path| <= |c.path|
  {
    LeaveRow(CellEnded(c, tagtype))
  }

  function LeaveRow(c: Cursor): (r: Cursor)
    requires c.path != []
    ensures 1 <= |r.path| <= |c.path|
  {
    if c.Last().name == Tr && CanRise(c) then ParentOf(c) else c
  }

  function RowStarted(c: Cursor, tagtype: string): Cursor
    requires c.path != []
  {
    ChildOf(RowEnded(c, tagtype), Tr, Some(tagtype))
  }

  /** startCell and startHeader; without a row they start one. */
  function CellStarted(c: Cursor, tagtype: string, name: Name): Cursor
    requires c.path != []
  {
    ChildOf(RowFor(CellEnded(c, tagtype), tagtype), name, Some(tagtype))
  }

  function RowFor(c: Cursor, tagtype: string): Cursor
    requires c.path != []
  {
    if c.Last().name != Tr then RowStarted(c, tagtype) else c
  }

  function CaptionStarted(c: Cursor, tagtype: string): Cursor
    requires c.path != []
  {
    ChildOf(RowEnded(c, tagtype), Caption, Some(tagtype))
  }

  function TableStarted(c: Cursor, tagtype: string): Cursor
    requires c.path != []
  {
    ChildOf(Flushed(c), Table, Some(tagtype))
  }

  function TableEnded(c: Cursor, tagtype: string): Cursor
    requires c.path != []
  {
    var f := RowEnded(c, tagtype);
    if CanRise(f) then ParentOf(f) else f
  }

  // ---- where the cursor is

  /** In content: outside of every table of this type, or in a cell or caption of one. */
  datatype Place = Outside | InCell | OnTable | OnRow | Wrong

  function Enter(at: Place, f: Frame, tagtype: string): Place {
    if f.name == Table then
      if HasType(f, tagtype) && (at == Outside || at == InCell) then OnTable else Wrong
    else if TableOnly(f.name) && HasType(f, tagtype) then
      if at == OnTable && f.name == Tr then OnRow
      else if at == OnTable && f.name == Caption then InCell
      else if at == OnRow && (f.name == Td || f.name == Th) then InCell
      else Wrong
    else if f.name == Tr || at == OnTable || at == OnRow then Wrong
    else at
  }

  /** The place that the first `n` elements of the path lead to; the first `base` were there before. */
  function PlaceAt(path: seq<Frame>, base: nat, n: nat, tagtype: string): Place
    requires n <= |path|
  {
    if n <= base then Outside else Enter(PlaceAt(path, base, n - 1, tagtype), path[n - 1], tagtype)
  }

  function PlaceOf(c: Cursor, base: nat, tagtype: string): Place {
    PlaceAt(c.path, base, |c.path|, tagtype)
  }

  predicate InContent(at: Place) { at == Outside || at == InCell }

  /** On the table itself or on a row of it. */
  predicate OnGrid(at: Place) { at == OnTable || at == OnRow }

  predicate InTable(at: Place) { at == InCell || at == OnTable || at == OnRow }

  /** The first `n` elements are the same. */
  ghost predicate SameElements(a: seq<Frame>, b: seq<Frame>, n: int) {
    n <= |a| && n <= |b| && forall i :: 0 <= i < n ==> a[i] == b[i]
  }

  /** The first `n` elements have the same names and attributes. */
  ghost predicate SameNames(a: seq<Frame>, b: seq<Frame>, n: nat) {
    n <= |a| && n <= |b| && forall i :: 0 <= i < n ==> a[i].name == b[i].name && a[i].tagtype == b[i].tagtype
  }

  /** The place depends on the names and types on the path only. */
  lemma {:induction false} PlaceSeesNames(a: seq<Frame>, b: seq<Frame>, base: nat, n: nat, tagtype: string)
    requires SameNames(a, b, n)
    ensures PlaceAt(a, base, n, tagtype) == PlaceAt(b, base, n, tagtype)
  {
    if n > base {
      PlaceSeesNames(a, b, base, n - 1, tagtype);
    }
  }

  // ---- the tree

  /** A table holds rows and captions only, a row cells only. */
  predicate MayHold(name: Name, child: Node) {
    && (name == Table ==> child.Elem? && (child.name == Tr || child.name == Caption))
    && (name == Tr ==> child.Elem? && (child.name == Td || child.name == Th))
  }

  predicate GoodNode(node: Node) {
    node.Elem? ==>
      forall i :: 0 <= i < |node.children| ==> MayHold(node.name, node.children[i]) && GoodNode(node.children[i])
  }

  predicate GoodFrame(f: Frame) {
    forall i :: 0 <= i < |f.children| ==> MayHold(f.name, f.children[i]) && GoodNode(f.children[i])
  }

  /** All that hangs on the path from where the cursor started is as it should be. */
  predicate GoodPath(path: seq<Frame>, base: nat) {
    && 1 <= base <= |path|
    && path[base - 1].name != Table && path[base - 1].name != Tr
    && forall i :: base - 1 <= i < |path| ==> GoodFrame(path[i])
  }

  /** What moving up keeps. */
  predicate OkTree(c: Cursor, base: nat, tagtype: string) {
    Shadows(c, base) && PlaceOf(c, base, tagtype) != Wrong && GoodPath(c.path, base)
  }

  /** What every run of the operations keeps: besides, text is held back in content only. */
  predicate Ok(c: Cursor, base: nat, tagtype: string) {
    OkTree(c, base, tagtype) && (InContent(PlaceOf(c, base, tagtype)) || Blank(c.buffer))
  }

  lemma AddKeepsGood(f: Frame, child: Node)
    requires GoodFrame(f) && MayHold(f.name, child) && GoodNode(child)
    ensures GoodFrame(f.Add(child))
  {
  }

  lemma LeavingKeepsGood(parent: Frame, f: Frame)
    requires GoodFrame(parent) && GoodFrame(f)
    requires parent.name == Table ==> f.name == Tr || f.name == Caption
    requires parent.name == Tr ==> f.name == Td || f.name == Th
    ensures var r := Left(parent, f);
            && GoodFrame(r) && r.name == parent.name && r.tagtype == parent.tagtype
            && parent.children <= r.children
  {
    if f.name == P && f.children == [] {
      AddKeepsGood(parent, Elem(Br, []));
    } else {
      AddKeepsGood(parent, Elem(f.name, f.children));
    }
  }

  /** A table or row leads to its own kind of place, in which only its own kind of element can be. */
  lemma ParentMayHold(path: seq<Frame>, base: nat, n: nat, tagtype: string)
    requires base < n <= |path| && base >= 1 && PlaceAt(path, base, n, tagtype) != Wrong
    requires path[base - 1].name != Table && path[base - 1].name != Tr
    ensures path[n - 2].name == Table ==> path[n - 1].name == Tr || path[n - 1].name == Caption
    ensures path[n - 2].name == Tr ==> path[n - 1].name == Td || path[n - 1].name == Th
  {
    if n - 1 > base {
      var at := PlaceAt(path, base, n - 2, tagtype);
      assert PlaceAt(path, base, n - 1, tagtype) == Enter(at, path[n - 2], tagtype);
    }
  }

  lemma RiseKeepsPlace(c: Cursor, base: nat, tagtype: string)
    requires Shadows(c, base) && |c.path| > base && PlaceOf(c, base, tagtype) != Wrong
    ensures CanRise(c)
    ensures var (n, r) := (|c.path|, ParentOf(c));
            Shadows(r, base) && PlaceOf(r, base, tagtype) == PlaceAt(c.path, base, n - 1, tagtype) != Wrong
  {
    PlaceSeesNames(c.path, ParentOf(c).path, base, |c.path| - 1, tagtype);
  }

  /** What leaves for its parent may be there. */
  predicate MayBeIn(parent: Name, name: Name) {
    (parent == Table ==> name == Tr || name == Caption) && (parent == Tr ==> name == Td || name == Th)
  }

  lemma RiseKeepsGood(c: Cursor, base: nat)
    requires GoodPath(c.path, base) && |c.path| > base && CanRise(c)
    requires MayBeIn(c.path[|c.path| - 2].name, c.path[|c.path| - 1].name)
    ensures GoodPath(ParentOf(c).path, base)
  {
    LeavingKeepsGood(c.path[|c.path| - 2], c.path[|c.path| - 1]);
  }

  /** Moving up keeps all of it. */
  lemma RiseKeepsTree(c: Cursor, base: nat, tagtype: string)
    requires OkTree(c, base, tagtype) && |c.path| > base
    ensures CanRise(c) && OkTree(ParentOf(c), base, tagtype)
  {
    RiseKeepsPlace(c, base, tagtype);
    ParentMayHold(c.path, base, |c.path|, tagtype);
    RiseKeepsGood(c, base);
  }

  // ---- closing elements

  /** Up until the path has `n` elements. */
  function CloseTo(c: Cursor, n: nat): (r: Cursor)
    requires 1 <= n
    ensures |r.path| <= |c.path| && (c.path != [] ==> r.path != []) && r.buffer == c.buffer
    decreases |c.path|
  {
    if |c.path| <= n || !CanRise(c) then c else CloseTo(ParentOf(c), n)
  }

  lemma CloseStep(c: Cursor, n: nat)
    requires 1 <= n < |c.path| && CanRise(c)
    ensures CloseTo(c, n) == CloseTo(ParentOf(c), n)
    ensures n == |c.path| - 1 ==> CloseTo(c, n) == ParentOf(c)
  {
  }

  lemma {:induction false} CloseToInTwo(c: Cursor, m: nat, n: nat)
    requires 1 <= n <= m
    ensures CloseTo(CloseTo(c, m), n) == CloseTo(c, n)
    decreases |c.path|
  {
    if |c.path| > m && CanRise(c) {
      CloseToInTwo(ParentOf(c), m, n);
    }
  }

  // ---- what the operations close

  /** How long the path is at the innermost cell or caption, at the row or table around it, at the table. */
  function CellLength(path: seq<Frame>, base: nat, n: nat, tagtype: string): (k: nat)
    requires n <= |path| && PlaceAt(path, base, n, tagtype) == InCell
    ensures base < k <= n && PlaceAt(path, base, k, tagtype) == InCell
    ensures IsCell(path[k - 1].name) && HasType(path[k - 1], tagtype)
    ensures OnGrid(PlaceAt(path, base, k - 1, tagtype))
  {
    if TableOnly(path[n - 1].name) && HasType(path[n - 1], tagtype) then n
    else CellLength(path, base, n - 1, tagtype)
  }

  function GroundLength(path: seq<Frame>, base: nat, n: nat, tagtype: string): (k: nat)
    requires n <= |path| && InTable(PlaceAt(path, base, n, tagtype))
    ensures base < k <= n && OnGrid(PlaceAt(path, base, k, tagtype))
  {
    if PlaceAt(path, base, n, tagtype) == InCell then CellLength(path, base, n, tagtype) - 1 else n
  }

  function TableLength(path: seq<Frame>, base: nat, n: nat, tagtype: string): (k: nat)
    requires n <= |path| && InTable(PlaceAt(path, base, n, tagtype))
    ensures base < k <= n && PlaceAt(path, base, k, tagtype) == OnTable
    ensures path[k - 1].name == Table && HasType(path[k - 1], tagtype)
  {
    var g := GroundLength(path, base, n, tagtype);
    assert PlaceAt(path, base, g, tagtype) == Enter(PlaceAt(path, base, g - 1, tagtype), path[g - 1], tagtype);
    if PlaceAt(path, base, g, tagtype) == OnRow then
      assert PlaceAt(path, base, g - 1, tagtype)
             == Enter(PlaceAt(path, base, g - 2, tagtype), path[g - 2], tagtype) == OnTable;
      g - 1
    else g
  }

  /** Nothing between the table and the cursor is a table: it is the innermost one. */
  lemma {:induction false} TableIsInnermost(path: seq<Frame>, base: nat, n: nat, tagtype: string)
    requires n <= |path| && InTable(PlaceAt(path, base, n, tagtype))
    ensures var k := TableLength(path, base, n, tagtype); forall i :: k <= i < n ==> path[i].name != Table
  {
    if PlaceAt(path, base, n, tagtype) == InCell &&
       !(TableOnly(path[n - 1].name) && HasType(path[n - 1], tagtype)) {
      TableIsInnermost(path, base, n - 1, tagtype);
    }
  }

  lemma RiseKeepsNames(c: Cursor, base: nat)
    requires Shadows(c, base) && |c.path| > base
    ensures CanRise(c) && Shadows(ParentOf(c), base)
    ensures SameNames(c.path, ParentOf(c).path, |c.path| - 1)
  {
  }

  lemma {:induction false} CloseToKeepsNames(c: Cursor, base: nat, n: nat)
    requires Shadows(c, base) && base <= n <= |c.path|
    ensures var r := CloseTo(c, n); |r.path| == n && Shadows(r, base) && SameNames(c.path, r.path, n)
    decreases |c.path|
  {
    if |c.path| > n {
      RiseKeepsNames(c, base);
      CloseToKeepsNames(ParentOf(c), base, n);
    }
  }

  lemma ClimbStep(c: Cursor, tagtype: string)
    requires CanRise(c) && !(TableOnly(c.Last().name) && HasType(c.Last(), tagtype))
    ensures Climb(c, tagtype) == Climb(ParentOf(c), tagtype)
  {
  }

  /** Is this an element at which endCell stops climbing. */
  predicate Stops(f: Frame, tagtype: string) { TableOnly(f.name) && HasType(f, tagtype) }

  /** The last element at which endCell stops is a cell, the k-th element of the path. */
  ghost predicate InCellAt(path: seq<Frame>, k: nat, n: nat, tagtype: string) {
    && 0 < k <= n <= |path| && IsCell(path[k - 1].name) && HasType(path[k - 1], tagtype)
    && forall i :: k <= i < n ==> !Stops(path[i], tagtype)
  }

  lemma {:induction false} ClimbClosesToCell(c: Cursor, base: nat, tagtype: string, k: nat)
    requires Shadows(c, base) && base < k && InCellAt(c.path, k, |c.path|, tagtype)
    ensures Climb(c, tagtype) == CloseTo(c, k)
    decreases |c.path|
  {
    if |c.path| > k {
      RiseKeepsNames(c, base);
      ClimbClosesToCell(ParentOf(c), base, tagtype, k);
      CloseStep(c, k);
      ClimbStep(c, tagtype);
    }
  }

  lemma {:induction false} CellIsLast(path: seq<Frame>, base: nat, n: nat, tagtype: string)
    requires n <= |path| && PlaceAt(path, base, n, tagtype) == InCell
    ensures InCellAt(path, CellLength(path, base, n, tagtype), n, tagtype)
  {
    if !(TableOnly(path[n - 1].name) && HasType(path[n - 1], tagtype)) {
      CellIsLast(path, base, n - 1, tagtype);
    }
  }

  lemma {:induction false} CellSeesNames(a: seq<Frame>, b: seq<Frame>, base: nat, n: nat, tagtype: string)
    requires SameNames(a, b, n) && PlaceAt(a, base, n, tagtype) == InCell
    ensures PlaceAt(b, base, n, tagtype) == InCell
    ensures CellLength(a, base, n, tagtype) == CellLength(b, base, n, tagtype)
  {
    PlaceSeesNames(a, b, base, n, tagtype);
    if !(TableOnly(a[n - 1].name) && HasType(a[n - 1], tagtype)) {
      CellSeesNames(a, b, base, n - 1, tagtype);
    }
  }

  lemma ContentIsNoTable(path: seq<Frame>, base: nat, n: nat, tagtype: string)
    requires base <= n <= |path| && GoodPath(path, base) && InContent(PlaceAt(path, base, n, tagtype))
    ensures path[n - 1].name != Table && path[n - 1].name != Tr
  {
  }

  /** Inside a table the stack knows of it. */
  lemma TableIsOnStack(c: Cursor, base: nat, tagtype: string)
    requires Shadows(c, base) && InTable(PlaceOf(c, base, tagtype))
    ensures Table in c.stack
  {
    var k := TableLength(c.path, base, |c.path|, tagtype);
    assert c.stack[k - 1 - base] == Table;
  }

  lemma LeaveCellAtCell(cell: Cursor, base: nat, tagtype: string)
    requires Shadows(cell, base) && |cell.path| > base
    requires HasType(cell.Last(), tagtype) && IsCell(cell.Last().name)
    ensures LeaveCell(cell, tagtype) == CloseTo(cell, |cell.path| - 1)
  {
    CloseStep(cell, |cell.path| - 1);
  }

  /** The climb ends on the cell. */
  lemma ClimbedToCell(f: Cursor, base: nat, tagtype: string, k: nat)
    requires Shadows(f, base) && base < k && InCellAt(f.path, k, |f.path|, tagtype)
    requires Table in f.stack && f.Last().name != Table
    ensures var cell := CloseTo(f, k);
            && Climbed(f, tagtype) == cell && |cell.path| == k && Shadows(cell, base)
            && HasType(cell.Last(), tagtype) && IsCell(cell.Last().name)
  {
    ClimbClosesToCell(f, base, tagtype, k);
    CloseToKeepsNames(f, base, k);
  }

  lemma LeaveCellCloses(f: Cursor, base: nat, tagtype: string, k: nat)
    requires Shadows(f, base) && base < k && InCellAt(f.path, k, |f.path|, tagtype)
    requires Table in f.stack && f.Last().name != Table
    ensures ClimbAndLeave(f, tagtype) == CloseTo(f, k - 1)
  {
    ClimbedToCell(f, base, tagtype, k);
    LeaveCellAtCell(CloseTo(f, k), base, tagtype);
    CloseToInTwo(f, k, k - 1);
  }

  /** In a cell it is not the table itself that the cursor is on, and the stack knows of the table. */
  lemma CellOfGround(f: Cursor, base: nat, tagtype: string)
    requires Shadows(f, base) && PlaceOf(f, base, tagtype) == InCell
    ensures Table in f.stack && f.Last().name != Table
    ensures InCellAt(f.path, GroundLength(f.path, base, |f.path|, tagtype) + 1, |f.path|, tagtype)
  {
    TableIsOnStack(f, base, tagtype);
    NotOnTable(f.path, base, |f.path|, tagtype);
    CellIsLast(f.path, base, |f.path|, tagtype);
  }

  lemma NothingToLeave(f: Cursor, base: nat, tagtype: string)
    requires Shadows(f, base) && OnGrid(PlaceOf(f, base, tagtype))
    ensures ClimbSucceeds(f, tagtype) && !IsCell(f.Last().name)
    ensures ClimbAndLeave(f, tagtype) == f == Climbed(f, tagtype)
  {
    OnGround(f.path, base, |f.path|, tagtype);
  }

  lemma FlushKeepsPlace(c: Cursor, base: nat, tagtype: string)
    requires Shadows(c, base)
    ensures var (f, n) := (Flushed(c), |c.path|);
            && Shadows(f, base) && PlaceOf(f, base, tagtype) == PlaceOf(c, base, tagtype)
            && (PlaceOf(c, base, tagtype) == InCell ==>
                  CellLength(f.path, base, n, tagtype) == CellLength(c.path, base, n, tagtype))
  {
    var (f, n) := (Flushed(c), |c.path|);
    FlushKeepsNames(c, base);
    PlaceSeesNames(c.path, f.path, base, n, tagtype);
    if PlaceOf(c, base, tagtype) == InCell {
      CellSeesNames(c.path, f.path, base, n, tagtype);
    }
  }

  lemma FlushKeepsNames(c: Cursor, base: nat)
    requires Shadows(c, base)
    ensures Shadows(Flushed(c), base) && SameNames(c.path, Flushed(c).path, |c.path|)
  {
  }

  lemma ClimbAndLeaveCloses(f: Cursor, base: nat, tagtype: string, g: nat)
    requires Shadows(f, base) && InTable(PlaceOf(f, base, tagtype))
    requires g == GroundLength(f.path, base, |f.path|, tagtype)
    ensures ClimbAndLeave(f, tagtype) == CloseTo(f, g)
  {
    if PlaceOf(f, base, tagtype) == InCell {
      CellOfGround(f, base, tagtype);
      LeaveCellCloses(f, base, tagtype, g + 1);
    } else {
      NothingToLeave(f, base, tagtype);
    }
  }

  /** Inside a table endCell closes the cell or caption the cursor is in, with all in it, and nothing else. */
  lemma EndCellCloses(c: Cursor, base: nat, tagtype: string, g: nat)
    requires Shadows(c, base) && InTable(PlaceOf(c, base, tagtype))
    requires g == GroundLength(c.path, base, |c.path|, tagtype)
    ensures CellEnded(c, tagtype) == CloseTo(Flushed(c), g)
  {
    FlushKeepsPlace(c, base, tagtype);
    ClimbAndLeaveCloses(Flushed(c), base, tagtype, g);
  }

  lemma NotOnTable(path: seq<Frame>, base: nat, n: nat, tagtype: string)
    requires n <= |path| && PlaceAt(path, base, n, tagtype) == InCell
    ensures path[n - 1].name != Table
  {
  }

  lemma OnGround(path: seq<Frame>, base: nat, n: nat, tagtype: string)
    requires base <= n <= |path| && OnGrid(PlaceAt(path, base, n, tagtype))
    ensures n > base && HasType(path[n - 1], tagtype)
    ensures path[n - 1].name == if PlaceAt(path, base, n, tagtype) == OnTable then Table else Tr
  {
  }

  lemma LeaveRowCloses(r: Cursor, base: nat, tagtype: string, t: nat)
    requires Shadows(r, base) && OnGrid(PlaceOf(r, base, tagtype))
    requires t == TableLength(r.path, base, |r.path|, tagtype)
    ensures LeaveRow(r) == CloseTo(r, t)
  {
    OnGround(r.path, base, |r.path|, tagtype);
    if PlaceOf(r, base, tagtype) == OnRow {
      CloseStep(r, t);
    }
  }

  lemma TableLengthOfGround(a: seq<Frame>, b: seq<Frame>, base: nat, tagtype: string)
    requires InTable(PlaceAt(a, base, |a|, tagtype))
    requires |b| == GroundLength(a, base, |a|, tagtype) && SameNames(a, b, |b|)
    ensures OnGrid(PlaceAt(b, base, |b|, tagtype))
    ensures TableLength(b, base, |b|, tagtype) == TableLength(a, base, |a|, tagtype)
  {
    PlaceSeesNames(a, b, base, |b|, tagtype);
  }

  /** endRow closes all in the innermost table. */
  lemma EndRowCloses(c: Cursor, base: nat, tagtype: string, t: nat)
    requires Shadows(c, base) && InTable(PlaceOf(c, base, tagtype))
    requires t == TableLength(c.path, base, |c.path|, tagtype)
    ensures RowEnded(c, tagtype) == CloseTo(Flushed(c), t)
  {
    var (f, n) := (Flushed(c), |c.path|);
    var g := GroundLength(c.path, base, n, tagtype);
    FlushKeepsNames(c, base);
    EndCellCloses(c, base, tagtype, g);
    CloseToKeepsNames(f, base, g);
    TableLengthOfGround(c.path, CellEnded(c, tagtype).path, base, tagtype);
    LeaveRowCloses(CellEnded(c, tagtype), base, tagtype, t);
    CloseToInTwo(f, g, t);
  }

  // ---- runs

  /** What is done with a cursor: the table operations of one type, and what fills cells and the page around. */
  datatype Operation =
    | DoStartTable
    | DoStartRow
    | DoStartCell(header: bool)
    | DoStartCaption
    | DoEndRow
    | DoEndTable
    | DoOpen(name: Name, otherType: Option<string>)
    | DoClose
    | DoAppend(node: Node)
    | DoText(text: string)
    | DoFlush

  function CellName(header: bool): Name { if header then Th else Td }

  function Apply(c: Cursor, op: Operation, tagtype: string): (r: Cursor)
    requires c.path != []
    ensures r.path != []
  {
    match op {
      case DoStartTable => TableStarted(c, tagtype)
      case DoStartRow => RowStarted(c, tagtype)
      case DoStartCell(header) => CellStarted(c, tagtype, CellName(header))
      case DoStartCaption => CaptionStarted(c, tagtype)
      case DoEndRow => RowEnded(c, tagtype)
      case DoEndTable => TableEnded(c, tagtype)
      case DoOpen(name, otherType) => ChildOf(Flushed(c), name, otherType)
      case DoClose => (var f := Flushed(c); if CanRise(f) then ParentOf(f) else f)
      case DoAppend(node) => Appended(Flushed(c), node)
      case DoText(text) => c.(buffer := c.buffer + text)
      case DoFlush => Flushed(c)
    }
  }

  /** An element that is not for tables. */
  predicate Inline(name: Name, nameType: Option<string>, tagtype: string) {
    name != Table && name != Tr && !(TableOnly(name) && nameType == Some(tagtype))
  }

  /** Rows, cells and captions are for open tables; anything else is not for a table or row itself. */
  predicate Allowed(c: Cursor, base: nat, op: Operation, tagtype: string)
    requires c.path != []
  {
    var at := PlaceOf(c, base, tagtype);
    match op {
      case DoStartTable => InContent(at)
      case DoStartRow => InTable(at)
      case DoStartCell(_) => InTable(at)
      case DoStartCaption => InTable(at)
      case DoEndRow => InTable(at)
      case DoEndTable => InTable(at)
      case DoOpen(name, otherType) => InContent(at) && Inline(name, otherType, tagtype)
      case DoClose => |c.path| > base && Inline(c.Last().name, c.Last().tagtype, tagtype)
      case DoAppend(node) => InContent(at) && GoodNode(node)
      case DoText(text) => InContent(at) || Blank(text)
      case DoFlush => true
    }
  }

  /** The elements in front of the k-th are as they were, and the k-th only gained children. */
  ghost predicate Untouched(c: Cursor, r: Cursor, k: nat) {
    && 1 <= k <= |c.path| && k <= |r.path|
    && SameElements(c.path, r.path, k - 1)
    && r.path[k - 1].name == c.path[k - 1].name && r.path[k - 1].tagtype == c.path[k - 1].tagtype
    && c.path[k - 1].children <= r.path[k - 1].children
  }

  lemma UntouchedFurtherUp(c: Cursor, r: Cursor, g: nat, t: nat)
    requires Untouched(c, r, g) && 1 <= t <= g
    ensures Untouched(c, r, t)
  {
  }

  lemma UntouchedInTwo(c: Cursor, m: Cursor, r: Cursor, k: nat)
    requires Untouched(c, m, k) && Untouched(m, r, k)
    ensures Untouched(c, r, k)
  {
  }

  lemma RiseLeavesRest(c: Cursor)
    requires CanRise(c)
    ensures Untouched(c, ParentOf(c), |c.path| - 1)
  {
  }

  lemma {:induction false} CloseToLeavesRest(c: Cursor, base: nat, n: nat)
    requires Shadows(c, base) && base <= n <= |c.path|
    ensures Untouched(c, CloseTo(c, n), n)
    decreases |c.path|
  {
    if n < |c.path| {
      RiseKeepsNames(c, base);
      RiseLeavesRest(c);
      UntouchedFurtherUp(c, ParentOf(c), |c.path| - 1, n);
      CloseToLeavesRest(ParentOf(c), base, n);
      UntouchedInTwo(c, ParentOf(c), CloseTo(c, n), n);
    }
  }

  lemma {:induction false} CloseToKeepsTree(c: Cursor, base: nat, n: nat, tagtype: string)
    requires OkTree(c, base, tagtype) && base <= n <= |c.path|
    ensures OkTree(CloseTo(c, n), base, tagtype)
    decreases |c.path|
  {
    if |c.path| > n {
      RiseKeepsTree(c, base, tagtype);
      CloseToKeepsTree(ParentOf(c), base, n, tagtype);
    }
  }

  // ---- what an operation does

  /** The innermost table when the cursor is in one. */
  function TableOf(c: Cursor, base: nat, tagtype: string): (t: nat)
    requires InTable(PlaceOf(c, base, tagtype))
    ensures base < t <= |c.path|
    ensures PlaceAt(c.path, base, t, tagtype) == OnTable
    ensures c.path[t - 1].name == Table && HasType(c.path[t - 1], tagtype)
  {
    TableLength(c.path, base, |c.path|, tagtype)
  }

  /** The row of the innermost table when the cursor is in one, or else the table. */
  function GroundOf(c: Cursor, base: nat, tagtype: string): (g: nat)
    requires InTable(PlaceOf(c, base, tagtype))
    ensures base < g <= |c.path| && OnGrid(PlaceAt(c.path, base, g, tagtype))
  {
    GroundLength(c.path, base, |c.path|, tagtype)
  }

  /** What an operation comes to: all behind the first `keep` elements closes, then a row and an element open. */
  datatype Effect = Effect(keep: nat, row: bool, child: Option<Frame>)

  function EffectOf(c: Cursor, base: nat, op: Operation, tagtype: string): (e: Effect)
    requires 1 <= base <= |c.path| && Allowed(c, base, op, tagtype)
    ensures base <= e.keep <= |c.path|
  {
    match op {
      case DoStartTable => Effect(|c.path|, false, Some(Frame(Table, Some(tagtype), [])))
      case DoStartRow => Effect(TableOf(c, base, tagtype), true, None)
      case DoStartCell(header) =>
        var g := GroundOf(c, base, tagtype);
        var cell := Some(Frame(CellName(header), Some(tagtype), []));
        Effect(g, PlaceAt(c.path, base, g, tagtype) == OnTable, cell)
      case DoStartCaption => Effect(TableOf(c, base, tagtype), false, Some(Frame(Caption, Some(tagtype), [])))
      case DoEndRow => Effect(TableOf(c, base, tagtype), false, None)
      case DoEndTable => Effect(TableOf(c, base, tagtype) - 1, false, None)
      case DoOpen(name, otherType) => Effect(|c.path|, false, Some(Frame(name, otherType, [])))
      case DoClose => Effect(|c.path| - 1, false, None)
      case DoAppend(_) => Effect(|c.path|, false, None)
      case DoText(_) => Effect(|c.path|, false, None)
      case DoFlush => Effect(|c.path|, false, None)
    }
  }

  function WithRow(c: Cursor, row: bool, tagtype: string): Cursor {
    if row then ChildOf(c, Tr, Some(tagtype)) else c
  }

  function WithChild(c: Cursor, child: Option<Frame>): Cursor {
    if child.None? then c else ChildOf(c, child.value.name, child.value.tagtype)
  }

  function Effective(c: Cursor, e: Effect, tagtype: string): Cursor
    requires c.path != [] && e.keep >= 1
  {
    WithChild(WithRow(CloseTo(Flushed(c), e.keep), e.row, tagtype), e.child)
  }

  function EnterRow(at: Place, row: bool, tagtype: string): Place {
    if row then Enter(at, Frame(Tr, Some(tagtype), []), tagtype) else at
  }

  function EnterChild(at: Place, child: Option<Frame>, tagtype: string): Place {
    if child.None? then at else Enter(at, child.value, tagtype)
  }

  /** Nothing opens where it may not. */
  predicate Fits(at: Place, e: Effect, tagtype: string) {
    && at != Wrong && EnterRow(at, e.row, tagtype) != Wrong
    && EnterChild(EnterRow(at, e.row, tagtype), e.child, tagtype) != Wrong
  }

  /** Effects of this kind keep all of it, and touch nothing in front of what they keep. */
  lemma EffectKeepsOk(c: Cursor, base: nat, e: Effect, tagtype: string)
    requires Ok(c, base, tagtype) && base <= e.keep <= |c.path|
    requires Fits(PlaceAt(c.path, base, e.keep, tagtype), e, tagtype)
    ensures var r := Effective(c, e, tagtype);
            OkTree(r, base, tagtype) && r.buffer == "" && Untouched(c, r, e.keep)
  {
    var f := Flushed(c);
    var closed := CloseTo(f, e.keep);
    ClosingKeepsOk(c, base, e.keep, tagtype);
    OpeningKeepsOk(closed, base, e, tagtype);
    UntouchedInTwo(c, closed, Effective(c, e, tagtype), e.keep);
  }

  lemma ClosingKeepsOk(c: Cursor, base: nat, n: nat, tagtype: string)
    requires Ok(c, base, tagtype) && base <= n <= |c.path|
    ensures var r := CloseTo(Flushed(c), n);
            && |r.path| == n && r.buffer == "" && OkTree(r, base, tagtype) && Untouched(c, r, n)
            && PlaceOf(r, base, tagtype) == PlaceAt(c.path, base, n, tagtype)
  {
    var f := Flushed(c);
    FlushKeepsTree(c, base, tagtype);
    FlushLeavesRest(c, base, n);
    CloseToKeepsTree(f, base, n, tagtype);
    CloseToLeavesRest(f, base, n);
    UntouchedInTwo(c, f, CloseTo(f, n), n);
    ClosingKeepsPlace(c, base, n, tagtype);
  }

  lemma ClosingKeepsPlace(c: Cursor, base: nat, n: nat, tagtype: string)
    requires Shadows(c, base) && base <= n <= |c.path|
    ensures var r := CloseTo(Flushed(c), n);
            |r.path| == n && Shadows(r, base) && PlaceOf(r, base, tagtype) == PlaceAt(c.path, base, n, tagtype)
  {
    FlushKeepsNames(c, base);
    CloseToKeepsNames(Flushed(c), base, n);
    PlaceSeesNames(c.path, CloseTo(Flushed(c), n).path, base, n, tagtype);
  }

  lemma FlushLeavesRest(c: Cursor, base: nat, n: nat)
    requires 1 <= n <= |c.path|
    ensures Untouched(c, Flushed(c), n)
  {
    assert Untouched(c, Flushed(c), |c.path|);
    UntouchedFurtherUp(c, Flushed(c), |c.path|, n);
  }

  lemma FlushKeepsTree(c: Cursor, base: nat, tagtype: string)
    requires Ok(c, base, tagtype)
    ensures OkTree(Flushed(c), base, tagtype) && PlaceOf(Flushed(c), base, tagtype) == PlaceOf(c, base, tagtype)
  {
    if !Blank(c.buffer) {
      AppendKeepsTree(c, base, TextNode(c.buffer), tagtype);
      PlaceSeesNames(c.path, Flushed(c).path, base, |c.path|, tagtype);
    }
  }

  lemma AppendKeepsTree(c: Cursor, base: nat, node: Node, tagtype: string)
    requires OkTree(c, base, tagtype) && InContent(PlaceOf(c, base, tagtype)) && GoodNode(node)
    ensures OkTree(Appended(c, node), base, tagtype) && Untouched(c, Appended(c, node), |c.path|)
    ensures PlaceOf(Appended(c, node), base, tagtype) == PlaceOf(c, base, tagtype)
  {
    PlaceSeesNames(c.path, Appended(c, node).path, base, |c.path|, tagtype);
    ContentIsNoTable(c.path, base, |c.path|, tagtype);
    AddKeepsGood(c.Last(), node);
  }

  lemma OpeningKeepsOk(c: Cursor, base: nat, e: Effect, tagtype: string)
    requires OkTree(c, base, tagtype) && Fits(PlaceOf(c, base, tagtype), e, tagtype)
    ensures var r := WithChild(WithRow(c, e.row, tagtype), e.child);
            OkTree(r, base, tagtype) && r.buffer == c.buffer && Untouched(c, r, |c.path|)
  {
    var row := WithRow(c, e.row, tagtype);
    if e.row {
      ChildKeepsTree(c, base, Frame(Tr, Some(tagtype), []), tagtype);
    }
    assert OkTree(row, base, tagtype) && PlaceOf(row, base, tagtype) == EnterRow(PlaceOf(c, base, tagtype), e.row,
          tagtype);
    if e.child.Some? {
      ChildKeepsTree(row, base, e.child.value, tagtype);
    }
  }

  lemma ChildKeepsTree(c: Cursor, base: nat, f: Frame, tagtype: string)
    requires OkTree(c, base, tagtype) && Enter(PlaceOf(c, base, tagtype), f, tagtype) != Wrong
    ensures var r := ChildOf(c, f.name, f.tagtype);
            OkTree(r, base, tagtype) && PlaceOf(r, base, tagtype) == Enter(PlaceOf(c, base, tagtype), f, tagtype)
  {
    ChildEnters(c, base, f, tagtype);
  }

  lemma ChildEnters(c: Cursor, base: nat, f: Frame, tagtype: string)
    requires Shadows(c, base)
    ensures var r := ChildOf(c, f.name, f.tagtype);
            Shadows(r, base) && PlaceOf(r, base, tagtype) == Enter(PlaceOf(c, base, tagtype), f, tagtype)
  {
    PlaceSeesNames(c.path, ChildOf(c, f.name, f.tagtype).path, base, |c.path|, tagtype);
  }

  // ---- every operation has its effect

  lemma AroundTableIsContent(path: seq<Frame>, base: nat, t: nat, tagtype: string)
    requires base < t <= |path| && PlaceAt(path, base, t, tagtype) == OnTable
    ensures InContent(PlaceAt(path, base, t - 1, tagtype))
  {
  }

  lemma PlaceBefore(path: seq<Frame>, base: nat, n: nat, tagtype: string)
    requires base < n <= |path| && PlaceAt(path, base, n, tagtype) != Wrong
    ensures PlaceAt(path, base, n - 1, tagtype) != Wrong
  {
  }

  lemma EffectFits(c: Cursor, base: nat, op: Operation, tagtype: string)
    requires 1 <= base <= |c.path| && PlaceOf(c, base, tagtype) != Wrong && Allowed(c, base, op, tagtype)
    ensures var e := EffectOf(c, base, op, tagtype);
            Fits(PlaceAt(c.path, base, e.keep, tagtype), e, tagtype)
  {
    if op.DoEndTable? {
      AroundTableIsContent(c.path, base, TableOf(c, base, tagtype), tagtype);
    } else if op.DoClose? {
      PlaceBefore(c.path, base, |c.path|, tagtype);
    }
  }

  /** endRow leaves the cursor on the innermost table: the assertions behind it hold. */
  lemma RowEndedOnTable(c: Cursor, base: nat, tagtype: string)
    requires InOpenTable(c, base, tagtype)
    ensures var (r, t) := (RowEnded(c, tagtype), TableOf(c, base, tagtype));
            && r == CloseTo(Flushed(c), t) && |r.path| == t && Shadows(r, base)
            && PlaceOf(r, base, tagtype) == OnTable && AtTable(r, tagtype) && CanRise(r)
  {
    var t := TableOf(c, base, tagtype);
    EndRowCloses(c, base, tagtype, t);
    ClosingKeepsPlace(c, base, t, tagtype);
    OnGround(CloseTo(Flushed(c), t).path, base, t, tagtype);
    CanStillRise(RowEnded(c, tagtype), base);
  }

  /** endCell leaves the cursor on the row, or on the table when there is none. */
  lemma CellEndedOnGrid(c: Cursor, base: nat, tagtype: string)
    requires InOpenTable(c, base, tagtype)
    ensures var (r, g) := (CellEnded(c, tagtype), GroundOf(c, base, tagtype));
            && r == CloseTo(Flushed(c), g) && |r.path| == g && Shadows(r, base) && CanRise(r)
            && PlaceOf(r, base, tagtype) == PlaceAt(c.path, base, g, tagtype)
            && (r.Last().name == Tr <==> PlaceAt(c.path, base, g, tagtype) == OnRow)
  {
    var g := GroundOf(c, base, tagtype);
    EndCellCloses(c, base, tagtype, g);
    ClosingKeepsPlace(c, base, g, tagtype);
    OnGround(CloseTo(Flushed(c), g).path, base, g, tagtype);
    CanStillRise(CellEnded(c, tagtype), base);
  }

  lemma CloseOneMore(f: Cursor, r: Cursor, t: nat)
    requires t > 1 && r == CloseTo(f, t) && |r.path| == t && CanRise(r)
    ensures ParentOf(r) == CloseTo(f, t - 1)
  {
    CloseStep(r, t - 1);
    CloseToInTwo(f, t, t - 1);
  }

  lemma TableEndedIs(c: Cursor, base: nat, tagtype: string)
    requires InOpenTable(c, base, tagtype)
    ensures TableOf(c, base, tagtype) > 1
    ensures TableEnded(c, tagtype) == CloseTo(Flushed(c), TableOf(c, base, tagtype) - 1)
  {
    RowEndedOnTable(c, base, tagtype);
    CloseOneMore(Flushed(c), RowEnded(c, tagtype), TableOf(c, base, tagtype));
  }

  /** On a table with nothing open in it endRow does nothing. */
  lemma RowEndedTwice(r: Cursor, base: nat, tagtype: string)
    requires Shadows(r, base) && PlaceOf(r, base, tagtype) == OnTable && r.buffer == ""
    ensures RowEnded(r, tagtype) == r
  {
    RowEndedOnTable(r, base, tagtype);
    assert Flushed(r) == r;
    assert TableOf(r, base, tagtype) == |r.path|;
  }

  lemma RowForOnTable(r: Cursor, base: nat, tagtype: string)
    requires Shadows(r, base) && PlaceOf(r, base, tagtype) == OnTable && r.buffer == ""
    ensures RowFor(r, tagtype) == ChildOf(r, Tr, Some(tagtype))
  {
    OnGround(r.path, base, |r.path|, tagtype);
    RowEndedTwice(r, base, tagtype);
  }

  lemma RowForIs(r: Cursor, base: nat, tagtype: string)
    requires Shadows(r, base) && OnGrid(PlaceOf(r, base, tagtype)) && r.buffer == ""
    ensures RowFor(r, tagtype) == WithRow(r, PlaceOf(r, base, tagtype) == OnTable, tagtype)
  {
    if PlaceOf(r, base, tagtype) == OnTable {
      RowForOnTable(r, base, tagtype);
    } else {
      OnGround(r.path, base, |r.path|, tagtype);
    }
  }

  /** Each operation does just what its effect says. */
  lemma OperationIs(c: Cursor, base: nat, op: Operation, tagtype: string)
    requires Shadows(c, base) && Allowed(c, base, op, tagtype) && !op.DoText? && !op.DoAppend?
    ensures Apply(c, op, tagtype) == Effective(c, EffectOf(c, base, op, tagtype), tagtype)
  {
    match op {
      case DoStartRow => RowEndedOnTable(c, base, tagtype);
      case DoStartCell(_) => {
        CellEndedOnGrid(c, base, tagtype);
        RowForIs(CellEnded(c, tagtype), base, tagtype);
      }
      case DoStartCaption => RowEndedOnTable(c, base, tagtype);
      case DoEndRow => RowEndedOnTable(c, base, tagtype);
      case DoEndTable => TableEndedIs(c, base, tagtype);
      case DoClose => {
        CanStillRise(Flushed(c), base);
        CloseStep(Flushed(c), |c.path| - 1);
      }
      case DoStartTable => {}
      case DoOpen(_, _) => {}
      case DoFlush => {}
    }
  }

  /**
   Every operation keeps the stack equal to the names on the path and the tables well built, and touches the
   innermost table at most.
   */
  lemma OperationKeepsOk(c: Cursor, base: nat, op: Operation, tagtype: string)
    requires Ok(c, base, tagtype) && Allowed(c, base, op, tagtype)
    ensures Ok(Apply(c, op, tagtype), base, tagtype)
    ensures Untouched(c, Apply(c, op, tagtype), EffectOf(c, base, op, tagtype).keep)
  {
    if op.DoText? {
      assert Untouched(c, Apply(c, op, tagtype), |c.path|);
    } else if op.DoAppend? {
      NodeIsAppended(c, base, op.node, tagtype);
    } else {
      OperationIs(c, base, op, tagtype);
      EffectFits(c, base, op, tagtype);
      EffectKeepsOk(c, base, EffectOf(c, base, op, tagtype), tagtype);
    }
  }

  lemma NodeIsAppended(c: Cursor, base: nat, node: Node, tagtype: string)
    requires Ok(c, base, tagtype) && InContent(PlaceOf(c, base, tagtype)) && GoodNode(node)
    ensures var r := Appended(Flushed(c), node);
            Ok(r, base, tagtype) && Untouched(c, r, |c.path|)
  {
    FlushKeepsTree(c, base, tagtype);
    FlushLeavesRest(c, base, |c.path|);
    AppendKeepsTree(Flushed(c), base, node, tagtype);
    UntouchedInTwo(c, Flushed(c), Appended(Flushed(c), node), |c.path|);
  }

  function Run(c: Cursor, ops: seq<Operation>, tagtype: string): (r: Cursor)
    requires c.path != []
    decreases |ops|
  {
    if ops == [] then c else Run(Apply(c, ops[0], tagtype), ops[1..], tagtype)
  }

  predicate AllAllowed(c: Cursor, base: nat, ops: seq<Operation>, tagtype: string)
    requires c.path != []
    decreases |ops|
  {
    ops != [] ==>
      Allowed(c, base, ops[0], tagtype) && AllAllowed(Apply(c, ops[0], tagtype), base, ops[1..], tagtype)
  }

  /** So does every run, and it never touches what was there before it. */
  lemma {:induction false} RunKeepsOk(c: Cursor, base: nat, ops: seq<Operation>, tagtype: string)
    requires Ok(c, base, tagtype) && AllAllowed(c, base, ops, tagtype)
    ensures Ok(Run(c, ops, tagtype), base, tagtype) && Untouched(c, Run(c, ops, tagtype), base)
    decreases |ops|
  {
    if ops != [] {
      var next := Apply(c, ops[0], tagtype);
      OperationKeepsOk(c, base, ops[0], tagtype);
      UntouchedFurtherUp(c, next, EffectOf(c, base, ops[0], tagtype).keep, base);
      RunKeepsOk(next, base, ops[1..], tagtype);
      UntouchedInTwo(c, next, Run(next, ops[1..], tagtype), base);
    }
  }

  /** A cursor made from an element has an empty stack: any run may start there. */
  lemma MayStartAnywhere(path: seq<Frame>, buffer: string, tagtype: string)
    requires path != [] && path[|path| - 1].name != Table && path[|path| - 1].name != Tr
    requires GoodFrame(path[|path| - 1])
    ensures Ok(Cursor(path, [], buffer), |path|, tagtype)
  {
  }

  // ---- the class

  /** Is the cursor on a table of this type: what the operations assert. */
  predicate AtTable(c: Cursor, tagtype: string)
    requires c.path != []
  {
    c.Last().name == Table && HasType(c.Last(), tagtype)
  }

  /** Is the cursor in a table of this type, or on one. */
  ghost predicate InOpenTable(c: Cursor, base: nat, tagtype: string) {
    Shadows(c, base) && InTable(PlaceOf(c, base, tagtype))
  }

  /** When the operations succeed: every climb has somewhere to go, and what is asserted holds. */
  predicate ClimbSucceeds(f: Cursor, tagtype: string)
    requires f.path != []
  {
    Table in f.stack && f.Last().name != Table ==> Stops(Climb(f, tagtype).Last(), tagtype)
  }

  predicate LeaveSucceeds(f: Cursor, tagtype: string)
    requires f.path != []
  {
    HasType(f.Last(), tagtype) && IsCell(f.Last().name) ==> CanRise(f)
  }

  predicate EndCellSucceeds(c: Cursor, tagtype: string)
    requires c.path != []
  {
    ClimbSucceeds(Flushed(c), tagtype) && LeaveSucceeds(Climbed(Flushed(c), tagtype), tagtype)
  }

  predicate EndRowSucceeds(c: Cursor, tagtype: string)
    requires c.path != []
  {
    && EndCellSucceeds(c, tagtype)
    && (CellEnded(c, tagtype).Last().name == Tr ==> CanRise(CellEnded(c, tagtype)))
  }

  /** Also startRow and startCaption. */
  predicate ReachesTable(c: Cursor, tagtype: string)
    requires c.path != []
  {
    EndRowSucceeds(c, tagtype) && AtTable(RowEnded(c, tagtype), tagtype)
  }

  predicate EndTableSucceeds(c: Cursor, tagtype: string)
    requires c.path != []
  {
    ReachesTable(c, tagtype) && CanRise(RowEnded(c, tagtype))
  }

  predicate StartCellSucceeds(c: Cursor, tagtype: string)
    requires c.path != []
  {
    && EndCellSucceeds(c, tagtype)
    && (CellEnded(c, tagtype).Last().name != Tr ==> ReachesTable(CellEnded(c, tagtype), tagtype))
  }

  lemma ClimbSucceedsInTable(f: Cursor, base: nat, tagtype: string)
    requires InOpenTable(f, base, tagtype)
    ensures ClimbSucceeds(f, tagtype) && LeaveSucceeds(Climbed(f, tagtype), tagtype)
  {
    if PlaceOf(f, base, tagtype) == InCell {
      var k := GroundLength(f.path, base, |f.path|, tagtype) + 1;
      CellOfGround(f, base, tagtype);
      ClimbedToCell(f, base, tagtype, k);
      CanStillRise(CloseTo(f, k), base);
    } else {
      NothingToLeave(f, base, tagtype);
    }
  }

  lemma EndCellSucceedsInTable(c: Cursor, base: nat, tagtype: string)
    requires InOpenTable(c, base, tagtype)
    ensures EndCellSucceeds(c, tagtype)
  {
    FlushKeepsPlace(c, base, tagtype);
    ClimbSucceedsInTable(Flushed(c), base, tagtype);
  }

  /** In an open table all of them do. */
  lemma SucceedInTable(c: Cursor, base: nat, tagtype: string)
    requires InOpenTable(c, base, tagtype)
    ensures EndCellSucceeds(c, tagtype) && EndRowSucceeds(c, tagtype) && ReachesTable(c, tagtype)
    ensures EndTableSucceeds(c, tagtype) && StartCellSucceeds(c, tagtype)
  {
    ReachesTableFromTable(c, base, tagtype);
    CellEndedOnGrid(c, base, tagtype);
    ReachesTableFromTable(CellEnded(c, tagtype), base, tagtype);
  }

  lemma ReachesTableFromTable(c: Cursor, base: nat, tagtype: string)
    requires InOpenTable(c, base, tagtype)
    ensures EndTableSucceeds(c, tagtype)
  {
    EndCellSucceedsInTable(c, base, tagtype);
    CellEndedOnGrid(c, base, tagtype);
    RowEndedOnTable(c, base, tagtype);
  }

  class CElement {
    var path: seq<Frame>
    var stack: seq<Name>
    var buffer: string

    ghost predicate Valid() reads this { path != [] }

    ghost function View(): Cursor reads this { Cursor(path, stack, buffer) }

    constructor (path: seq<Frame>)
      requires path != []
      ensures Valid() && View() == Cursor(path, [], "")
    {
      this.path, stack, buffer := path, [], "";
    }

    method AppendChild(node: Node)
      requires Valid()
      modifies this`path
      ensures Valid() && View() == Appended(old(View()), node)
    {
      path := path[|path| - 1 := path[|path| - 1].Add(node)];
    }

    method FlushBuffer()
      requires Valid()
      modifies this`path, this`buffer
      ensures Valid() && View() == Flushed(old(View()))
    {
      if !Blank(buffer) {
        AppendChild(TextNode(buffer));
      }
      buffer := "";
    }

    method BecomeChild(name: Name, tagtype: Option<string>)
      requires Valid()
      modifies this`path, this`stack
      ensures Valid() && View() == ChildOf(old(View()), name, tagtype)
    {
      stack := stack + [name];
      path := path + [Frame(name, tagtype, [])];
    }

    /** Fails when there is no element to go to. */
    method BecomeParent() returns (ok: bool)
      requires Valid()
      modifies this`path, this`stack
      ensures Valid() && ok == CanRise(old(View()))
      ensures View() == if ok then ParentOf(old(View())) else old(View())
    {
      ok := |path| >= 2 && stack != [];
      if ok {
        var n := |path|;
        var (parent, f) := (path[n - 2], path[n - 1]);
        if f.name == P && f.children == [] {
          if parent.name != Pre {
            parent := parent.Add(Elem(Br, []));
          }
        } else {
          parent := parent.Add(Elem(f.name, f.children));
        }
        path := path[..n - 2] + [parent];
        stack := stack[..|stack| - 1];
      }
    }

    method EndCell(tagtype: string) returns (ok: bool)
      requires Valid()
      modifies this
      ensures Valid() && ok == EndCellSucceeds(old(View()), tagtype)
      ensures ok ==> View() == CellEnded(old(View()), tagtype)
    {
      FlushBuffer();
      ok := ClimbInTable(tagtype);
      if ok {
        ok := LeaveIfCell(tagtype);
      }
    }

    method ClimbInTable(tagtype: string) returns (ok: bool)
      requires Valid()
      modifies this`path, this`stack
      ensures Valid() && View() == Climbed(old(View()), tagtype) && ok == ClimbSucceeds(old(View()), tagtype)
    {
      ok := true;
      if Table in stack && path[|path| - 1].name != Table {
        ok := ClimbToCell(tagtype);
      }
    }

    method LeaveIfCell(tagtype: string) returns (ok: bool)
      requires Valid()
      modifies this`path, this`stack
      ensures Valid() && View() == LeaveCell(old(View()), tagtype) && ok == LeaveSucceeds(old(View()), tagtype)
    {
      ok := true;
      if path[|path| - 1].tagtype == Some(tagtype) && IsCell(path[|path| - 1].name) {
        ok := BecomeParent();
      }
    }

    method ClimbToCell(tagtype: string) returns (ok: bool)
      requires Valid()
      modifies this`path, this`stack
      ensures Valid() && View() == Climb(old(View()), tagtype) && ok == Stops(View().Last(), tagtype)
    {
      ok := true;
      while ok && !(TableOnly(path[|path| - 1].name) && path[|path| - 1].tagtype == Some(tagtype))
        invariant Valid() && Climb(View(), tagtype) == Climb(old(View()), tagtype)
        invariant !ok ==> !CanRise(View()) && !Stops(View().Last(), tagtype)
        decreases |path|, ok
      {
        ok := BecomeParent();
      }
    }

    method EndRow(tagtype: string) returns (ok: bool)
      requires Valid()
      modifies this
      ensures Valid() && ok == EndRowSucceeds(old(View()), tagtype)
      ensures ok ==> View() == RowEnded(old(View()), tagtype)
    {
      ok := EndCell(tagtype);
      if ok && path[|path| - 1].name == Tr {
        ok := BecomeParent();
      }
    }

    method EndTable(tagtype: string) returns (ok: bool)
      requires Valid()
      modifies this
      ensures Valid() && ok == EndTableSucceeds(old(View()), tagtype)
      ensures ok ==> View() == TableEnded(old(View()), tagtype)
    {
      ok := EndRow(tagtype);
      ok := ok && path[|path| - 1].name == Table && path[|path| - 1].tagtype == Some(tagtype);
      if ok {
        ok := BecomeParent();
      }
    }

    method StartRow(tagtype: string) returns (ok: bool)
      requires Valid()
      modifies this
      ensures Valid() && ok == ReachesTable(old(View()), tagtype)
      ensures ok ==> View() == RowStarted(old(View()), tagtype)
    {
      ok := EndRow(tagtype);
      ok := ok && path[|path| - 1].name == Table && path[|path| - 1].tagtype == Some(tagtype);
      if ok {
        BecomeChild(Tr, Some(tagtype));
      }
    }

    method StartCaption(tagtype: string) returns (ok: bool)
      requires Valid()
      modifies this
      ensures Valid() && ok == ReachesTable(old(View()), tagtype)
      ensures ok ==> View() == CaptionStarted(old(View()), tagtype)
    {
      ok := EndRow(tagtype);
      ok := ok && path[|path| - 1].name == Table && path[|path| - 1].tagtype == Some(tagtype);
      if ok {
        BecomeChild(Caption, Some(tagtype));
      }
    }

    /** startCell and startHeader. */
    method StartCell(header: bool, tagtype: string) returns (ok: bool)
      requires Valid()
      modifies this
      ensures Valid() && ok == StartCellSucceeds(old(View()), tagtype)
      ensures ok ==> View() == CellStarted(old(View()), tagtype, CellName(header))
    {
      ok := EndCell(tagtype);
      if ok && path[|path| - 1].name != Tr {
        ok := StartRow(tagtype);
      }
      if ok {
        BecomeChild(CellName(header), Some(tagtype));
      }
    }

    method StartTable(tagtype: string)
      requires Valid()
      modifies this
      ensures Valid() && View() == TableStarted(old(View()), tagtype)
    {
      FlushBuffer();
      BecomeChild(Table, Some(tagtype));
    }
  }
}
