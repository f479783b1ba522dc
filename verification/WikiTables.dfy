/**
 doTableStuff: tables from lines that start with braces, bars and exclamation marks.
 */
module WikiTables {
  import opened Wrappers
  import opened Markup

  datatype Tag = Table | Tr | Td | Th | Caption | Dl | Dd

  type Tokens = seq<Token<Tag>>

  /** What other classes do: trimming, splitting at bars outside of tags, and cleaning attributes. */
  datatype Rules = Rules(trim: string -> string, explode: string -> seq<string>, attributes: string -> string)

  // ---- lines

  predicate StartsWith(line: string, a: char, b: char) { |line| >= 2 && line[0] == a && line[1] == b }

  function Colons(line: string): (n: nat)
    ensures n <= |line|
  {
    if line == "" || line[0] != ':' then 0 else 1 + Colons(line[1..])
  }

  datatype Kind =
    | Blank
    | Start(indent: nat)
    | End
    | Row
    | Cells(first: char, rest: string)
    | Other

  /** What a trimmed line is; only the start of a table counts outside of tables. */
  function KindOf(line: string, inTable: bool): (kind: Kind)
    ensures !inTable ==> kind.Blank? || kind.Start? || kind.Other?
    ensures kind.End? ==> |line| >= 2
  {
    if line == "" then Blank
    else if StartsWith(line[Colons(line)..], '{', '|') then Start(Colons(line))
    else if !inTable then Other
    else if StartsWith(line, '|', '}') then End
    else if StartsWith(line, '|', '-') then Row
    else if StartsWith(line, '|', '+') then Cells('+', line[2..])
    else if line[0] == '|' || line[0] == '!' then Cells(line[0], line[1..])
    else Other
  }

  /** Two exclamation marks separate headers as two bars separate cells. */
  function BarsFor(line: string): string {
    if |line| >= 2 && line[0] == '!' && line[1] == '!' then "||" + BarsFor(line[2..])
    else if line == "" then ""
    else [line[0]] + BarsFor(line[1..])
  }

  function CellsOf(first: char, rest: string, rules: Rules): seq<string> {
    rules.explode(if first == '!' then BarsFor(rest) else rest)
  }

  function CellTag(first: char): Tag {
    if first == '!' then Th else if first == '+' then Caption else Td
  }

  /** Where the first bar is, if there is one. */
  function FirstBar(cell: string): (k: nat)
    ensures k <= |cell|
  {
    if cell == "" || cell[0] == '|' then 0 else 1 + FirstBar(cell[1..])
  }

  predicate LinkAt(text: string, i: nat) { i + 1 < |text| && text[i] == text[i + 1] == '[' }

  predicate HasLink(text: string) { exists i :: 0 <= i < |text| && LinkAt(text, i) }

  /** Text in front of a bar is attributes, unless a link begins in it. */
  function CellText(cell: string): string {
    var k := FirstBar(cell);
    if k == |cell| || HasLink(cell[..k]) then cell else cell[k + 1..]
  }

  function Top<T>(stack: seq<T>): T
    requires stack != []
  {
    stack[|stack| - 1]
  }

  function Popped<T>(stack: seq<T>): seq<T>
    requires stack != []
  {
    stack[..|stack| - 1]
  }

  lemma PopAndPush<T>(stack: seq<T>)
    requires stack != []
    ensures Popped(stack) + [Top(stack)] == stack
  {
  }

  lemma OnTop<T>(below: seq<T>, top: T)
    ensures Top(below + [top]) == top && Popped(below + [top]) == below
  {
  }

  // ---- the tables that are open

  /**
     A table that is open: how far its first line is indented; the cell, header or caption that is open in it; whether
     a row is open, has been begun, and has really been opened; and how many indentations are open in the table itself
     and in that cell.
   */
  datatype OpenTable =
    OpenTable(indent: nat, cell: Option<Tag>, tr: bool, begun: bool, row: bool, inTable: nat, inCell: nat)
  {
    predicate Valid() {
      && (tr ==> cell.Some? && row)
      && (row ==> begun)
      && (cell.None? ==> inCell == 0)
      && (cell.Some? ==> IsCell(cell.value))
    }

    /** The indentations that are open innermost. */
    function Within(): nat { if cell.Some? then inCell else inTable }

    function WithPairs(n: nat): OpenTable {
      if cell.Some? then this.(inCell := n) else this.(inTable := n)
    }

    predicate Closes() { inTable == 0 && inCell == 0 }

    /** It may be left open: nothing but a plain cell is open in it. */
    predicate IsPlain() { Closes() && (cell.Some? ==> cell.value == Td) }

    /** A row has been begun, for the sake of which the table gets no empty one, but none was opened. */
    predicate Rowless() { begun && !row }

    function NextRow(): OpenTable { this.(cell := None, tr := false, begun := true, inCell := 0) }

    function NextCell(tag: Tag): OpenTable {
      if tag == Caption then this.(cell := Some(tag), inCell := 0)
      else this.(cell := Some(tag), tr := true, begun := true, row := true, inCell := 0)
    }
  }

  /**
     The open tables, innermost last; the indentations open around them; the indentation of the table that began last;
     and whether something was closed that was not innermost, and a table without a row.
   */
  datatype Tables = Tables(outer: nat, open: seq<OpenTable>, indent: nat, broken: bool, rowless: bool) {
    function Within(): nat { if open == [] then outer else Top(open).Within() }

    function WithPairs(n: nat): Tables {
      if open == [] then this.(outer := n) else this.(open := Popped(open) + [Top(open).WithPairs(n)])
    }

    function NextTable(indented: nat): Tables {
      var t := WithPairs(Within() + indented);
      t.(open := t.open + [OpenTable(indented, None, false, false, false, 0, 0)], indent := indented)
    }

    function NextRow(): Tables
      requires open != []
    {
      this.(open := Popped(open) + [Top(open).NextRow()], broken := broken || Top(open).inCell > 0)
    }

    function NextCell(tag: Tag): Tables
      requires open != []
    {
      this.(open := Popped(open) + [Top(open).NextCell(tag)], broken := broken || Top(open).inCell > 0)
    }

    /** Without the innermost table. */
    function Less(closes: bool): Tables
      requires open != []
    {
      this.(open := Popped(open), broken := broken || !closes, rowless := rowless || Top(open).Rowless())
    }

    /** As many indentations close as the table that began last has. */
    function Outdented(): Tables {
      if indent <= Within() then WithPairs(Within() - indent) else this.(broken := true)
    }
  }

  const NO_TABLES := Tables(0, [], 0, false, false)

  predicate IsCell(tag: Tag) { tag == Td || tag == Th || tag == Caption }

  /** So many cells behind one another leave only the last one open. */
  function WithCells(t: Tables, tag: Tag, n: nat): Tables
    requires t.open != []
  {
    if n == 0 then t else t.NextCell(tag)
  }

  function NextTables(t: Tables, line: string, rules: Rules): Tables {
    match KindOf(rules.trim(line), t.open != [])
    case Start(indent) => t.NextTable(indent)
    case End => t.Less(Top(t.open).Closes()).Outdented()
    case Row => t.NextRow()
    case Cells(first, rest) => WithCells(t, CellTag(first), |CellsOf(first, rest, rules)|)
    case Blank => t
    case Other => t
  }

  function TablesAfter(lines: seq<string>, k: nat, t: Tables, rules: Rules): Tables
    requires k <= |lines|
    decreases |lines| - k
  {
    if k == |lines| then t else TablesAfter(lines, k + 1, NextTables(t, lines[k], rules), rules)
  }

  /** Nothing was closed in a wrong place, and what is left open closes as plain cells. */
  predicate EndsPlain(t: Tables) {
    !t.broken && t.outer == 0 && forall i :: 0 <= i < |t.open| ==> t.open[i].IsPlain()
  }

  /** No table was closed without a row, and none is left open that will be. */
  predicate EndsWithRows(t: Tables) {
    !t.rowless && forall i :: 0 <= i < |t.open| ==> !t.open[i].Rowless()
  }

  // ---- text whose tables end as far indented as they begin

  /** Wherever a table ends, it is indented like the one that began last; so it is when none are. */
  predicate Aligned(lines: seq<string>, k: nat, t: Tables, rules: Rules)
    requires k <= |lines|
    decreases |lines| - k
  {
    k < |lines| ==>
      && (KindOf(rules.trim(lines[k]), t.open != []).End? ==> Top(t.open).indent == t.indent)
      && Aligned(lines, k + 1, NextTables(t, lines[k], rules), rules)
  }

  /** Text without indentation is aligned. */
  lemma {:induction false} UnindentedIsAligned(lines: seq<string>, k: nat, t: Tables, rules: Rules)
    requires k <= |lines| && t.indent == 0 && forall i :: 0 <= i < |t.open| ==> t.open[i].indent == 0
    requires forall i :: 0 <= i < |lines| ==> Colons(rules.trim(lines[i])) == 0
    ensures Aligned(lines, k, t, rules)
    decreases |lines| - k
  {
    if k < |lines| {
      var next := NextTables(t, lines[k], rules);
      assert Colons(rules.trim(lines[k])) == 0;
      UnindentedIsAligned(lines, k + 1, next, rules);
    }
  }

  /** How far the table that follows is indented. */
  function IndentBehind(open: seq<OpenTable>, n: nat): nat {
    if n < |open| then open[n].indent else 0
  }

  predicate IsNeat(table: OpenTable, behind: nat) {
    table.Valid() && table.Within() == behind && (table.cell.Some? ==> table.inTable == 0)
  }

  /** The only indentations that are open are those of the open tables. */
  predicate Neat(t: Tables) {
    && !t.broken && t.outer == IndentBehind(t.open, 0)
    && forall i :: 0 <= i < |t.open| ==> IsNeat(t.open[i], IndentBehind(t.open, i + 1))
  }

  lemma NeatTop(t: Tables)
    requires Neat(t) && t.open != []
    ensures IsNeat(Top(t.open), 0) && Top(t.open).Closes()
  {
    assert IsNeat(t.open[|t.open| - 1], IndentBehind(t.open, |t.open|));
  }

  lemma NeatWithTop(t: Tables, next: Tables, table: OpenTable)
    requires Neat(t) && t.open != [] && next.open == Popped(t.open) + [table] && next.outer == t.outer
    requires IsNeat(table, 0) && table.indent == Top(t.open).indent && !next.broken
    ensures Neat(next)
  {
    forall i | 0 <= i < |next.open|
      ensures IsNeat(next.open[i], IndentBehind(next.open, i + 1))
    {
      assert IsNeat(t.open[i], IndentBehind(t.open, i + 1));
    }
  }

  lemma NeatWithMore(t: Tables, indent: nat)
    requires Neat(t)
    ensures Neat(t.NextTable(indent))
  {
    var next := t.NextTable(indent);
    var n := |t.open|;
    if t.open != [] {
      NeatTop(t);
    }
    forall i | 0 <= i < |next.open|
      ensures IsNeat(next.open[i], IndentBehind(next.open, i + 1))
    {
      if i < n {
        assert IsNeat(t.open[i], IndentBehind(t.open, i + 1));
      }
    }
  }

  lemma NeatWithLess(t: Tables)
    requires Neat(t) && t.open != [] && Top(t.open).indent == t.indent
    ensures Neat(t.Less(Top(t.open).Closes()).Outdented())
  {
    var n := |t.open| - 1;
    var less := t.Less(Top(t.open).Closes());
    var next := less.Outdented();
    NeatTop(t);
    if n > 0 {
      assert IsNeat(t.open[n - 1], IndentBehind(t.open, n));
    }
    assert less.Within() == t.indent;
    forall i | 0 <= i < |next.open|
      ensures IsNeat(next.open[i], IndentBehind(next.open, i + 1))
    {
      assert IsNeat(t.open[i], IndentBehind(t.open, i + 1));
    }
  }

  lemma NeatNext(t: Tables, line: string, rules: Rules)
    requires Neat(t)
    requires KindOf(rules.trim(line), t.open != []).End? ==> Top(t.open).indent == t.indent
    ensures Neat(NextTables(t, line, rules))
  {
    var next := NextTables(t, line, rules);
    if t.open != [] {
      NeatTop(t);
    }
    match KindOf(rules.trim(line), t.open != []) {
      case Start(indent) => NeatWithMore(t, indent);
      case End => NeatWithLess(t);
      case Row => NeatWithTop(t, next, Top(t.open).NextRow());
      case Cells(first, rest) =>
        if CellsOf(first, rest, rules) != [] {
          NeatWithTop(t, next, Top(t.open).NextCell(CellTag(first)));
        }
      case Blank =>
      case Other =>
    }
  }

  /**
     Of aligned text the output is well nested if and only if the tables left open at the end are not indented and have
     at most a plain cell open.
   */
  lemma {:induction false} AlignedEndsPlain(lines: seq<string>, k: nat, t: Tables, rules: Rules)
    requires k <= |lines| && Aligned(lines, k, t, rules) && Neat(t)
    ensures var last := TablesAfter(lines, k, t, rules);
            EndsPlain(last)
            <==> forall i :: 0 <= i < |last.open| ==> IsPlainAndUnindented(last.open[i])
    decreases |lines| - k
  {
    if k < |lines| {
      NeatNext(t, lines[k], rules);
      AlignedEndsPlain(lines, k + 1, NextTables(t, lines[k], rules), rules);
    } else {
      NeatEndsPlain(t);
    }
  }

  predicate IsPlainAndUnindented(table: OpenTable) {
    table.indent == 0 && (table.cell.Some? ==> table.cell.value == Td)
  }

  lemma NeatEndsPlain(t: Tables)
    requires Neat(t)
    ensures EndsPlain(t) <==> forall i :: 0 <= i < |t.open| ==> IsPlainAndUnindented(t.open[i])
  {
    if EndsPlain(t) {
      forall i | 0 <= i < |t.open|
        ensures IsPlainAndUnindented(t.open[i])
      {
        assert t.open[i].IsPlain();
        if i > 0 {
          assert IsNeat(t.open[i - 1], IndentBehind(t.open, i)) && t.open[i - 1].IsPlain();
        }
      }
    }
    if forall i :: 0 <= i < |t.open| ==> IsPlainAndUnindented(t.open[i]) {
      assert t.open != [] ==> IsPlainAndUnindented(t.open[0]);
      forall i | 0 <= i < |t.open|
        ensures t.open[i].IsPlain()
      {
        assert IsNeat(t.open[i], IndentBehind(t.open, i + 1)) && IsPlainAndUnindented(t.open[i]);
        if i + 1 < |t.open| {
          assert IsPlainAndUnindented(t.open[i + 1]);
        }
      }
    }
  }

  // ---- texts that show it

  const AS_IS := Rules(s => s, s => [s], s => s)

  lemma KindsOfLines()
    ensures KindOf("{|", false) == Start(0) && KindOf(":{|", true) == Start(1)
    ensures KindOf("|}", true) == End && KindOf("|-", true) == Row
    ensures KindOf("! a", true) == Cells('!', " a") && KindOf("|+ a", true) == Cells('+', " a")
  {
    assert "{|"[0..] == "{|" && ":{|"[1..] == "{|";
    assert Colons("{|") == 0 && Colons(":{|") == 1 && Colons("|}") == 0 && Colons("|-") == 0;
    assert "|}"[0..] == "|}" && "|-"[0..] == "|-";
    assert Colons("! a") == 0 && Colons("|+ a") == 0 && "! a"[0..] == "! a" && "|+ a"[0..] == "|+ a";
    assert "! a"[1..] == " a" && "|+ a"[2..] == " a";
  }

  lemma AfterTwo(lines: seq<string>, one: Tables, two: Tables)
    requires |lines| == 2
    requires one == NextTables(NO_TABLES, lines[0], AS_IS) && two == NextTables(one, lines[1], AS_IS)
    ensures TablesAfter(lines, 0, NO_TABLES, AS_IS) == two
  {
    TablesNext(lines, 0, NO_TABLES, AS_IS, one);
    TablesNext(lines, 1, one, AS_IS, two);
  }

  lemma OtherCellIsNotPlain(tag: Tag)
    requires tag != Td
    ensures !EndsPlain(NO_TABLES.NextTable(0).NextCell(tag))
  {
    assert !NO_TABLES.NextTable(0).NextCell(tag).open[0].IsPlain();
  }

  /** A header left open is closed as a cell. */
  lemma OpenHeaderBreaks()
    ensures !EndsPlain(TablesAfter(["{|", "! a"], 0, NO_TABLES, AS_IS))
  {
    KindsOfLines();
    AfterTwo(["{|", "! a"], NO_TABLES.NextTable(0), NO_TABLES.NextTable(0).NextCell(Th));
    OtherCellIsNotPlain(Th);
  }

  /** So is a caption. */
  lemma OpenCaptionBreaks()
    ensures !EndsPlain(TablesAfter(["{|", "|+ a"], 0, NO_TABLES, AS_IS))
  {
    KindsOfLines();
    AfterTwo(["{|", "|+ a"], NO_TABLES.NextTable(0), NO_TABLES.NextTable(0).NextCell(Caption));
    OtherCellIsNotPlain(Caption);
  }

  /** A table in another, one further in; and what their ends do. */
  lemma OneFurtherIn(one: Tables, two: Tables, three: Tables)
    requires one == NO_TABLES.NextTable(0) && two == one.NextTable(1)
    requires three == two.Less(Top(two.open).Closes()).Outdented()
    ensures three.open != [] && three.Less(Top(three.open).Closes()).Outdented().broken
  {
    assert Top(two.open) == OpenTable(1, None, false, false, false, 0, 0) && two.indent == 1;
    assert Popped(two.open) == [one.open[0].WithPairs(1)];
  }

  /** The outer table closes the indentation of the inner one once more. */
  lemma UnalignedBreaks()
    ensures !EndsPlain(TablesAfter(["{|", ":{|", "|}", "|}"], 0, NO_TABLES, AS_IS))
  {
    var lines := ["{|", ":{|", "|}", "|}"];
    KindsOfLines();
    var one := NO_TABLES.NextTable(0);
    var two := one.NextTable(1);
    var three := two.Less(Top(two.open).Closes()).Outdented();
    OneFurtherIn(one, two, three);
    var four := three.Less(Top(three.open).Closes()).Outdented();
    TablesNext(lines, 0, NO_TABLES, AS_IS, one);
    TablesNext(lines, 1, one, AS_IS, two);
    TablesNext(lines, 2, two, AS_IS, three);
    TablesNext(lines, 3, three, AS_IS, four);
  }

  /** A row that nothing follows counts as a row of its table, which then closes without any. */
  lemma BegunRowIsNoRow()
    ensures TablesAfter(["{|", "|-", "|}"], 0, NO_TABLES, AS_IS).rowless
  {
    var lines := ["{|", "|-", "|}"];
    KindsOfLines();
    var one := NO_TABLES.NextTable(0);
    var two := one.NextRow();
    TablesNext(lines, 0, NO_TABLES, AS_IS, one);
    TablesNext(lines, 1, one, AS_IS, two);
    TablesNext(lines, 2, two, AS_IS, two.Less(Top(two.open).Closes()).Outdented());
  }

  // ---- their tags

  function Pairs(n: nat): seq<Tag> {
    if n == 0 then [] else Pairs(n - 1) + [Dl] + [Dd]
  }

  lemma LastOfPairs(open: seq<Tag>, n: nat)
    requires n > 0
    ensures open + Pairs(n) != [] && Top(open + Pairs(n)) == Dd
  {
  }

  lemma {:induction false} PairsAdd(open: seq<Tag>, a: nat, b: nat)
    ensures open + Pairs(a) + Pairs(b) == open + Pairs(a + b)
    decreases b
  {
    if b > 0 {
      PairsAdd(open, a, b - 1);
      assert open + Pairs(a) + Pairs(b) == open + Pairs(a) + Pairs(b - 1) + [Dl] + [Dd];
      assert open + Pairs(a + b) == open + Pairs(a + b - 1) + [Dl] + [Dd];
    }
  }

  function RowTags(tr: bool): seq<Tag> { if tr then [Tr] else [] }

  /** A table's own tags up to the place where the next thing goes, and the indentations there. */
  function OwnBase(table: OpenTable): seq<Tag> {
    if table.cell.None? then [Table] else [Table] + Pairs(table.inTable) + RowTags(table.tr) + [table.cell.value]
  }

  /** The tags of the tables up to the `n`-th, without the indentations in the last one. */
  function TagsTo(outer: nat, open: seq<OpenTable>, n: nat): seq<Tag>
    requires n <= |open|
  {
    if n == 0 then [] else TagsTo(outer, open, n - 1) + Pairs(PairsAt(outer, open, n - 1)) + OwnBase(open[n - 1])
  }

  /** How many indentations are open between a table and the next one. */
  function PairsAt(outer: nat, open: seq<OpenTable>, n: nat): nat
    requires n <= |open|
  {
    if n == 0 then outer else open[n - 1].Within()
  }

  function Base(t: Tables): seq<Tag> { TagsTo(t.outer, t.open, |t.open|) }

  /** All open tags. */
  function AllTags(t: Tables): seq<Tag> { Base(t) + Pairs(t.Within()) }

  lemma {:induction false} TagsToSame(outer: nat, a: seq<OpenTable>, b: seq<OpenTable>, n: nat)
    requires n <= |a| && n <= |b| && forall i :: 0 <= i < n ==> a[i] == b[i]
    ensures TagsTo(outer, a, n) == TagsTo(outer, b, n) && PairsAt(outer, a, n) == PairsAt(outer, b, n)
  {
    if n > 0 {
      TagsToSame(outer, a, b, n - 1);
    }
  }

  /** Indentations go in front of nothing else. */
  lemma BaseOfPairs(t: Tables, n: nat)
    ensures Base(t.WithPairs(n)) == Base(t) && t.WithPairs(n).Within() == n
  {
    if t.open != [] {
      var next := t.WithPairs(n);
      OnTop(Popped(t.open), Top(t.open).WithPairs(n));
      UnderSame(t, next);
      assert OwnBase(Top(next.open)) == OwnBase(Top(t.open));
    }
  }

  /** The tags below the innermost table. */
  function Under(t: Tables): seq<Tag>
    requires t.open != []
  {
    TagsTo(t.outer, t.open, |t.open| - 1) + Pairs(PairsAt(t.outer, t.open, |t.open| - 1))
  }

  lemma TagsOfTop(t: Tables)
    requires t.open != []
    ensures AllTags(t) == Under(t) + OwnBase(Top(t.open)) + Pairs(Top(t.open).Within())
  {
  }

  lemma UnderSame(t: Tables, next: Tables)
    requires t.open != [] && next.open != [] && next.outer == t.outer && Popped(next.open) == Popped(t.open)
    ensures Under(next) == Under(t)
  {
    UnderOfPopped(t);
    UnderOfPopped(next);
  }

  lemma UnderOfPopped(t: Tables)
    requires t.open != []
    ensures var below := Popped(t.open);
            Under(t) == TagsTo(t.outer, below, |below|) + Pairs(PairsAt(t.outer, below, |below|))
  {
    TagsToSame(t.outer, t.open, Popped(t.open), |t.open| - 1);
  }

  /** Only the innermost table changes. */
  lemma TagsOfNext(t: Tables, next: Tables, table: OpenTable)
    requires t.open != [] && next.outer == t.outer && next.open == Popped(t.open) + [table]
    ensures AllTags(next) == Under(t) + OwnBase(table) + Pairs(table.Within())
  {
    OnTop(Popped(t.open), table);
    UnderSame(t, next);
    TagsOfTop(next);
  }

  lemma TagsOfOneLess(t: Tables, less: Tables)
    requires t.open != [] && less.open == Popped(t.open) && less.outer == t.outer
    ensures AllTags(less) == Under(t)
  {
    UnderOfPopped(t);
  }

  lemma TagsOfOneMore(t: Tables, table: OpenTable)
    requires table.cell.None? && table.inTable == 0
    ensures AllTags(t.(open := t.open + [table])) == AllTags(t) + [Table]
  {
    var more := t.(open := t.open + [table]);
    OnTop(t.open, table);
    TagsOfTop(more);
    TagsOfOneLess(more, t);
    assert AllTags(t) + [Table] + [] == AllTags(t) + [Table];
  }

  // ---- tokens

  function OpenPairs(n: nat): Tokens { if n == 0 then [] else OpenPairs(n - 1) + [Open(Dl)] + [Open(Dd)] }

  function ClosePairs(n: nat): Tokens { if n == 0 then [] else [Close(Dd)] + [Close(Dl)] + ClosePairs(n - 1) }

  lemma {:induction false} EmitPairs(output: Tokens, open: seq<Tag>, n: nat)
    requires Opened(output) == Some(open)
    ensures Opened(output + OpenPairs(n)) == Some(open + Pairs(n))
    decreases n
  {
    if n == 0 {
      assert output + [] == output && open + [] == open;
    } else {
      EmitPairs(output, open, n - 1);
      AddOpen(output + OpenPairs(n - 1), open + Pairs(n - 1), Dl);
      AddOpen(output + OpenPairs(n - 1) + [Open(Dl)], open + Pairs(n - 1) + [Dl], Dd);
      assert output + OpenPairs(n) == output + OpenPairs(n - 1) + [Open(Dl)] + [Open(Dd)];
      assert open + Pairs(n) == open + Pairs(n - 1) + [Dl] + [Dd];
    }
  }

  lemma PairCloses(output: Tokens, open: seq<Tag>, n: nat)
    requires n > 0 && Opened(output) == Some(open + Pairs(n))
    ensures Opened(output + [Close(Dd)] + [Close(Dl)]) == Some(open + Pairs(n - 1))
  {
    assert open + Pairs(n) == open + Pairs(n - 1) + [Dl] + [Dd];
    AddClose(output, open + Pairs(n - 1) + [Dl], Dd);
    AddClose(output + [Close(Dd)], open + Pairs(n - 1), Dl);
  }

  // ---- what is written, behind what is there

  /** A line break behind a tag, where there is one. */
  function Break(output: Tokens, lines: bool): (r: Tokens)
    ensures output <= r
  {
    if lines then output + [Text("\n")] else output
  }

  function CloseCell(output: Tokens, cell: Option<Tag>, lines: bool): (r: Tokens)
    ensures output <= r
  {
    if cell.None? then output else Break(output + [Close(cell.value)], lines)
  }

  function CloseRow(output: Tokens, tr: bool, lines: bool): (r: Tokens)
    ensures output <= r
  {
    if tr then Break(output + [Close(Tr)], lines) else output
  }

  /** A table without rows gets an empty one. */
  function AddRow(output: Tokens, hasRow: bool, lines: bool): (r: Tokens)
    ensures output <= r
  {
    if hasRow then output else Break(output + [Open(Tr)] + [Open(Td)] + [Close(Td)] + [Close(Tr)], lines)
  }

  function CloseTable(output: Tokens, cell: Option<Tag>, tr: bool, hasRow: bool, lines: bool): (r: Tokens)
    ensures output <= r
  {
    AddRow(CloseRow(CloseCell(output, cell, lines), tr, lines), hasRow, lines) + [Close(Table)]
  }

  function OpenRow(output: Tokens, tr: bool): (r: Tokens)
    ensures output <= r
  {
    if tr then output else Break(output + [Open(Tr)], true)
  }

  /** One cell behind another: the last one closes, a row opens if there is none, and then the cell does. */
  function AddCell(output: Tokens, cell: Option<Tag>, tr: bool, tag: Tag, text: string): (r: Tokens)
    ensures output <= r
  {
    OpenRow(CloseCell(output, cell, true), tr || tag == Caption) + [Open(tag)] + [Text(text)]
  }

  // ---- the tags that it leaves open

  lemma BreakKeepsOpen(output: Tokens, lines: bool)
    ensures Opened(Break(output, lines)) == Opened(output)
  {
    EmitText(output, "\n");
  }

  /** What is open behind the innermost cell of a table. */
  function AroundCell(under: seq<Tag>, table: OpenTable): seq<Tag> {
    under + [Table] + Pairs(table.inTable) + RowTags(table.tr)
  }

  lemma AroundNoCell(under: seq<Tag>, table: OpenTable)
    requires table.Valid() && table.cell.None?
    ensures under + OwnBase(table) + Pairs(table.Within()) == AroundCell(under, table)
    ensures AroundCell(under, table) == under + [Table] + Pairs(table.inTable)
  {
  }

  lemma AroundOpenCell(under: seq<Tag>, table: OpenTable)
    requires table.cell.Some?
    ensures under + OwnBase(table) == AroundCell(under, table) + [table.cell.value]
  {
  }

  /** A cell closes if it is the one that is open and no indentation is open in it. */
  lemma CellCloses(output: Tokens, under: seq<Tag>, table: OpenTable, closed: Option<Tag>, lines: bool)
    requires Opened(output) == Some(under + OwnBase(table) + Pairs(table.Within())) && table.Valid()
    requires closed.Some? == table.cell.Some? && (closed.Some? ==> closed.value != Dd)
    ensures Opened(CloseCell(output, closed, lines))
            == if table.inCell == 0 && closed == table.cell then Some(AroundCell(under, table)) else None
  {
    if table.cell.None? {
      AroundNoCell(under, table);
    } else {
      var all := under + OwnBase(table);
      BreakKeepsOpen(output + [Close(closed.value)], lines);
      AroundOpenCell(under, table);
      if table.inCell > 0 {
        LastOfPairs(all, table.inCell);
        AddWrongClose(output, all + Pairs(table.inCell), closed.value);
      } else {
        assert all + Pairs(0) == all;
        CloseLast(output, AroundCell(under, table), table.cell.value, closed.value);
      }
    }
  }

  lemma CloseLast(output: Tokens, open: seq<Tag>, last: Tag, closed: Tag)
    requires Opened(output) == Some(open + [last])
    ensures Opened(output + [Close(closed)]) == if closed == last then Some(open) else None
  {
    if closed == last {
      AddClose(output, open, last);
    } else {
      AddWrongClose(output, open + [last], closed);
    }
  }

  lemma RowCloses(output: Tokens, open: seq<Tag>, tr: bool, lines: bool)
    requires Opened(output) == Some(open + RowTags(tr))
    ensures Opened(CloseRow(output, tr, lines)) == Some(open)
  {
    if tr {
      AddClose(output, open, Tr);
      BreakKeepsOpen(output + [Close(Tr)], lines);
    } else {
      assert open + [] == open;
    }
  }

  lemma RowIsAdded(output: Tokens, open: seq<Tag>, hasRow: bool, lines: bool)
    requires Opened(output) == Some(open)
    ensures Opened(AddRow(output, hasRow, lines)) == Some(open)
  {
    if !hasRow {
      AddOpen(output, open, Tr);
      AddOpen(output + [Open(Tr)], open + [Tr], Td);
      AddClose(output + [Open(Tr)] + [Open(Td)], open + [Tr], Td);
      AddClose(output + [Open(Tr)] + [Open(Td)] + [Close(Td)], open, Tr);
      BreakKeepsOpen(output + [Open(Tr)] + [Open(Td)] + [Close(Td)] + [Close(Tr)], lines);
    }
  }

  lemma RowOpens(output: Tokens, open: seq<Tag>, tr: bool)
    requires Opened(output) == Some(open + RowTags(tr))
    ensures Opened(OpenRow(output, tr)) == Some(open + RowTags(true))
  {
    if !tr {
      assert open + RowTags(tr) == open;
      AddOpen(output, open, Tr);
      BreakKeepsOpen(output + [Open(Tr)], true);
    }
  }

  /** The end tag of a table closes it if no indentation is open in the table itself. */
  lemma TableTagCloses(output: Tokens, under: seq<Tag>, n: nat)
    requires Opened(output) == Some(under + [Table] + Pairs(n))
    ensures Opened(output + [Close(Table)]) == if n == 0 then Some(under) else None
  {
    if n == 0 {
      assert under + [Table] + Pairs(n) == under + [Table];
      AddClose(output, under, Table);
    } else {
      LastOfPairs(under + [Table], n);
      AddWrongClose(output, under + [Table] + Pairs(n), Table);
    }
  }

  /** A table closes if and only if the cell that is closed is the open one and no indentation is open in it. */
  lemma TableCloses(output: Tokens, under: seq<Tag>, table: OpenTable, closed: Option<Tag>, lines: bool)
    requires Opened(output) == Some(under + OwnBase(table) + Pairs(table.Within())) && table.Valid()
    requires closed.Some? == table.cell.Some? && (closed.Some? ==> closed.value != Dd)
    ensures Opened(CloseTable(output, closed, table.tr, table.begun, lines))
            == if table.Closes() && closed == table.cell then Some(under) else None
  {
    var a := CloseCell(output, closed, lines);
    var b := CloseRow(a, table.tr, lines);
    var c := AddRow(b, table.begun, lines);
    CellCloses(output, under, table, closed, lines);
    if table.inCell == 0 && closed == table.cell {
      RowCloses(a, under + [Table] + Pairs(table.inTable), table.tr, lines);
      RowIsAdded(b, under + [Table] + Pairs(table.inTable), table.begun, lines);
      TableTagCloses(c, under, table.inTable);
    } else {
      BrokenStays(a, c + [Close(Table)]);
    }
  }

  /** A row ends the cell and the row that are open. */
  lemma RowBegins(output: Tokens, under: seq<Tag>, table: OpenTable)
    requires Opened(output) == Some(under + OwnBase(table) + Pairs(table.Within())) && table.Valid()
    ensures var next := table.NextRow();
            Opened(CloseRow(CloseCell(output, table.cell, false), table.tr, false))
            == if table.inCell == 0 then Some(under + OwnBase(next) + Pairs(next.Within())) else None
  {
    var a := CloseCell(output, table.cell, false);
    CellCloses(output, under, table, table.cell, false);
    if table.inCell == 0 {
      RowCloses(a, under + [Table] + Pairs(table.inTable), table.tr, false);
    } else {
      BrokenStays(a, CloseRow(a, table.tr, false));
    }
  }

  lemma CellIsAdded(output: Tokens, under: seq<Tag>, table: OpenTable, tag: Tag, text: string)
    requires Opened(output) == Some(under + OwnBase(table) + Pairs(table.Within())) && table.Valid()
    ensures var next := table.NextCell(tag);
            Opened(AddCell(output, table.cell, table.tr, tag, text))
            == if table.inCell == 0 then Some(under + OwnBase(next) + Pairs(next.Within())) else None
  {
    var next := table.NextCell(tag);
    var a := CloseCell(output, table.cell, true);
    var b := OpenRow(a, table.tr || tag == Caption);
    CellCloses(output, under, table, table.cell, true);
    if table.inCell == 0 {
      if tag != Caption {
        RowOpens(a, under + [Table] + Pairs(table.inTable), table.tr);
      }
      AddOpen(b, AroundCell(under, next), tag);
      EmitText(b + [Open(tag)], text);
      AroundOpenCell(under, next);
      assert under + OwnBase(next) + Pairs(0) == under + OwnBase(next);
    } else {
      BrokenStays(a, b + [Open(tag)] + [Text(text)]);
    }
  }

  // ---- the rows of its tables

  /** Of an open table: whether it has had a row, and whether a row is open. */
  datatype RowState = RowState(had: bool, open: bool)

  /**
     The tables that are open, whether all cells, headers and rows began and ended in place, and whether each table
     that was closed had a row. In place is a cell or header in an open row of the innermost table, and a row where none
     is open.
   */
  datatype Rows = Rows(tables: seq<RowState>, placed: bool, full: bool)

  function RowStep(r: Rows, token: Token<Tag>): Rows {
    if token == Open(Table) then r.(tables := r.tables + [RowState(false, false)])
    else if r.tables == [] then r.(placed := r.placed && IsAnywhere(token))
    else
      var top := Top(r.tables);
      match token
      case Open(Tr) => Rows(Popped(r.tables) + [RowState(true, true)], r.placed && !top.open, r.full)
      case Close(Tr) => Rows(Popped(r.tables) + [RowState(top.had, false)], r.placed && top.open, r.full)
      case Open(Td) => r.(placed := r.placed && top.open)
      case Open(Th) => r.(placed := r.placed && top.open)
      case Close(Table) => Rows(Popped(r.tables), r.placed && !top.open, r.full && top.had)
      case _ => r
  }

  /** Indentations, captions, ends of cells, and text. */
  predicate IsAnywhere(token: Token<Tag>) {
    match token
    case Open(tag) => tag == Dl || tag == Dd || tag == Caption
    case Close(tag) => tag == Dl || tag == Dd || IsCell(tag)
    case Text(_) => true
  }

  function RowsAt(tokens: Tokens, n: nat): Rows
    requires n <= |tokens|
  {
    if n == 0 then Rows([], true, true) else RowStep(RowsAt(tokens, n - 1), tokens[n - 1])
  }

  function RowsOf(tokens: Tokens): Rows { RowsAt(tokens, |tokens|) }

  lemma {:induction false} RowsSeePrefix(a: Tokens, b: Tokens, n: nat)
    requires n <= |a| && n <= |b| && forall i :: 0 <= i < n ==> a[i] == b[i]
    ensures RowsAt(a, n) == RowsAt(b, n)
  {
    if n > 0 {
      RowsSeePrefix(a, b, n - 1);
    }
  }

  lemma RowsNext(output: Tokens, token: Token<Tag>)
    ensures RowsOf(output + [token]) == RowStep(RowsOf(output), token)
  {
    RowsSeePrefix(output, output + [token], |output|);
  }

  lemma RowsAnywhere(output: Tokens, token: Token<Tag>)
    requires IsAnywhere(token)
    ensures RowsOf(output + [token]) == RowsOf(output)
  {
    RowsNext(output, token);
  }

  lemma {:induction false} RowsOfAll(output: Tokens, tokens: Tokens)
    requires forall i :: 0 <= i < |tokens| ==> IsAnywhere(tokens[i])
    ensures RowsOf(output + tokens) == RowsOf(output)
    decreases |tokens|
  {
    if tokens == [] {
      assert output + tokens == output;
    } else {
      var n := |tokens| - 1;
      RowsOfAll(output, tokens[..n]);
      RowsAnywhere(output + tokens[..n], tokens[n]);
      assert output + tokens == output + tokens[..n] + [tokens[n]];
    }
  }

  lemma BreakKeepsRows(output: Tokens, lines: bool)
    ensures RowsOf(Break(output, lines)) == RowsOf(output)
  {
    RowsAnywhere(output, Text("\n"));
  }

  lemma CloseCellKeepsRows(output: Tokens, cell: Option<Tag>, lines: bool)
    requires cell.Some? ==> IsCell(cell.value)
    ensures RowsOf(CloseCell(output, cell, lines)) == RowsOf(output)
  {
    if cell.Some? {
      RowsAnywhere(output, Close(cell.value));
      BreakKeepsRows(output + [Close(cell.value)], lines);
    }
  }

  lemma CloseRowRows(output: Tokens, below: seq<RowState>, had: bool, tr: bool, full: bool, lines: bool)
    requires RowsOf(output) == Rows(below + [RowState(had, tr)], true, full)
    ensures RowsOf(CloseRow(output, tr, lines)) == Rows(below + [RowState(had, false)], true, full)
  {
    if tr {
      OnTop(below, RowState(had, tr));
      RowsNext(output, Close(Tr));
      BreakKeepsRows(output + [Close(Tr)], lines);
    }
  }

  lemma OpenRowRows(output: Tokens, below: seq<RowState>, had: bool, tr: bool, full: bool)
    requires RowsOf(output) == Rows(below + [RowState(had, tr)], true, full) && (tr ==> had)
    ensures RowsOf(OpenRow(output, tr)) == Rows(below + [RowState(true, true)], true, full)
  {
    if !tr {
      OnTop(below, RowState(had, tr));
      RowsNext(output, Open(Tr));
      BreakKeepsRows(output + [Open(Tr)], true);
    }
  }

  lemma AddRowRows(output: Tokens, below: seq<RowState>, had: bool, full: bool, hasRow: bool, lines: bool)
    requires RowsOf(output) == Rows(below + [RowState(had, false)], true, full)
    ensures RowsOf(AddRow(output, hasRow, lines)) == Rows(below + [RowState(had || !hasRow, false)], true, full)
  {
    if !hasRow {
      OnTop(below, RowState(had, false));
      OnTop(below, RowState(true, true));
      RowsNext(output, Open(Tr));
      RowsNext(output + [Open(Tr)], Open(Td));
      RowsNext(output + [Open(Tr)] + [Open(Td)], Close(Td));
      RowsNext(output + [Open(Tr)] + [Open(Td)] + [Close(Td)], Close(Tr));
      BreakKeepsRows(output + [Open(Tr)] + [Open(Td)] + [Close(Td)] + [Close(Tr)], lines);
    }
  }

  /** A table closes with a row unless one was begun and none opened. */
  lemma CloseTableRows(output: Tokens, below: seq<RowState>, table: OpenTable, closed: Option<Tag>, full: bool,
                       lines: bool)
    requires RowsOf(output) == Rows(below + [RowState(table.row, table.tr)], true, full)
    requires closed.Some? ==> IsCell(closed.value)
    ensures RowsOf(CloseTable(output, closed, table.tr, table.begun, lines))
            == Rows(below, true, full && !table.Rowless())
  {
    var a := CloseCell(output, closed, lines);
    var b := CloseRow(a, table.tr, lines);
    var c := AddRow(b, table.begun, lines);
    CloseCellKeepsRows(output, closed, lines);
    CloseRowRows(a, below, table.row, table.tr, full, lines);
    AddRowRows(b, below, table.row, full, table.begun, lines);
    OnTop(below, RowState(table.row || !table.begun, false));
    RowsNext(c, Close(Table));
  }

  lemma RowBeginsRows(output: Tokens, below: seq<RowState>, table: OpenTable, full: bool)
    requires RowsOf(output) == Rows(below + [RowState(table.row, table.tr)], true, full) && table.Valid()
    ensures RowsOf(CloseRow(CloseCell(output, table.cell, false), table.tr, false))
            == Rows(below + [RowState(table.row, false)], true, full)
  {
    CloseCellKeepsRows(output, table.cell, false);
    CloseRowRows(CloseCell(output, table.cell, false), below, table.row, table.tr, full, false);
  }

  lemma AddCellRows(output: Tokens, below: seq<RowState>, table: OpenTable, full: bool, tag: Tag, text: string)
    requires RowsOf(output) == Rows(below + [RowState(table.row, table.tr)], true, full) && table.Valid() && IsCell(tag)
    ensures var next := table.NextCell(tag);
            RowsOf(AddCell(output, table.cell, table.tr, tag, text))
            == Rows(below + [RowState(next.row, next.tr)], true, full)
  {
    var next := table.NextCell(tag);
    var a := CloseCell(output, table.cell, true);
    var b := OpenRow(a, table.tr || tag == Caption);
    CloseCellKeepsRows(output, table.cell, true);
    if tag != Caption {
      OpenRowRows(a, below, table.row, table.tr, full);
    }
    OnTop(below, RowState(next.row, next.tr));
    RowsNext(b, Open(tag));
    RowsAnywhere(b + [Open(tag)], Text(text));
  }

  lemma {:induction false} PairsAreAnywhere(n: nat)
    ensures forall i :: 0 <= i < |OpenPairs(n)| ==> IsAnywhere(OpenPairs(n)[i])
    ensures forall i :: 0 <= i < |ClosePairs(n)| ==> IsAnywhere(ClosePairs(n)[i])
  {
    if n > 0 {
      PairsAreAnywhere(n - 1);
    }
  }

  // ---- what is read of it

  lemma BreakHasNoInk(output: Tokens, lines: bool)
    ensures MarksOf(Break(output, lines)) == MarksOf(output)
  {
    MarksOfTags(output, [Text("\n")]);
  }

  lemma TagHasNoInk(output: Tokens, token: Token<Tag>)
    requires !token.Text?
    ensures MarksOf(output + [token]) == MarksOf(output)
  {
    MarksOfNext(output, token);
  }

  lemma CloseCellHasNoInk(output: Tokens, cell: Option<Tag>, lines: bool)
    ensures MarksOf(CloseCell(output, cell, lines)) == MarksOf(output)
  {
    if cell.Some? {
      TagHasNoInk(output, Close(cell.value));
      BreakHasNoInk(output + [Close(cell.value)], lines);
    }
  }

  lemma CloseRowHasNoInk(output: Tokens, tr: bool, lines: bool)
    ensures MarksOf(CloseRow(output, tr, lines)) == MarksOf(output)
  {
    TagHasNoInk(output, Close(Tr));
    BreakHasNoInk(output + [Close(Tr)], lines);
  }

  lemma OpenRowHasNoInk(output: Tokens, tr: bool)
    ensures MarksOf(OpenRow(output, tr)) == MarksOf(output)
  {
    TagHasNoInk(output, Open(Tr));
    BreakHasNoInk(output + [Open(Tr)], true);
  }

  lemma AddRowHasNoInk(output: Tokens, hasRow: bool, lines: bool)
    ensures MarksOf(AddRow(output, hasRow, lines)) == MarksOf(output)
  {
    TagHasNoInk(output, Open(Tr));
    TagHasNoInk(output + [Open(Tr)], Open(Td));
    TagHasNoInk(output + [Open(Tr)] + [Open(Td)], Close(Td));
    TagHasNoInk(output + [Open(Tr)] + [Open(Td)] + [Close(Td)], Close(Tr));
    BreakHasNoInk(output + [Open(Tr)] + [Open(Td)] + [Close(Td)] + [Close(Tr)], lines);
  }

  lemma CloseTableHasNoInk(output: Tokens, cell: Option<Tag>, tr: bool, hasRow: bool, lines: bool)
    ensures MarksOf(CloseTable(output, cell, tr, hasRow, lines)) == MarksOf(output)
  {
    var a := CloseCell(output, cell, lines);
    var b := CloseRow(a, tr, lines);
    CloseCellHasNoInk(output, cell, lines);
    CloseRowHasNoInk(a, tr, lines);
    AddRowHasNoInk(b, hasRow, lines);
    TagHasNoInk(AddRow(b, hasRow, lines), Close(Table));
  }

  lemma AddCellMarks(output: Tokens, cell: Option<Tag>, tr: bool, tag: Tag, text: string)
    ensures var added := AddCell(output, cell, tr, tag, text);
            MarksOf(added) == MarksOf(output) + Marks(text, AroundOf(added))
  {
    var a := CloseCell(output, cell, true);
    var b := OpenRow(a, tr || tag == Caption);
    CloseCellHasNoInk(output, cell, true);
    OpenRowHasNoInk(a, tr || tag == Caption);
    TagHasNoInk(b, Open(tag));
    MarksOfNext(b + [Open(tag)], Text(text));
    EmitText(b + [Open(tag)], text);
    SpotsNext(b + [Open(tag)], Text(text));
  }

  lemma {:induction false} PairsHaveNoInk(output: Tokens, n: nat)
    ensures MarksOf(output + OpenPairs(n)) == MarksOf(output) == MarksOf(output + ClosePairs(n))
  {
    PairsAreTags(n);
    MarksOfTags(output, OpenPairs(n));
    MarksOfTags(output, ClosePairs(n));
  }

  lemma {:induction false} PairsAreTags(n: nat)
    ensures forall i :: 0 <= i < |OpenPairs(n)| ==> !OpenPairs(n)[i].Text?
    ensures forall i :: 0 <= i < |ClosePairs(n)| ==> !ClosePairs(n)[i].Text?
  {
    if n > 0 {
      PairsAreTags(n - 1);
    }
  }

  /** The tags that should be open. */
  function Context(t: Tables): Option<seq<Tag>> { if t.broken then None else Some(AllTags(t)) }

  // ---- which tags they are

  /** A cell behind the last one, in the open row or in a new one. */
  function CellSpots(table: OpenTable, tag: Tag, s: Spots): Spots {
    var closed := if table.cell.Some? then s.Pop() else s;
    (if table.tr || tag == Caption then closed else closed.Push()).Push()
  }

  function RowSpots(table: OpenTable, s: Spots): Spots {
    var closed := if table.cell.Some? then s.Pop() else s;
    if table.tr then closed.Pop() else closed
  }

  /** The end of a table, which gets a row of its own if none has begun. */
  function EndSpots(table: OpenTable, s: Spots): Spots {
    var closed := RowSpots(table, s);
    (if table.begun then closed else closed.Push().Push().Pop().Pop()).Pop()
  }

  /** So many cells behind one another. */
  function CellsSpots(t: Tables, tag: Tag, n: nat, s: Spots): Spots
    requires t.open != []
  {
    if n == 0 then s
    else
      var before := WithCells(t, tag, n - 1);
      assert before.open != [];
      CellSpots(Top(before.open), tag, CellsSpots(t, tag, n - 1, s))
  }

  function NextSpots(t: Tables, line: string, rules: Rules, s: Spots): Spots {
    match KindOf(rules.trim(line), t.open != [])
    case Start(indent) => s.Pushes(2 * indent + 1)
    case End => EndSpots(Top(t.open), s).Pops(2 * t.indent)
    case Row => RowSpots(Top(t.open), s)
    case Cells(first, rest) => CellsSpots(t, CellTag(first), |CellsOf(first, rest, rules)|, s)
    case Blank => s
    case Other => s
  }

  /** Each cell is one of its own: no tag that was there before, nor that of any other cell. */
  lemma EachCellIsNew(t: Tables, tag: Tag, n: nat, s: Spots)
    requires t.open != [] && n > 0
    ensures var (before, r) := (CellsSpots(t, tag, n - 1, s), CellsSpots(t, tag, n, s));
            r.begun != [] && before.opens <= r.begun[|r.begun| - 1] < r.opens
  {
  }

  lemma BreakKeepsSpots(output: Tokens, lines: bool)
    ensures SpotsOf(Break(output, lines)) == SpotsOf(output)
  {
    SpotsNext(output, Text("\n"));
  }

  lemma CloseCellSpots(output: Tokens, cell: Option<Tag>, lines: bool)
    ensures SpotsOf(CloseCell(output, cell, lines))
            == if cell.Some? then SpotsOf(output).Pop() else SpotsOf(output)
  {
    if cell.Some? {
      SpotsNext(output, Close(cell.value));
      BreakKeepsSpots(output + [Close(cell.value)], lines);
    }
  }

  lemma CloseRowSpots(output: Tokens, tr: bool, lines: bool)
    ensures SpotsOf(CloseRow(output, tr, lines)) == if tr then SpotsOf(output).Pop() else SpotsOf(output)
  {
    SpotsNext(output, Close(Tr));
    BreakKeepsSpots(output + [Close(Tr)], lines);
  }

  lemma OpenRowSpots(output: Tokens, tr: bool)
    ensures SpotsOf(OpenRow(output, tr)) == if tr then SpotsOf(output) else SpotsOf(output).Push()
  {
    SpotsNext(output, Open(Tr));
    BreakKeepsSpots(output + [Open(Tr)], true);
  }

  lemma AddRowSpots(output: Tokens, hasRow: bool, lines: bool)
    ensures SpotsOf(AddRow(output, hasRow, lines))
            == if hasRow then SpotsOf(output) else SpotsOf(output).Push().Push().Pop().Pop()
  {
    SpotsNext(output, Open(Tr));
    SpotsNext(output + [Open(Tr)], Open(Td));
    SpotsNext(output + [Open(Tr)] + [Open(Td)], Close(Td));
    SpotsNext(output + [Open(Tr)] + [Open(Td)] + [Close(Td)], Close(Tr));
    BreakKeepsSpots(output + [Open(Tr)] + [Open(Td)] + [Close(Td)] + [Close(Tr)], lines);
  }

  lemma RowWrittenSpots(output: Tokens, table: OpenTable)
    ensures SpotsOf(RowWritten(output, table)) == RowSpots(table, SpotsOf(output))
  {
    CloseCellSpots(output, table.cell, false);
    CloseRowSpots(CloseCell(output, table.cell, false), table.tr, false);
  }

  lemma CloseTableSpots(output: Tokens, table: OpenTable, cell: Option<Tag>, lines: bool)
    requires cell.Some? == table.cell.Some?
    ensures SpotsOf(CloseTable(output, cell, table.tr, table.begun, lines)) == EndSpots(table, SpotsOf(output))
  {
    var a := CloseCell(output, cell, lines);
    var b := CloseRow(a, table.tr, lines);
    CloseCellSpots(output, cell, lines);
    CloseRowSpots(a, table.tr, lines);
    AddRowSpots(b, table.begun, lines);
    SpotsNext(AddRow(b, table.begun, lines), Close(Table));
  }

  lemma AddCellSpots(output: Tokens, table: OpenTable, tag: Tag, text: string)
    ensures SpotsOf(AddCell(output, table.cell, table.tr, tag, text)) == CellSpots(table, tag, SpotsOf(output))
  {
    var a := CloseCell(output, table.cell, true);
    var b := OpenRow(a, table.tr || tag == Caption);
    CloseCellSpots(output, table.cell, true);
    OpenRowSpots(a, table.tr || tag == Caption);
    SpotsNext(b, Open(tag));
    SpotsNext(b + [Open(tag)], Text(text));
  }

  lemma {:induction false} OpenPairsSpots(output: Tokens, n: nat)
    ensures SpotsOf(output + OpenPairs(n)) == SpotsOf(output).Pushes(2 * n)
  {
    if n == 0 {
      assert output + [] == output;
    } else {
      OpenPairsSpots(output, n - 1);
      SpotsNext(output + OpenPairs(n - 1), Open(Dl));
      SpotsNext(output + OpenPairs(n - 1) + [Open(Dl)], Open(Dd));
      assert output + OpenPairs(n) == output + OpenPairs(n - 1) + [Open(Dl)] + [Open(Dd)];
    }
  }

  lemma {:induction false} ClosePairsSpots(output: Tokens, n: nat)
    ensures SpotsOf(output + ClosePairs(n)) == SpotsOf(output).Pops(2 * n)
    decreases n
  {
    if n == 0 {
      assert output + [] == output;
    } else {
      var less := output + [Close(Dd)] + [Close(Dl)];
      SpotsNext(output, Close(Dd));
      SpotsNext(output + [Close(Dd)], Close(Dl));
      ClosePairsSpots(less, n - 1);
      PopsFirst(SpotsOf(output), 2 * n - 2);
      assert output + ClosePairs(n) == less + ClosePairs(n - 1);
    }
  }

  lemma {:induction false} PopsFirst(s: Spots, n: nat)
    ensures s.Pop().Pop().Pops(n) == s.Pops(n + 2)
  {
    if n == 0 {
      assert s.Pops(1) == s.Pops(0).Pop();
    } else {
      PopsFirst(s, n - 1);
    }
  }

  // ---- the lines

  /** The texts of the cells, without the attributes in front of them, each in its own cell. */
  function CellsMarks(cells: seq<string>, n: nat, t: Tables, tag: Tag, s: Spots): seq<Mark<Tag>>
    requires n <= |cells| && t.open != []
  {
    if n == 0 then []
    else
      CellsMarks(cells, n - 1, t, tag, s)
      + Marks(CellText(cells[n - 1]), Around(Context(t.NextCell(tag)), CellsSpots(t, tag, n, s).begun))
  }

  /**
     What is read of a line, and the tags around it: all of the line outside of tables and in open cells, the texts of
     cells in these cells, and behind the end of a table what follows it.
   */
  function LineMarks(t: Tables, line: string, rules: Rules, s: Spots): seq<Mark<Tag>> {
    match KindOf(rules.trim(line), t.open != [])
    case Start(_) => []
    case End =>
      Marks(rules.trim(line)[2..], Around(Context(t.Less(Top(t.open).Closes())), EndSpots(Top(t.open), s).begun))
    case Row => []
    case Cells(first, rest) =>
      CellsMarks(CellsOf(first, rest, rules), |CellsOf(first, rest, rules)|, t, CellTag(first), s)
    case Blank => Marks(line, Around(Context(t), s.begun))
    case Other => Marks(line, Around(Context(t), s.begun))
  }

  function AllMarks(lines: seq<string>, k: nat, t: Tables, rules: Rules, s: Spots): seq<Mark<Tag>>
    requires k <= |lines|
    decreases |lines| - k
  {
    if k == |lines| then []
    else
      LineMarks(t, lines[k], rules, s)
      + AllMarks(lines, k + 1, NextTables(t, lines[k], rules), rules, NextSpots(t, lines[k], rules, s))
  }

  // ---- the output for these tables

  function RowStates(open: seq<OpenTable>): seq<RowState> {
    seq(|open|, i requires 0 <= i < |open| => RowState(open[i].row, open[i].tr))
  }

  lemma RowStatesOfTop(open: seq<OpenTable>, table: OpenTable)
    requires open != []
    ensures RowStates(open) == RowStates(Popped(open)) + [RowState(Top(open).row, Top(open).tr)]
    ensures RowStates(Popped(open) + [table]) == RowStates(Popped(open)) + [RowState(table.row, table.tr)]
  {
  }

  lemma RowStatesOfPairs(t: Tables, n: nat)
    ensures RowStates(t.WithPairs(n).open) == RowStates(t.open)
  {
  }

  /** The tags that are open are just those of the open tables, unless something was closed in a wrong place. */
  ghost predicate Nested(output: Tokens, t: Tables) {
    Opened(output) == Context(t)
  }

  /** Cells lie in rows and rows in tables, as in the open tables. */
  ghost predicate InRows(output: Tokens, t: Tables) {
    RowsOf(output) == Rows(RowStates(t.open), true, !t.rowless)
  }

  ghost predicate Written(output: Tokens, t: Tables) { Nested(output, t) && InRows(output, t) }

  lemma NothingIsWritten()
    ensures Written([], NO_TABLES)
  {
    assert AllTags(NO_TABLES) == [];
  }

  lemma TextIsWritten(output: Tokens, t: Tables, text: string)
    requires Written(output, t)
    ensures Written(output + [Text(text)], t)
  {
    EmitText(output, text);
    RowsAnywhere(output, Text(text));
  }

  lemma StillBroken(output: Tokens, more: Tokens, t: Tables, next: Tables)
    requires Nested(output, t) && output <= more && t.broken && next.broken
    ensures Nested(more, next)
  {
    BrokenStays(output, more);
  }

  lemma TableNests(output: Tokens, t: Tables, indent: nat)
    requires Nested(output, t)
    ensures Nested(output + OpenPairs(indent) + [Open(Table)], t.NextTable(indent))
  {
    var next, more := t.NextTable(indent), output + OpenPairs(indent) + [Open(Table)];
    if t.broken {
      StillBroken(output, more, t, next);
    } else {
      var indented := t.WithPairs(t.Within() + indent);
      EmitPairs(output, AllTags(t), indent);
      PairsAdd(Base(t), t.Within(), indent);
      BaseOfPairs(t, t.Within() + indent);
      AddOpen(output + OpenPairs(indent), AllTags(indented), Table);
      TagsOfOneMore(indented, OpenTable(indent, None, false, false, false, 0, 0));
      assert AllTags(next) == AllTags(indented) + [Table];
    }
  }

  lemma TableIsInRows(output: Tokens, t: Tables, indent: nat)
    requires InRows(output, t)
    ensures InRows(output + OpenPairs(indent) + [Open(Table)], t.NextTable(indent))
  {
    PairsAreAnywhere(indent);
    RowsOfAll(output, OpenPairs(indent));
    RowsNext(output + OpenPairs(indent), Open(Table));
    RowStatesOfPairs(t, t.Within() + indent);
    assert RowStates(t.NextTable(indent).open) == RowStates(t.open) + [RowState(false, false)];
  }

  /** What a row writes. */
  function RowWritten(output: Tokens, table: OpenTable): (r: Tokens)
    ensures output <= r
  {
    CloseRow(CloseCell(output, table.cell, false), table.tr, false)
  }

  lemma RowHasNoInk(output: Tokens, table: OpenTable)
    ensures MarksOf(RowWritten(output, table)) == MarksOf(output)
  {
    CloseCellHasNoInk(output, table.cell, false);
    CloseRowHasNoInk(CloseCell(output, table.cell, false), table.tr, false);
  }

  lemma RowIsWritten(output: Tokens, t: Tables)
    requires Written(output, t) && t.open != [] && Top(t.open).Valid()
    ensures Written(RowWritten(output, Top(t.open)), t.NextRow())
  {
    var table, next := Top(t.open), t.NextRow();
    RowStatesOfTop(t.open, table.NextRow());
    RowBeginsRows(output, RowStates(Popped(t.open)), table, !t.rowless);
    if t.broken {
      StillBroken(output, RowWritten(output, table), t, next);
    } else {
      TagsOfTop(t);
      TagsOfNext(t, next, table.NextRow());
      RowBegins(output, Under(t), table);
    }
  }

  lemma CellIsWritten(output: Tokens, t: Tables, tag: Tag, text: string)
    requires Written(output, t) && t.open != [] && Top(t.open).Valid() && IsCell(tag)
    ensures Written(AddCell(output, Top(t.open).cell, Top(t.open).tr, tag, text), t.NextCell(tag))
  {
    var table, next := Top(t.open), t.NextCell(tag);
    RowStatesOfTop(t.open, table.NextCell(tag));
    AddCellRows(output, RowStates(Popped(t.open)), table, !t.rowless, tag, text);
    if t.broken {
      StillBroken(output, AddCell(output, table.cell, table.tr, tag, text), t, next);
    } else {
      TagsOfTop(t);
      TagsOfNext(t, next, table.NextCell(tag));
      CellIsAdded(output, Under(t), table, tag, text);
    }
  }

  /** The innermost table closes, with this tag for its cell. */
  lemma TableIsClosed(output: Tokens, t: Tables, closed: Option<Tag>, lines: bool)
    requires Written(output, t) && t.open != [] && Top(t.open).Valid()
    requires closed.Some? == Top(t.open).cell.Some? && (closed.Some? ==> IsCell(closed.value))
    ensures var table := Top(t.open);
            Written(CloseTable(output, closed, table.tr, table.begun, lines),
                    t.Less(table.Closes() && closed == table.cell))
  {
    var table := Top(t.open);
    var next := t.Less(table.Closes() && closed == table.cell);
    RowStatesOfTop(t.open, table);
    CloseTableRows(output, RowStates(Popped(t.open)), table, closed, !t.rowless, lines);
    if t.broken {
      StillBroken(output, CloseTable(output, closed, table.tr, table.begun, lines), t, next);
    } else {
      TagsOfTop(t);
      TagsOfOneLess(t, next);
      TableCloses(output, Under(t), table, closed, lines);
    }
  }

  /** More indentations may be closed than are open. */
  lemma {:induction false} PairsMayClose(output: Tokens, base: seq<Tag>, n: nat, m: nat)
    requires Opened(output) == Some(base + Pairs(n)) && (base != [] ==> Top(base) != Dd)
    ensures Opened(output + ClosePairs(m)) == if m <= n then Some(base + Pairs(n - m)) else None
    decreases m
  {
    if m == 0 {
      assert output + [] == output;
    } else if n == 0 {
      assert base + [] == base;
      AddWrongClose(output, base, Dd);
      BrokenStays(output + [Close(Dd)], output + ClosePairs(m));
    } else {
      PairCloses(output, base, n);
      PairsMayClose(output + [Close(Dd)] + [Close(Dl)], base, n - 1, m - 1);
      assert output + ClosePairs(m) == output + [Close(Dd)] + [Close(Dl)] + ClosePairs(m - 1);
    }
  }

  lemma BaseEndsInNoPair(t: Tables)
    requires t.open != [] ==> Top(t.open).Valid()
    ensures Base(t) != [] ==> Top(Base(t)) != Dd
  {
    if t.open != [] {
      var table := Top(t.open);
      assert Top(OwnBase(table)) != Dd;
      assert Top(Base(t)) == Top(OwnBase(table));
    }
  }

  lemma OutdentIsInRows(output: Tokens, t: Tables)
    requires InRows(output, t)
    ensures InRows(output + ClosePairs(t.indent), t.Outdented())
  {
    PairsAreAnywhere(t.indent);
    RowsOfAll(output, ClosePairs(t.indent));
    if t.indent <= t.Within() {
      RowStatesOfPairs(t, t.Within() - t.indent);
    }
  }

  lemma OutdentNests(output: Tokens, t: Tables)
    requires Nested(output, t) && !t.broken && (t.open != [] ==> Top(t.open).Valid())
    ensures Nested(output + ClosePairs(t.indent), t.Outdented())
  {
    BaseEndsInNoPair(t);
    PairsMayClose(output, Base(t), t.Within(), t.indent);
    if t.indent <= t.Within() {
      BaseOfPairs(t, t.Within() - t.indent);
    }
  }

  lemma OutdentIsWritten(output: Tokens, t: Tables)
    requires Written(output, t) && (t.open != [] ==> Top(t.open).Valid())
    ensures Written(output + ClosePairs(t.indent), t.Outdented())
  {
    OutdentIsInRows(output, t);
    if t.broken {
      StillBroken(output, output + ClosePairs(t.indent), t, t.Outdented());
    } else {
      OutdentNests(output, t);
    }
  }

  // ---- the stacks of these tables

  /** Equally high, and in agreement with what is known of each table. */
  ghost predicate AreStacks(open: seq<OpenTable>, td: seq<bool>, last: seq<Option<Tag>>, tr: seq<bool>,
                            attributes: seq<string>, hasRow: seq<bool>)
  {
    && |td| == |last| == |tr| == |attributes| == |hasRow| == |open|
    && forall i :: 0 <= i < |open| ==> IsEntry(open[i], td[i], last[i], tr[i], hasRow[i])
  }

  predicate IsEntry(table: OpenTable, td: bool, last: Option<Tag>, tr: bool, hasRow: bool) {
    table.Valid() && last == table.cell && td == table.cell.Some? && tr == table.tr && hasRow == table.begun
  }

  lemma StacksWithMore(open: seq<OpenTable>, td: seq<bool>, last: seq<Option<Tag>>, tr: seq<bool>,
                       attributes: seq<string>, hasRow: seq<bool>, table: OpenTable, attribute: string)
    requires AreStacks(open, td, last, tr, attributes, hasRow) && table.Valid()
    ensures AreStacks(open + [table], td + [table.cell.Some?], last + [table.cell], tr + [table.tr],
                      attributes + [attribute], hasRow + [table.begun])
  {
  }

  lemma StacksWithLess(open: seq<OpenTable>, td: seq<bool>, last: seq<Option<Tag>>, tr: seq<bool>,
                       attributes: seq<string>, hasRow: seq<bool>)
    requires open != [] && AreStacks(open, td, last, tr, attributes, hasRow)
    ensures AreStacks(Popped(open), Popped(td), Popped(last), Popped(tr), Popped(attributes), Popped(hasRow))
    ensures IsEntry(Top(open), Top(td), Top(last), Top(tr), Top(hasRow))
  {
    assert IsEntry(open[|open| - 1], td[|open| - 1], last[|open| - 1], tr[|open| - 1], hasRow[|open| - 1]);
  }

  lemma StacksWithPairs(t: Tables, n: nat, td: seq<bool>, last: seq<Option<Tag>>, tr: seq<bool>,
                        attributes: seq<string>, hasRow: seq<bool>)
    requires AreStacks(t.open, td, last, tr, attributes, hasRow)
    ensures AreStacks(t.WithPairs(n).open, td, last, tr, attributes, hasRow)
  {
    if t.open != [] {
      var i := |t.open| - 1;
      assert IsEntry(t.open[i], td[i], last[i], tr[i], hasRow[i]);
    }
  }

  lemma NextIsValid(table: OpenTable, tag: Tag)
    requires table.Valid() && IsCell(tag)
    ensures table.NextRow().Valid() && table.NextCell(tag).Valid()
  {
  }

  lemma WithOneMore(t: Tables, tag: Tag, n: nat)
    requires t.open != []
    ensures WithCells(t, tag, n).open != [] && WithCells(t, tag, n).NextCell(tag) == WithCells(t, tag, n + 1)
  {
    OnTop(Popped(t.open), Top(t.open).NextCell(tag));
  }

  lemma CellsMarksNext(was: seq<Mark<Tag>>, cells: seq<string>, i: nat, t: Tables, tag: Tag, s: Spots,
                       around: Around<Tag>)
    requires i < |cells| && t.open != []
    requires around == Around(Context(t.NextCell(tag)), CellsSpots(t, tag, i + 1, s).begun)
    ensures was + CellsMarks(cells, i, t, tag, s) + Marks(CellText(cells[i]), around)
            == was + CellsMarks(cells, i + 1, t, tag, s)
  {
    InkGoesOn(was, CellsMarks(cells, i, t, tag, s), Marks(CellText(cells[i]), around));
  }

  // ---- doTableStuff

  lemma TablesNext(lines: seq<string>, k: nat, t: Tables, rules: Rules, next: Tables)
    requires k < |lines| && next == NextTables(t, lines[k], rules)
    ensures TablesAfter(lines, k, t, rules) == TablesAfter(lines, k + 1, next, rules)
  {
  }

  lemma MarksNext(lines: seq<string>, k: nat, t: Tables, rules: Rules, next: Tables, s: Spots)
    requires k < |lines| && next == NextTables(t, lines[k], rules)
    ensures AllMarks(lines, k, t, rules, s)
            == LineMarks(t, lines[k], rules, s) + AllMarks(lines, k + 1, next, rules, NextSpots(t, lines[k], rules, s))
  {
  }

  class TableParser {
    var td_history: seq<bool>
    var last_tag_history: seq<Option<Tag>>
    var tr_history: seq<bool>
    var tr_attributes: seq<string>
    var has_opened_tr: seq<bool>
    var indent_level: nat
    var out: Tokens

    /** The five stacks are those of these tables. */
    ghost predicate Holds(t: Tables) reads this {
      && indent_level == t.indent
      && AreStacks(t.open, td_history, last_tag_history, tr_history, tr_attributes, has_opened_tr)
    }

    constructor ()
      ensures Holds(NO_TABLES) && Written(out, NO_TABLES) && out == []
    {
      td_history, last_tag_history, tr_history, tr_attributes, has_opened_tr := [], [], [], [], [];
      indent_level, out := 0, [];
      NothingIsWritten();
    }

    method Write(text: string, ghost t: Tables)
      requires Written(out, t)
      modifies this`out
      ensures Written(out, t)
      ensures SpotsOf(out) == SpotsOf(old(out))
      ensures MarksOf(out) == MarksOf(old(out)) + Marks(text, Around(Context(t), SpotsOf(out).begun))
    {
      TextIsWritten(out, t, text);
      MarksOfNext(out, Text(text));
      SpotsNext(out, Text(text));
      out := out + [Text(text)];
    }

    method StartTable(indent: nat, ghost t: Tables)
      requires Holds(t) && Written(out, t)
      modifies this
      ensures Holds(t.NextTable(indent)) && Written(out, t.NextTable(indent))
      ensures MarksOf(out) == MarksOf(old(out)) && SpotsOf(out) == SpotsOf(old(out)).Pushes(2 * indent + 1)
    {
      OpenPairsSpots(out, indent);
      SpotsNext(out + OpenPairs(indent), Open(Table));
      PairsHaveNoInk(out, indent);
      TagHasNoInk(out + OpenPairs(indent), Open(Table));
      TableNests(out, t, indent);
      TableIsInRows(out, t, indent);
      out := out + OpenPairs(indent) + [Open(Table)];
      PushAll(indent, t);
    }

    method PushAll(indent: nat, ghost t: Tables)
      requires Holds(t)
      modifies this`td_history, this`last_tag_history, this`tr_history, this`tr_attributes, this`has_opened_tr,
               this`indent_level
      ensures Holds(t.NextTable(indent))
    {
      ghost var indented := t.WithPairs(t.Within() + indent);
      StacksWithPairs(t, t.Within() + indent, td_history, last_tag_history, tr_history, tr_attributes, has_opened_tr);
      StacksWithMore(indented.open, td_history, last_tag_history, tr_history, tr_attributes, has_opened_tr,
                     OpenTable(indent, None, false, false, false, 0, 0), "");
      indent_level := indent;
      td_history := td_history + [false];
      last_tag_history := last_tag_history + [None];
      tr_history := tr_history + [false];
      tr_attributes := tr_attributes + [""];
      has_opened_tr := has_opened_tr + [false];
    }

    method PopAll(ghost t: Tables)
      requires Holds(t) && t.open != []
      modifies this`td_history, this`last_tag_history, this`tr_history, this`tr_attributes, this`has_opened_tr
      ensures forall closes :: Holds(t.Less(closes))
    {
      StacksWithLess(t.open, td_history, last_tag_history, tr_history, tr_attributes, has_opened_tr);
      td_history, last_tag_history := Popped(td_history), Popped(last_tag_history);
      tr_history, tr_attributes := Popped(tr_history), Popped(tr_attributes);
      has_opened_tr := Popped(has_opened_tr);
    }

    /** What the stacks say of the innermost table. */
    lemma TopIs(t: Tables)
      requires Holds(t) && t.open != []
      ensures td_history != [] && last_tag_history != [] && tr_history != [] && tr_attributes != []
      ensures has_opened_tr != []
      ensures IsEntry(Top(t.open), Top(td_history), Top(last_tag_history), Top(tr_history), Top(has_opened_tr))
    {
      StacksWithLess(t.open, td_history, last_tag_history, tr_history, tr_attributes, has_opened_tr);
    }

    /** A row ends what is open in the table, and counts as begun from then on. */
    method Row(attributes: string, ghost t: Tables)
      requires Holds(t) && Written(out, t) && t.open != []
      modifies this
      ensures Holds(t.NextRow()) && Written(out, t.NextRow())
      ensures MarksOf(out) == MarksOf(old(out)) && SpotsOf(out) == RowSpots(Top(t.open), SpotsOf(old(out)))
    {
      TopIs(t);
      RowWrittenSpots(out, Top(t.open));
      RowIsWritten(out, t);
      RowHasNoInk(out, Top(t.open));
      if Top(td_history) {
        out := CloseCell(out, Top(last_tag_history), false);
      }
      out := CloseRow(out, Top(tr_history), false);
      StacksWithRow(attributes, t);
    }

    method StacksWithRow(attributes: string, ghost t: Tables)
      requires Holds(t) && t.open != []
      modifies this`td_history, this`last_tag_history, this`tr_history, this`tr_attributes, this`has_opened_tr
      ensures Holds(t.NextRow())
    {
      TopIs(t);
      NextIsValid(Top(t.open), Td);
      StacksWithLess(t.open, td_history, last_tag_history, tr_history, tr_attributes, has_opened_tr);
      StacksWithMore(Popped(t.open), Popped(td_history), Popped(last_tag_history), Popped(tr_history),
                     Popped(tr_attributes), Popped(has_opened_tr), Top(t.open).NextRow(), attributes);
      tr_attributes := Popped(tr_attributes) + [attributes];
      has_opened_tr := Popped(has_opened_tr) + [true];
      tr_history := Popped(tr_history) + [false];
      td_history := Popped(td_history) + [false];
      last_tag_history := Popped(last_tag_history) + [None];
    }

    /** The tags of one cell, header or caption. */
    method WriteCell(first: char, cell: string, ghost t: Tables)
      requires Holds(t) && t.open != []
      modifies this`out
      ensures out == AddCell(old(out), Top(t.open).cell, Top(t.open).tr, CellTag(first), CellText(cell))
    {
      TopIs(t);
      assert CellTag(first) == Caption <==> first == '+';
      if Top(td_history) {
        out := CloseCell(out, Top(last_tag_history), true);
      }
      if first != '+' {
        out := OpenRow(out, Top(tr_history));
      }
      out := out + [Open(CellTag(first))] + [Text(CellText(cell))];
    }

    method StacksWithCell(first: char, ghost t: Tables)
      requires Holds(t) && t.open != []
      modifies this`td_history, this`last_tag_history, this`tr_history, this`tr_attributes, this`has_opened_tr
      ensures Holds(t.NextCell(CellTag(first)))
    {
      TopIs(t);
      NextIsValid(Top(t.open), CellTag(first));
      PopAndPush(tr_history);
      PopAndPush(tr_attributes);
      PopAndPush(has_opened_tr);
      ghost var attribute := if first != '+' then "" else Top(tr_attributes);
      StacksWithLess(t.open, td_history, last_tag_history, tr_history, tr_attributes, has_opened_tr);
      StacksWithMore(Popped(t.open), Popped(td_history), Popped(last_tag_history), Popped(tr_history),
                     Popped(tr_attributes), Popped(has_opened_tr), Top(t.open).NextCell(CellTag(first)), attribute);
      if first != '+' {
        tr_history := Popped(tr_history) + [true];
        tr_attributes := Popped(tr_attributes) + [""];
        has_opened_tr := Popped(has_opened_tr) + [true];
      }
      last_tag_history := Popped(last_tag_history) + [Some(CellTag(first))];
      td_history := Popped(td_history) + [true];
    }

    method Cell(first: char, cell: string, ghost t: Tables)
      requires Holds(t) && Written(out, t) && t.open != []
      modifies this
      ensures Holds(t.NextCell(CellTag(first))) && Written(out, t.NextCell(CellTag(first)))
      ensures SpotsOf(out) == CellSpots(Top(t.open), CellTag(first), SpotsOf(old(out)))
      ensures MarksOf(out)
              == MarksOf(old(out))
                 + Marks(CellText(cell), Around(Context(t.NextCell(CellTag(first))), SpotsOf(out).begun))
    {
      TopIs(t);
      AddCellSpots(out, Top(t.open), CellTag(first), CellText(cell));
      AddCellMarks(out, Top(t.open).cell, Top(t.open).tr, CellTag(first), CellText(cell));
      CellIsWritten(out, t, CellTag(first), CellText(cell));
      WriteCell(first, cell, t);
      StacksWithCell(first, t);
    }

    /** All cells of a line. */
    method AddCells(first: char, rest: string, rules: Rules, ghost t: Tables)
      requires Holds(t) && Written(out, t) && t.open != []
      modifies this
      ensures var next := WithCells(t, CellTag(first), |CellsOf(first, rest, rules)|);
              Holds(next) && Written(out, next)
      ensures var (cells, tag) := (CellsOf(first, rest, rules), CellTag(first));
              && MarksOf(out) == MarksOf(old(out)) + CellsMarks(cells, |cells|, t, tag, SpotsOf(old(out)))
              && SpotsOf(out) == CellsSpots(t, tag, |cells|, SpotsOf(old(out)))
    {
      var line := rest;
      if first == '!' {
        line := BarsFor(line);
      }
      AddEach(first, rules.explode(line), t);
    }

    method AddEach(first: char, cells: seq<string>, ghost t: Tables)
      requires Holds(t) && Written(out, t) && t.open != []
      modifies this
      ensures var next := WithCells(t, CellTag(first), |cells|); Holds(next) && Written(out, next)
      ensures MarksOf(out) == MarksOf(old(out)) + CellsMarks(cells, |cells|, t, CellTag(first), SpotsOf(old(out)))
      ensures SpotsOf(out) == CellsSpots(t, CellTag(first), |cells|, SpotsOf(old(out)))
    {
      ghost var (tag, was, s) := (CellTag(first), MarksOf(out), SpotsOf(out));
      var i := 0;
      assert was + [] == was;
      while i < |cells|
        invariant i <= |cells|
        invariant MarksOf(out) == was + CellsMarks(cells, i, t, tag, s) && SpotsOf(out) == CellsSpots(t, tag, i, s)
        invariant Holds(WithCells(t, tag, i)) && Written(out, WithCells(t, tag, i))
      {
        WithOneMore(t, tag, i);
        CellsMarksNext(was, cells, i, t, tag, s, Around(Context(t.NextCell(tag)), CellsSpots(t, tag, i + 1, s).begun));
        Cell(first, cells[i], WithCells(t, tag, i));
        i := i + 1;
      }
    }

    /** The end of a table, which closes as many indentations as the last table that began has. */
    method EndTable(rest: string, ghost t: Tables)
      requires Holds(t) && Written(out, t) && t.open != []
      modifies this
      ensures var next := t.Less(Top(t.open).Closes()).Outdented(); Holds(next) && Written(out, next)
      ensures var s := EndSpots(Top(t.open), SpotsOf(old(out)));
              && SpotsOf(out) == s.Pops(2 * t.indent)
              && MarksOf(out) == MarksOf(old(out)) + Marks(rest, Around(Context(t.Less(Top(t.open).Closes())), s.begun))
    {
      ghost var less := t.Less(Top(t.open).Closes());
      TopIs(t);
      var cell := if Top(td_history) then Top(last_tag_history) else None;
      TableIsClosed(out, t, cell, false);
      CloseTableHasNoInk(out, cell, Top(tr_history), Top(has_opened_tr), false);
      CloseTableSpots(out, Top(t.open), cell, false);
      out := CloseTable(out, cell, Top(tr_history), Top(has_opened_tr), false);
      PopAll(t);
      Write(rest, less);
      Outdent(less);
    }

    method Outdent(ghost t: Tables)
      requires Holds(t) && Written(out, t)
      modifies this`out
      ensures Holds(t.Outdented()) && Written(out, t.Outdented())
      ensures MarksOf(out) == MarksOf(old(out)) && SpotsOf(out) == SpotsOf(old(out)).Pops(2 * t.indent)
    {
      ClosePairsSpots(out, indent_level);
      if t.open != [] {
        TopIs(t);
      }
      OutdentIsWritten(out, t);
      PairsHaveNoInk(out, indent_level);
      StacksWithPairs(t, if t.indent <= t.Within() then t.Within() - t.indent else 0, td_history, last_tag_history,
                      tr_history, tr_attributes, has_opened_tr);
      out := out + ClosePairs(indent_level);
    }

    /** One line. */
    method DoLine(outLine: string, rules: Rules, ghost t: Tables)
      requires Holds(t) && Written(out, t)
      modifies this
      ensures Holds(NextTables(t, outLine, rules)) && Written(out, NextTables(t, outLine, rules))
      ensures MarksOf(out) == MarksOf(old(out)) + LineMarks(t, outLine, rules, SpotsOf(old(out)))
      ensures SpotsOf(out) == NextSpots(t, outLine, rules, SpotsOf(old(out)))
    {
      var line := rules.trim(outLine);
      var kind := KindOf(line, td_history != []);
      ghost var next := NextTables(t, outLine, rules);
      if kind.Blank? || kind.Other? {
        MarksOfLine(outLine, Around(Context(t), SpotsOf(out).begun));
        Write(outLine + "\n", t);
      } else {
        if kind.Start? {
          StartTable(kind.indent, t);
        } else if kind.End? {
          EndTable(line[2..], t);
        } else if kind.Row? {
          Row(rules.attributes(line), t);
        } else {
          AddCells(kind.first, kind.rest, rules, t);
        }
        EndLine(next);
      }
    }

    method EndLine(ghost t: Tables)
      requires Written(out, t)
      modifies this`out
      ensures Written(out, t)
      ensures MarksOf(out) == MarksOf(old(out)) && SpotsOf(out) == SpotsOf(old(out))
    {
      SpotsNext(out, Text("\n"));
      MarksOfTags(out, [Text("\n")]);
      TextIsWritten(out, t, "\n");
      out := out + [Text("\n")];
    }

    /** Closes a table that the text leaves open: whatever is open in it as if it were a plain cell. */
    method CloseOne(ghost t: Tables)
      requires Holds(t) && Written(out, t) && t.open != []
      modifies this
      ensures Holds(t.Less(Top(t.open).IsPlain())) && Written(out, t.Less(Top(t.open).IsPlain()))
      ensures MarksOf(out) == MarksOf(old(out))
    {
      TopIs(t);
      var cell := if Top(td_history) then Some(Td) else None;
      ghost var less := t.Less(Top(t.open).IsPlain());
      assert Top(t.open).IsPlain() <==> Top(t.open).Closes() && cell == Top(t.open).cell;
      TableIsClosed(out, t, cell, true);
      CloseTableHasNoInk(out, cell, Top(tr_history), Top(has_opened_tr), true);
      out := CloseTable(out, cell, Top(tr_history), Top(has_opened_tr), true);
      PopAll(t);
      EndLine(less);
    }

    /** Closes all that the text leaves open. */
    method CloseAll(ghost t: Tables)
      requires Holds(t) && Written(out, t)
      modifies this
      ensures |td_history| == |last_tag_history| == |tr_history| == |tr_attributes| == |has_opened_tr| == 0
      ensures WellNested(out) <==> EndsPlain(t)
      ensures RowsOf(out) == Rows([], true, EndsWithRows(t))
      ensures MarksOf(out) == MarksOf(old(out))
    {
      ghost var now := t;
      while td_history != []
        invariant Holds(now) && Written(out, now)
        invariant EndsPlain(now) <==> EndsPlain(t)
        invariant EndsWithRows(now) <==> EndsWithRows(t)
        invariant now.indent == t.indent
        invariant MarksOf(out) == MarksOf(old(out))
        decreases |now.open|
      {
        EndsAsLess(now);
        CloseOne(now);
        now := now.Less(Top(now.open).IsPlain());
      }
      NoneLeft(out, now);
    }

    /**
     All nesting is as counted: the output is well nested if and only if no line closes in a wrong place and what is
     left open at the end are plain cells without indentation. Cells always lie in rows, and every table has a row
     unless one was begun and never opened.
     */
    method DoTableStuff(lines: seq<string>, rules: Rules)
      requires Holds(NO_TABLES) && Written(out, NO_TABLES)
      modifies this
      ensures |td_history| == |last_tag_history| == |tr_history| == |tr_attributes| == |has_opened_tr| == 0
      ensures WellNested(out) <==> EndsPlain(TablesAfter(lines, 0, NO_TABLES, rules))
      ensures RowsOf(out) == Rows([], true, EndsWithRows(TablesAfter(lines, 0, NO_TABLES, rules)))
      ensures MarksOf(out) == MarksOf(old(out)) + AllMarks(lines, 0, NO_TABLES, rules, SpotsOf(old(out)))
    {
      ghost var t := NO_TABLES;
      ghost var final := TablesAfter(lines, 0, t, rules);
      ghost var marks := MarksOf(out) + AllMarks(lines, 0, t, rules, SpotsOf(out));
      var k := 0;
      while k < |lines|
        invariant k <= |lines| && Holds(t) && Written(out, t) && final == TablesAfter(lines, k, t, rules)
        invariant MarksOf(out) + AllMarks(lines, k, t, rules, SpotsOf(out)) == marks
      {
        ghost var next := NextTables(t, lines[k], rules);
        TablesNext(lines, k, t, rules, next);
        MarksNext(lines, k, t, rules, next, SpotsOf(out));
        InkGoesOn(MarksOf(out), LineMarks(t, lines[k], rules, SpotsOf(out)),
                  AllMarks(lines, k + 1, next, rules, NextSpots(t, lines[k], rules, SpotsOf(out))));
        DoLine(lines[k], rules, t);
        t := next;
        k := k + 1;
      }
      CloseAll(t);
    }
  }

  lemma EndsAsLess(t: Tables)
    requires t.open != []
    ensures EndsPlain(t.Less(Top(t.open).IsPlain())) <==> EndsPlain(t)
    ensures EndsWithRows(t.Less(Top(t.open).IsPlain())) <==> EndsWithRows(t)
  {
    var less := t.Less(Top(t.open).IsPlain());
    var n := |t.open| - 1;
    assert forall i :: 0 <= i < n ==> less.open[i] == t.open[i];
  }

  lemma NoneLeft(output: Tokens, t: Tables)
    requires Written(output, t) && t.open == []
    ensures WellNested(output) <==> EndsPlain(t)
    ensures RowsOf(output) == Rows([], true, EndsWithRows(t))
  {
    assert AllTags(t) == Pairs(t.outer);
    assert |Pairs(t.outer)| > 0 <==> t.outer > 0;
  }

}
