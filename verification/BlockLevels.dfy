/**
 doBlockLevels: lists from the characters at the start of lines, paragraphs and preformatted text from the rest.
 */
module BlockLevels {
  import opened ListPrefix
  import opened Wrappers
  import opened Markup

  datatype Tag = Ul | Ol | Li | Dl | Dd | Dt | Para | Pre | Br

  /** What the regular expressions and the colon scanner find; the results hold for any of them. */
  datatype Rules = Rules(
    opensPre: string -> bool,
    closesPre: string -> bool,
    opensBlock: string -> bool,
    closesBlock: string -> bool,
    split: string -> Option<(string, string)>)

  /** How many list characters a line starts with. */
  function PrefixLength(line: string): (n: nat)
    ensures n <= |line| && (forall i :: 0 <= i < n ==> IsListChar(line[i])) && (n < |line| ==> !IsListChar(line[n]))
  {
    if line == "" || !IsListChar(line[0]) then 0 else 1 + PrefixLength(line[1..])
  }

  function Folded(prefix: string): (r: string)
    ensures |r| == |prefix|
    ensures forall i :: 0 <= i < |r| ==> r[i] == if prefix[i] == ';' then ':' else prefix[i]
  {
    seq(|prefix|, i requires 0 <= i < |prefix| => if prefix[i] == ';' then ':' else prefix[i])
  }

  // ---- the lists that are open

  /** What the lists depend on: the last prefix, whether the first of it is open as a term, and mInPre. */
  datatype Lists = Lists(prefix: string, term: bool, inPre: bool)

  function ListTag(ch: char): Tag {
    if ch == '*' then Ul else if ch == '#' then Ol else Dl
  }

  function ItemTag(ch: char, term: bool): Tag {
    if ch == '*' || ch == '#' then Li else if term then Dt else Dd
  }

  /** The tags of the first `n` characters of a prefix; the first of them may be a term. */
  function Tags(prefix: string, n: nat, term: bool): (tags: seq<Tag>)
    requires n <= |prefix|
    ensures |tags| == 2 * n
  {
    if n == 0 then [] else Tags(prefix, n - 1, term) + [ListTag(prefix[n - 1]), ItemTag(prefix[n - 1], term && n == 1)]
  }

  lemma {:induction false} TagsSeePrefix(a: string, b: string, n: nat, term: bool)
    requires n <= |a| && n <= |b| && forall i :: 0 <= i < n ==> a[i] == b[i]
    ensures Tags(a, n, term) == Tags(b, n, term)
  {
    if n > 0 {
      TagsSeePrefix(a, b, n - 1, term);
    }
  }

  /** The prefix of a line is one term, or has no terms in it. */
  predicate Simple(line: string) {
    var n := PrefixLength(line);
    (n == 1 && line[0] == ';') || forall i :: 0 <= i < n ==> line[i] != ';'
  }

  predicate HasInner(prefix: string) { exists i :: 0 < i < |prefix| && prefix[i] == ':' }

  /** Is the text a term with its definition behind it. */
  predicate Splits(prefix: string, t: string, rules: Rules) { prefix == ";" && rules.split(t).Some? }

  /** What is left of a text behind a list character, which a semicolon may split. */
  function BodyOf(prefix: string, t: string, rules: Rules): string {
    if Splits(prefix, t, rules) then rules.split(t).value.1 else t
  }

  /** The term in front of it, in its own item. */
  function TermMarks(prefix: string, t: string, rules: Rules, item: Spots): seq<Mark<Tag>> {
    if Splits(prefix, t, rules) then Marks(rules.split(t).value.0, Around(Some([Dl, Dt]), item.begun)) else []
  }

  /** What is read of a text behind a list character, which a semicolon may split. */
  function SplitInk(ch: char, t: string, rules: Rules): string {
    var found := rules.split(t);
    if ch == ';' && found.Some? then Ink(found.value.0) + Ink(found.value.1) else Ink(t)
  }

  function ItsInk(prefix: string, t: string, rules: Rules): string {
    if prefix == ";" then SplitInk(';', t, rules) else Ink(t)
  }

  /** A line that opens preformatted text opens a block. */
  ghost predicate Consistent(rules: Rules) {
    forall line :: rules.opensPre(line) ==> rules.opensBlock(line[PrefixLength(line)..])
  }

  /** The prefix of a line, as far as it is looked at. */
  function PrefixOf(l: Lists, line: string): string {
    if l.inPre then "" else line[..PrefixLength(line)]
  }

  function RestOf(l: Lists, line: string): string {
    if l.inPre then line else line[PrefixLength(line)..]
  }

  /** Opens the line a list inside of one whose first item is a term. */
  predicate Overlaps(l: Lists, line: string) {
    var prefix := PrefixOf(l, line);
    l.term && prefix != "" && prefix[0] == ':' && HasInner(prefix)
  }

  predicate Opens(l: Lists, prefix: string) {
    Folded(prefix) != l.prefix && |prefix| > Common(prefix, l.prefix)
  }

  /** Is the first item of a prefix open as a term. */
  predicate TermAfter(l: Lists, prefix: string, rest: string, rules: Rules) {
    if prefix == ";" then rules.split(rest).None? else l.term && |prefix| > 1 && prefix[0] == ':'
  }

  /** The lists behind a line. */
  function NextLists(l: Lists, line: string, rules: Rules): Lists {
    ListsBehind(l, PrefixOf(l, line), RestOf(l, line), line, rules)
  }

  function ListsBehind(l: Lists, prefix: string, rest: string, line: string, rules: Rules): Lists {
    var inPre := (l.inPre || rules.opensPre(line)) && !Opens(l, prefix);
    Lists(Folded(prefix), TermAfter(l, prefix, rest, rules), StaysInPre(rest, line, prefix != "", inPre, rules))
  }

  /** Behind a line, of which `t` is what its lists have left. */
  predicate StaysInPre(t: string, line: string, inList: bool, inPre: bool, rules: Rules) {
    (if !inList && IsBlock(t, rules) then rules.opensPre(line) else inPre) && !rules.closesPre(line)
  }

  /** What is read of a line: all but its prefix, and the colon that splits a term. */
  function LineInk(l: Lists, line: string, rules: Rules): string {
    ItsInk(PrefixOf(l, line), RestOf(l, line), rules)
  }

  // ---- paragraphs, line by line

  datatype Section = NoSection | InPara | InPre

  /** What is owed to a blank line: nothing, a paragraph, or the end of one and the next. */
  datatype Pending = Nothing | NewPara | NextPara

  /** The open section, what is owed, and whether a block has begun that has not ended. */
  datatype Flow = Flow(section: Section, pending: Pending, inBlock: bool)

  predicate IsBlank(t: string) { forall i :: 0 <= i < |t| ==> IsWhite(t[i]) }

  predicate IsBlock(t: string, rules: Rules) { rules.opensBlock(t) || rules.closesBlock(t) }

  predicate IsPreLine(t: string, section: Section) {
    t != "" && t[0] == ' ' && (section == InPre || !IsBlank(t))
  }

  /** A blank line pays what is owed, or owes a paragraph from now on. */
  function BlankFlow(flow: Flow): Flow {
    if flow.pending != Nothing then Flow(InPara, Nothing, flow.inBlock)
    else if flow.section == InPara then flow.(pending := NextPara)
    else Flow(NoSection, NewPara, flow.inBlock)
  }

  /** A line that is in no list; the first test is for blocks, and inside of them nothing changes. */
  function ParaFlow(t: string, inPre: bool, flow: Flow, rules: Rules): Flow {
    if IsBlock(t, rules) then Flow(NoSection, Nothing, !rules.closesBlock(t))
    else if flow.inBlock || inPre then flow
    else if IsPreLine(t, flow.section) then if flow.section == InPre then flow else Flow(InPre, Nothing, false)
    else if IsBlank(t) then BlankFlow(flow)
    else Flow(InPara, Nothing, false)
  }

  /** The flow behind a line. */
  function NextFlow(l: Lists, flow: Flow, line: string, rules: Rules): Flow {
    FlowBehind(l, flow, PrefixOf(l, line), RestOf(l, line), l.inPre || rules.opensPre(line), rules)
  }

  function FlowBehind(l: Lists, flow: Flow, prefix: string, rest: string, inPre: bool, rules: Rules): Flow {
    if prefix != "" then Flow(if Opens(l, prefix) then NoSection else flow.section, Nothing, flow.inBlock)
    else ParaFlow(rest, inPre, if l.prefix == "" then flow else flow.(pending := Nothing), rules)
  }

  // ---- which items, and which sections

  function OutOf(section: Section, s: Spots): Spots { if section == NoSection then s else s.Pop() }

  /** Lists that are closed, and the next item of the innermost one that is shared if the line ends in it. */
  function SharedSpots(l: Lists, prefix: string, s: Spots): Spots {
    var m := Common(prefix, l.prefix);
    var closed := s.Pops(2 * (|l.prefix| - m));
    if 0 < m == |prefix| then closed.Pop().Push() else closed
  }

  /** Behind the lists of a line: the next item of the same lists, or of one that is shared, or new lists. */
  function ItemSpots(l: Lists, section: Section, prefix: string, s: Spots): Spots {
    if prefix != "" && Folded(prefix) == l.prefix then s.Pop().Push()
    else OpenSpots(prefix, Common(prefix, l.prefix), section, SharedSpots(l, prefix, s))
  }

  /** New lists and their items, behind the first `m`; they end the section. */
  function OpenSpots(prefix: string, m: nat, section: Section, s: Spots): Spots
    requires m <= |prefix|
  {
    if m < |prefix| then OutOf(section, s).Pushes(2 * (|prefix| - m)) else s
  }

  /** The definition of a term is an item of its own. */
  function SplitSpots(splits: bool, item: Spots): Spots { if splits then item.Pop().Push() else item }

  function OwedSpots(pending: Pending, s: Spots): Spots {
    match pending
    case Nothing => s
    case NewPara => s.Push()
    case NextPara => s.Pop().Push()
  }

  function BlankSpots(flow: Flow, s: Spots): Spots {
    if flow.pending != Nothing then OwedSpots(flow.pending, s).Push().Pop()
    else if flow.section == InPara then s
    else OutOf(flow.section, s)
  }

  function TextSpots(flow: Flow, s: Spots): Spots {
    if flow.pending != Nothing then OwedSpots(flow.pending, s)
    else if flow.section == InPara then s
    else OutOf(flow.section, s).Push()
  }

  /** A line that is in no list. */
  function ParaSpots(t: string, inPre: bool, flow: Flow, rules: Rules, s: Spots): Spots {
    if IsBlock(t, rules) then OutOf(flow.section, s)
    else if flow.inBlock || inPre then s
    else if IsPreLine(t, flow.section) then if flow.section == InPre then s else OutOf(flow.section, s).Push()
    else if IsBlank(t) then BlankSpots(flow, s)
    else TextSpots(flow, s)
  }

  /** The tags open behind a line, told apart. */
  function NextSpots(l: Lists, flow: Flow, line: string, rules: Rules, s: Spots): Spots {
    SpotsBehind(l, flow, PrefixOf(l, line), RestOf(l, line), l.inPre || rules.opensPre(line), rules, s)
  }

  function SpotsBehind(l: Lists, flow: Flow, prefix: string, rest: string, inPre: bool, rules: Rules, s: Spots): Spots
  {
    var behind := SplitSpots(Splits(prefix, rest, rules), ItemSpots(l, flow.section, prefix, s));
    if prefix != "" then behind
    else ParaSpots(rest, inPre, if l.prefix == "" then flow else flow.(pending := Nothing), rules, behind)
  }

  function SectionTags(section: Section): seq<Tag> {
    match section
    case NoSection => []
    case InPara => [Para]
    case InPre => [Pre]
  }

  /** All that is open: the lists, or the section. */
  function AllOpen(l: Lists, section: Section): seq<Tag> { Tags(l.prefix, |l.prefix|, l.term) + SectionTags(section) }

  /** What is read of a line, and the tags around it: a term in its item, and the rest in what is open behind it. */
  function LineMarks(l: Lists, flow: Flow, line: string, rules: Rules, s: Spots): seq<Mark<Tag>> {
    var (prefix, t) := (PrefixOf(l, line), RestOf(l, line));
    TermMarks(prefix, t, rules, ItemSpots(l, flow.section, prefix, s))
    + Marks(BodyOf(prefix, t, rules), AroundBody(l, flow, line, rules, s))
  }

  function AroundBody(l: Lists, flow: Flow, line: string, rules: Rules, s: Spots): Around<Tag> {
    Around(Some(AllOpen(NextLists(l, line, rules), NextFlow(l, flow, line, rules).section)),
           NextSpots(l, flow, line, rules, s).begun)
  }

  // ---- all lines

  /** What is known between two lines: the lists, the section and what is owed to it, and which tags are open. */
  datatype State = State(l: Lists, flow: Flow, spots: Spots)

  function FirstState(inPre: bool): State {
    State(Lists("", false, inPre), Flow(NoSection, Nothing, false), NO_SPOTS)
  }

  function NextState(s: State, line: string, rules: Rules): State {
    State(NextLists(s.l, line, rules), NextFlow(s.l, s.flow, line, rules), NextSpots(s.l, s.flow, line, rules, s.spots))
  }

  /** In front of a line: the state; of all lines so far, whether no term has lists in it, none overlaps; their text. */
  datatype Plan = Plan(s: State, terms: bool, clean: bool, ink: string, marks: seq<Mark<Tag>>)

  function FirstPlan(first: State): Plan { Plan(first, true, true, "", []) }

  function NextPlan(p: Plan, line: string, rules: Rules): Plan {
    Plan(NextState(p.s, line, rules), p.terms && MayFollow(p.s.l, line), p.clean && !Overlaps(p.s.l, line),
         p.ink + LineInk(p.s.l, line, rules), p.marks + LineMarks(p.s.l, p.s.flow, line, rules, p.s.spots))
  }

  /** One line after the other, up to the n-th. */
  function Fold(step: (Plan, string) -> Plan, lines: seq<string>, start: nat, n: nat, first: Plan): Plan
    requires start <= n <= |lines|
  {
    if n == start then first else step(Fold(step, lines, start, n - 1, first), lines[n - 1])
  }

  /** What all lines from `start` on come to. */
  function PlanOf(lines: seq<string>, start: nat, first: State, rules: Rules): Plan
    requires start <= |lines|
  {
    Fold((p, line) => NextPlan(p, line, rules), lines, start, |lines|, FirstPlan(first))
  }

  /** No line opens a definition list inside one whose first item is still a term. */
  predicate Clean(lines: seq<string>, start: nat, first: State, rules: Rules)
    requires start <= |lines|
  {
    PlanOf(lines, start, first, rules).clean
  }

  /** A term is the only list of its line, where lists are looked for. */
  predicate Terms(lines: seq<string>, start: nat, first: State, rules: Rules)
    requires start <= |lines|
  {
    PlanOf(lines, start, first, rules).terms
  }

  lemma {:induction false} FoldKeeps(step: (Plan, string) -> Plan, lines: seq<string>, start: nat, n: nat, first: Plan,
                                     good: Plan -> bool)
    requires start <= n <= |lines| && good(first)
    requires forall p, k :: good(p) && 0 <= k < |lines| ==> good(step(p, lines[k]))
    ensures good(Fold(step, lines, start, n, first))
  {
    if n > start {
      FoldKeeps(step, lines, start, n - 1, first, good);
    }
  }

  lemma FoldTwo(step: (Plan, string) -> Plan, lines: seq<string>, first: Plan)
    requires |lines| == 2
    ensures Fold(step, lines, 0, 2, first) == step(step(first, lines[0]), lines[1])
  {
    assert Fold(step, lines, 0, 1, first) == step(Fold(step, lines, 0, 0, first), lines[0]);
  }

  lemma {:induction false} PushesEnd(s: Spots, n: nat)
    requires n > 0
    ensures var r := s.Pushes(n);
            r.opens == s.opens + n && r.begun != [] && r.begun[|r.begun| - 1] == s.opens + n - 1
  {
    if n > 1 {
      PushesEnd(s, n - 1);
    }
  }

  lemma {:induction false} PushesAdd(s: Spots, a: nat, b: nat)
    ensures s.Pushes(a).Pushes(b) == s.Pushes(a + b)
  {
    if b > 0 {
      PushesAdd(s, a, b - 1);
    }
  }

  lemma PopsTwo(s: Spots, n: nat)
    ensures s.Pops(n + 2) == s.Pops(n).Pop().Pop()
  {
    assert s.Pops(n + 1) == s.Pops(n).Pop();
  }

  lemma {:induction false} PopsKeepOpens(s: Spots, n: nat)
    ensures s.Pops(n).opens == s.opens
  {
    if n > 0 {
      PopsKeepOpens(s, n - 1);
    }
  }

  predicate EndsNew(s: Spots, r: Spots) { r.begun != [] && r.begun[|r.begun| - 1] >= s.opens && r.opens > s.opens }

  /** The innermost item around the text of a list line, and around its term, is one that the line has opened. */
  lemma LineHasItsItem(l: Lists, flow: Flow, line: string, rules: Rules, s: Spots)
    requires PrefixOf(l, line) != ""
    ensures EndsNew(s, NextSpots(l, flow, line, rules, s))
    ensures EndsNew(s, ItemSpots(l, flow.section, PrefixOf(l, line), s))
  {
    var prefix := PrefixOf(l, line);
    var m := Common(prefix, l.prefix);
    var shared := SharedSpots(l, prefix, s);
    PopsKeepOpens(s, 2 * (|l.prefix| - m));
    if !(prefix != "" && Folded(prefix) == l.prefix) && m < |prefix| {
      PushesEnd(OutOf(flow.section, shared), 2 * (|prefix| - m));
    }
  }

  /** Text outside of lists and blocks stands in a paragraph, or is preformatted if it is indented. */
  lemma TextStandsInSection(l: Lists, flow: Flow, line: string, rules: Rules)
    requires PrefixOf(l, line) == "" && !IsBlock(RestOf(l, line), rules) && !flow.inBlock
    requires !l.inPre && !rules.opensPre(line) && !IsBlank(RestOf(l, line))
    ensures var (next, section) := (NextLists(l, line, rules), NextFlow(l, flow, line, rules).section);
            AllOpen(next, section) == if RestOf(l, line)[0] == ' ' then [Pre] else [Para]
  {
    assert Tags("", 0, NextLists(l, line, rules).term) == [];
  }

  /** The text of a line in lists stands in the item of its last list character, and in no section. */
  lemma TextStandsInItem(l: Lists, flow: Flow, line: string, rules: Rules)
    requires PrefixOf(l, line) != "" && (l.prefix != "" ==> flow.section == NoSection)
    ensures var (prefix, next) := (PrefixOf(l, line), NextLists(l, line, rules));
            var open := AllOpen(next, NextFlow(l, flow, line, rules).section);
            && NextFlow(l, flow, line, rules).section == NoSection
            && |open| == 2 * |prefix| && open == Tags(prefix, |prefix|, next.term)
            && open[|open| - 1] == ItemTag(prefix[|prefix| - 1], next.term && |prefix| == 1)
  {
    var (prefix, next) := (PrefixOf(l, line), NextLists(l, line, rules));
    TagsOfFolded(prefix, |prefix|, next.term);
    assert Tags(prefix, |prefix|, next.term) + SectionTags(NoSection) == Tags(prefix, |prefix|, next.term);
  }

  /** Between two lines of text in paragraphs, a blank one makes the second begin a paragraph of its own. */
  lemma BlankLineSeparates(flow: Flow)
    requires flow.section == InPara && flow.pending == Nothing
    ensures BlankFlow(flow) == flow.(pending := NextPara)
    ensures TextOpens(BlankFlow(flow)) == [Close(Para), Open(Para)] && TextOpens(flow) == []
  {
  }

  predicate MayFollow(l: Lists, line: string) { l.inPre || Simple(line) }

  lemma NoTermFollows(l: Lists, line: string, rules: Rules)
    requires !l.term && PrefixHasNoTerm(line)
    ensures !NextLists(l, line, rules).term && !Overlaps(l, line) && MayFollow(l, line)
  {
  }

  predicate HasNoTerm(p: Plan) { !p.s.l.term && p.clean && p.terms }

  lemma NextHasNoTerm(p: Plan, line: string, rules: Rules)
    requires HasNoTerm(p) && PrefixHasNoTerm(line)
    ensures HasNoTerm(NextPlan(p, line, rules))
  {
    NoTermFollows(p.s.l, line, rules);
  }

  /** Without terms there is nothing to overlap. */
  lemma CleanWithoutTerms(lines: seq<string>, start: nat, first: State, rules: Rules)
    requires start <= |lines| && !first.l.term && forall i :: 0 <= i < |lines| ==> PrefixHasNoTerm(lines[i])
    ensures Clean(lines, start, first, rules) && Terms(lines, start, first, rules)
  {
    forall p: Plan, k | HasNoTerm(p) && 0 <= k < |lines|
      ensures HasNoTerm(NextPlan(p, lines[k], rules))
    {
      NextHasNoTerm(p, lines[k], rules);
    }
    FoldKeeps((p, line) => NextPlan(p, line, rules), lines, start, |lines|, FirstPlan(first), HasNoTerm);
  }

  predicate PrefixHasNoTerm(line: string) { forall i :: 0 <= i < PrefixLength(line) ==> line[i] != ';' }

  /** Two lines that do overlap: a term, and then a definition two deep. */
  lemma TermThenTwoDeep(rules: Rules, term: string, twoDeep: string)
    requires |term| > 1 && term[0] == ';' && !IsListChar(term[1]) && rules.split(term[1..]).None?
    requires |twoDeep| > 1 && twoDeep[0] == twoDeep[1] == ':' && PrefixLength(twoDeep) == 2
    requires !rules.opensPre(term)
    ensures Terms([term, twoDeep], 0, FirstState(false), rules)
    ensures !Clean([term, twoDeep], 0, FirstState(false), rules)
  {
    var (lines, first) := ([term, twoDeep], FirstState(false));
    var one := NextPlan(FirstPlan(first), term, rules);
    TermIsOpen(rules, term);
    FoldTwo((p, line) => NextPlan(p, line, rules), lines, FirstPlan(first));
    assert PrefixOf(one.s.l, twoDeep) == twoDeep[..2] && HasInner(twoDeep[..2]);
    assert Overlaps(one.s.l, twoDeep) && MayFollow(one.s.l, twoDeep);
  }

  lemma TermIsOpen(rules: Rules, term: string)
    requires |term| > 1 && term[0] == ';' && !IsListChar(term[1]) && rules.split(term[1..]).None?
    requires !rules.opensPre(term)
    ensures var p := NextPlan(FirstPlan(FirstState(false)), term, rules); p.terms && p.s.l.term && !p.s.l.inPre
  {
    var l := FirstState(false).l;
    assert PrefixLength(term) == 1 && PrefixOf(l, term) == ";";
  }

  // ---- tokens

  type Tokens = seq<Token<Tag>>

  /** Closing the innermost two tags. */
  lemma EmitCloseTwo(output: Tokens, open: seq<Tag>, item: Tag, list: Tag, innermost: Tag, text: string)
    requires Opened(output) == Some(open + [list, innermost])
    ensures Opened(output + [Close(item), Close(list), Text(text)]) == if item == innermost then Some(open) else None
  {
    var tokens := [Close(item), Close(list), Text(text)];
    var all := open + [list, innermost];
    EmitFew(output, tokens, all);
    assert all[..|all| - 1] == open + [list];
    assert (open + [list])[..|open|] == open;
  }

  /** The next item in the place of the innermost. */
  lemma EmitNext(output: Tokens, open: seq<Tag>, item: Tag, innermost: Tag, next: Tag)
    requires Opened(output) == Some(open + [innermost])
    ensures Opened(output + [Close(item), Open(next)]) == if item == innermost then Some(open + [next]) else None
  {
    var tokens := [Close(item), Open(next)];
    EmitFew(output, tokens, open + [innermost]);
    assert (open + [innermost])[..|open|] == open;
  }

  lemma EmitOpenTwo(output: Tokens, open: seq<Tag>, list: Tag, item: Tag)
    requires Opened(output) == Some(open)
    ensures Opened(output + [Open(list), Open(item)]) == Some(open + [list, item])
  {
    EmitFew(output, [Open(list), Open(item)], open);
    assert open + [list] + [item] == open + [list, item];
  }

  // ---- sections

  function Closing(section: Section): Tokens {
    match section
    case NoSection => []
    case InPara => [Close(Para), Text("\n")]
    case InPre => [Close(Pre), Text("\n")]
  }

  lemma EmitClosing(output: Tokens, open: seq<Tag>, section: Section)
    requires Opened(output) == Some(open + SectionTags(section))
    ensures Opened(output + Closing(section)) == Some(open)
  {
    if section == NoSection {
      assert output + [] == output && open + [] == open;
    } else {
      EmitFew(output, Closing(section), open + SectionTags(section));
      assert (open + SectionTags(section))[..|open|] == open;
    }
  }

  /** The tags are those of the open lists and of the section, of which there is only one of the two. */
  ghost predicate Sound(output: Tokens, l: Lists, section: Section, pending: Pending) {
    && Opened(output) == Some(Tags(l.prefix, |l.prefix|, l.term) + SectionTags(section))
    && (l.prefix != "" ==> section == NoSection && pending == Nothing)
    && (pending == NewPara ==> section == NoSection)
    && (pending == NextPara ==> section == InPara)
  }

  /** Only the first of a prefix can be a term, and the last prefix has no semicolon. */
  ghost predicate Proper(l: Lists) {
    && (l.term ==> l.prefix != "" && l.prefix[0] == ':')
    && forall i :: 0 <= i < |l.prefix| ==> IsListChar(l.prefix[i]) && l.prefix[i] != ';'
  }

  /** A definition list is open inside a term: it cannot be closed any more. */
  ghost predicate Doomed(l: Lists) { l.term && HasInner(l.prefix) }

  /** Is there a definition list at or behind the n-th character, but not the first. */
  predicate InnerFrom(prefix: string, n: nat) { exists i :: n <= i < |prefix| && 0 < i && prefix[i] == ':' }

  /** All lists behind the first `n` are closed; that fails at a definition list inside of a term. */
  ghost predicate ClosedTo(l: Lists, n: nat, output: Tokens, dt: bool) {
    && n <= |l.prefix|
    && if l.term && InnerFrom(l.prefix, n) then Broken(output)
       else Opened(output) == Some(Tags(l.prefix, n, l.term && n > 0)) && dt == (l.term && n > 0)
  }

  lemma ListCloses(l: Lists, n: nat, output: Tokens, dt: bool)
    requires Proper(l) && 0 < n <= |l.prefix| && ClosedTo(l, n, output, dt)
    ensures var ch := l.prefix[n - 1];
            ClosedTo(l, n - 1, output + [Close(ItemTag(ch, dt)), Close(ListTag(ch)), Text("\n")], dt && ch != ':')
  {
    var ch := l.prefix[n - 1];
    var tokens := [Close(ItemTag(ch, dt)), Close(ListTag(ch)), Text("\n")];
    if l.term && InnerFrom(l.prefix, n) {
      BrokenStays(output, output + tokens);
      assert InnerFrom(l.prefix, n - 1);
    } else {
      EmitCloseTwo(output, Tags(l.prefix, n - 1, l.term), ItemTag(ch, dt), ListTag(ch),
                   ItemTag(ch, l.term && n == 1), "\n");
      assert l.term ==> (InnerFrom(l.prefix, n - 1) <==> n > 1 && ch == ':');
      if n == 1 {
        assert Tags(l.prefix, 0, l.term) == Tags(l.prefix, 0, false);
      }
    }
  }

  predicate IsPrefix(prefix: string) {
    && (forall i :: 0 <= i < |prefix| ==> IsListChar(prefix[i]))
    && (prefix == ";" || forall i :: 0 <= i < |prefix| ==> prefix[i] != ';')
  }

  /** All is well, or the tags already overlap. */
  ghost predicate Goes(output: Tokens, dt: bool, l: Lists, section: Section, pending: Pending) {
    Sound(output, l, section, pending) && dt == l.term
  }

  lemma NextItemInSameList(output: Tokens, l: Lists, prefix: string, section: Section, pending: Pending)
    requires Proper(l) && Sound(output, l, section, pending) && prefix != "" && IsPrefix(prefix)
    requires Folded(prefix) == l.prefix
    ensures var (n, ch) := (|prefix|, prefix[|prefix| - 1]);
            var more := output + [Close(ItemTag(ch, l.term)), Open(ItemTag(ch, ch == ';'))];
            var term := if ch == ':' || ch == ';' then ch == ';' else l.term;
            if l.term && n > 1 && ch == ':' then Broken(more)
            else Opened(more) == Some(Tags(l.prefix, n, term))
  {
    var (n, ch) := (|prefix|, prefix[|prefix| - 1]);
    var term := if ch == ':' || ch == ';' then ch == ';' else l.term;
    var list := l.prefix[n - 1];
    var open := Tags(l.prefix, n - 1, l.term) + [ListTag(list)];
    assert Tags(l.prefix, n, l.term) + SectionTags(NoSection) == open + [ItemTag(list, l.term && n == 1)];
    EmitNext(output, open, ItemTag(ch, l.term), ItemTag(list, l.term && n == 1), ItemTag(ch, ch == ';'));
    if !(l.term && n > 1 && ch == ':') {
      if ch == ';' {
        assert prefix == ";";
      }
      assert Tags(l.prefix, n - 1, term) == Tags(l.prefix, n - 1, l.term);
      assert ItemTag(list, term && n == 1) == ItemTag(ch, ch == ';');
      assert Tags(l.prefix, n, term) == open + [ItemTag(list, term && n == 1)];
    }
  }

  /** A semicolon is a whole prefix, and what it opens is one term. */
  lemma OneTerm(prefix: string, term: bool)
    requires IsPrefix(prefix) && prefix != "" && prefix[|prefix| - 1] == ';'
    ensures prefix == ";" && Folded(prefix) == ":" && Tags(prefix, 0, false) == []
    ensures Tags(prefix, 1, term) + SectionTags(NoSection) == Tags(Folded(prefix), 1, term) == [Dl, ItemTag(';', term)]
  {
    assert Tags(prefix, 0, term) == [];
    TagsOfFolded(prefix, 1, term);
  }

  /** The lists that a line and the last one share, with the rest closed. */
  lemma SharedLists(l: Lists, prefix: string, m: nat, output: Tokens, dt: bool)
    requires Proper(l) && IsPrefix(prefix) && m == Common(prefix, l.prefix) && ClosedTo(l, m, output, dt)
    ensures Broken(output) || (Opened(output) == Some(Tags(prefix, m, l.term && m > 0)) && dt == (l.term && m > 0))
    ensures Broken(output) <==> l.term && InnerFrom(l.prefix, m)
  {
    TagsSeePrefix(l.prefix, prefix, m, l.term && m > 0);
  }

  /** The next item of the innermost list that is shared. */
  lemma NextItemInShared(output: Tokens, prefix: string, m: nat, dt: bool)
    requires 0 < m <= |prefix| && IsPrefix(prefix) && prefix[m - 1] != ';'
    requires Opened(output) == Some(Tags(prefix, m, dt))
    ensures var ch := prefix[m - 1];
            var more := output + [Close(ItemTag(ch, dt)), Open(ItemTag(ch, false))];
            if dt && m > 1 && ch == ':' then Broken(more)
            else Opened(more) == Some(Tags(prefix, m, dt && ch != ':'))
  {
    var ch := prefix[m - 1];
    var open := Tags(prefix, m - 1, dt) + [ListTag(ch)];
    assert Tags(prefix, m, dt) == open + [ItemTag(ch, dt && m == 1)];
    EmitNext(output, open, ItemTag(ch, dt), ItemTag(ch, dt && m == 1), ItemTag(ch, false));
    if !(dt && m > 1 && ch == ':') {
      var now := dt && ch != ':';
      if m == 1 {
        assert Tags(prefix, m - 1, dt) == Tags(prefix, m - 1, now);
      }
      assert ItemTag(ch, now && m == 1) == ItemTag(ch, false);
      assert Tags(prefix, m, now) == open + [ItemTag(ch, now && m == 1)];
    }
  }

  /** The first `n` lists of a prefix are open, and the section. */
  ghost predicate TagsTo(prefix: string, n: nat, term: bool, output: Tokens, dt: bool, section: Section)
    requires n <= |prefix|
  {
    Opened(output) == Some(Tags(prefix, n, term) + SectionTags(section)) && dt == term
  }

  /** Is the first of a prefix open as a term, once its lists are open from the n-th on. */
  predicate TermOpens(prefix: string, n: nat, term: bool, t: string, rules: Rules) {
    if n == 0 && prefix == ";" then rules.split(t).None? else term
  }

  lemma TagsToNext(prefix: string, n: nat, term: bool)
    requires n < |prefix| && IsPrefix(prefix) && (n == 0 ==> !term)
    ensures var ch := prefix[n];
            Tags(prefix, n, term) + [ListTag(ch), ItemTag(ch, ch == ';')]
            == Tags(prefix, n + 1, term || ch == ';') + SectionTags(NoSection)
  {
    if n == 0 {
      assert Tags(prefix, 0, true) == Tags(prefix, 0, false);
    }
  }

  lemma {:induction false} TagsOfFolded(prefix: string, n: nat, term: bool)
    requires n <= |prefix|
    ensures Tags(Folded(prefix), n, term) == Tags(prefix, n, term)
  {
    if n > 0 {
      TagsOfFolded(prefix, n - 1, term);
    }
  }

  /** The lists that are shared could be closed down to and continued; the term is still open if it was. */
  ghost predicate Continued(l: Lists, prefix: string, m: nat, dt: bool) {
    && !(l.term && InnerFrom(l.prefix, m)) && m <= |prefix|
    && dt == (l.term && m > 0 && !(m == |prefix| && prefix[m - 1] == ':'))
    && !(l.term && 1 < m == |prefix| && prefix[m - 1] == ':')
  }

  /** What a line with another prefix leaves, once its lists are open. */
  lemma ListsChanged(l: Lists, prefix: string, m: nat, t: string, rules: Rules, dt: bool)
    requires Proper(l) && IsPrefix(prefix) && m == Common(prefix, l.prefix) && Folded(prefix) != l.prefix
    requires Continued(l, prefix, m, dt)
    ensures TermAfter(l, prefix, t, rules) == if prefix == ";" && m == 0 then rules.split(t).None? else dt
    ensures Doomed(l) ==> TermAfter(l, prefix, t, rules) && HasInner(Folded(prefix))
  {
    if Doomed(l) {
      var i :| 0 < i < |l.prefix| && l.prefix[i] == ':';
      assert i < m && Folded(prefix)[i] == ':';
    }
  }

  // ---- paragraphs

  /** Only the section is open, and what is owed to it can be paid. */
  ghost predicate InSection(output: Tokens, section: Section, pending: Pending) {
    && Opened(output) == Some(SectionTags(section))
    && (pending == NewPara ==> section == NoSection) && (pending == NextPara ==> section == InPara)
  }

  /** Where something is owed, the next line can pay it. */
  predicate Payable(pending: Pending, section: Section, inBlock: bool, inPre: bool) {
    pending != Nothing ==> section != InPre && !inBlock && !inPre
  }

  function Owed(pending: Pending): Tokens {
    match pending
    case Nothing => []
    case NewPara => [Open(Para)]
    case NextPara => [Close(Para), Open(Para)]
  }

  /** What a line of text writes in front of it: what was owed, or a paragraph if none is open. */
  function TextOpens(flow: Flow): Tokens {
    if flow.pending != Nothing then Owed(flow.pending)
    else if flow.section == InPara then []
    else Closing(flow.section) + [Open(Para)]
  }

  function BlankWrites(flow: Flow): Tokens {
    if flow.pending != Nothing then Owed(flow.pending) + [Open(Br), Close(Br)]
    else if flow.section == InPara then []
    else Closing(flow.section)
  }

  /** What a line in no list writes in front of its text. */
  function ParaWrites(t: string, inPre: bool, flow: Flow, rules: Rules): Tokens {
    if IsBlock(t, rules) then Closing(flow.section)
    else if flow.inBlock || inPre then []
    else if IsPreLine(t, flow.section) then
      if flow.section == InPre then [] else Closing(flow.section) + [Open(Pre)]
    else if IsBlank(t) then BlankWrites(flow)
    else TextOpens(flow)
  }

  lemma EmitOwed(output: Tokens, section: Section, pending: Pending)
    requires InSection(output, section, pending) && pending != Nothing
    ensures Opened(output + Owed(pending)) == Some([Para])
  {
    EmitFew(output, Owed(pending), SectionTags(section));
    assert [Para][..0] == [] && [] + [Para] == [Para];
  }

  lemma EmitBreak(output: Tokens, open: seq<Tag>)
    requires Opened(output) == Some(open)
    ensures Opened(output + [Open(Br), Close(Br)]) == Some(open)
  {
    EmitFew(output, [Open(Br), Close(Br)], open);
    assert (open + [Br])[..|open|] == open;
  }

  lemma EmitSection(output: Tokens, section: Section, tag: Tag)
    requires Opened(output) == Some(SectionTags(section))
    ensures Opened(output + Closing(section) + [Open(tag)]) == Some([tag])
    ensures Opened(output + Closing(section)) == Some([])
  {
    assert [] + SectionTags(section) == SectionTags(section);
    EmitClosing(output, [], section);
    EmitFew(output + Closing(section), [Open(tag)], []);
    assert [] + [tag] == [tag];
  }

  // ---- lines

  lemma PrefixIsProper(l: Lists, line: string, rules: Rules)
    requires MayFollow(l, line) && Proper(l)
    ensures IsPrefix(PrefixOf(l, line)) && Proper(NextLists(l, line, rules))
    ensures Doomed(NextLists(l, line, rules)) <==> Overlaps(l, line)
  {
    var (prefix, next) := (PrefixOf(l, line), NextLists(l, line, rules));
    if prefix != "" && prefix != ";" {
      assert Folded(prefix) == prefix;
    }
  }

  /** The tags are those of the lists, and they can still be closed if no line so far overlaps. */
  ghost predicate Follows(clean: bool, l: Lists, output: Tokens, dt: bool, section: Section, pending: Pending) {
    && Proper(l)
    && if clean then Goes(output, dt, l, section, pending) && !Doomed(l)
       else Broken(output) || (Goes(output, dt, l, section, pending) && Doomed(l))
  }

  /** What one line does to the tags. */
  ghost predicate Moves(was: Tokens, wasDt: bool, wasSection: Section, wasPending: Pending, l: Lists,
                        output: Tokens, dt: bool, section: Section, pending: Pending, next: Lists)
  {
    && was <= output
    && (Goes(was, wasDt, l, wasSection, wasPending) ==>
          if Broken(output) then Doomed(l)
          else Goes(output, dt, next, section, pending) && (Doomed(l) ==> Doomed(next)))
  }

  lemma FollowsNext(clean: bool, l: Lists, line: string, rules: Rules,
                    was: Tokens, wasDt: bool, wasSection: Section, wasPending: Pending,
                    output: Tokens, dt: bool, section: Section, pending: Pending)
    requires Follows(clean, l, was, wasDt, wasSection, wasPending) && MayFollow(l, line)
    requires Moves(was, wasDt, wasSection, wasPending, l, output, dt, section, pending, NextLists(l, line, rules))
    ensures Follows(clean && !Overlaps(l, line), NextLists(l, line, rules), output, dt, section, pending)
  {
    PrefixIsProper(l, line, rules);
    if Broken(was) {
      BrokenStays(was, output);
    }
  }

  // ---- line after line

  predicate Steps(step: (Plan, string) -> Plan, plan: seq<Plan>, lines: seq<string>, k: nat)
    requires k + 1 < |plan| && k < |lines|
  {
    plan[k + 1] == step(plan[k], lines[k])
  }

  predicate LeadsOn(plan: seq<Plan>, lines: seq<string>, rules: Rules, k: nat)
    requires k + 1 < |plan| && k < |lines|
  {
    plan[k + 1] == NextPlan(plan[k], lines[k], rules)
  }

  /** What is planned in front of each line from one on, and at the end. */
  predicate IsPlan(plan: seq<Plan>, lines: seq<string>, start: nat, rules: Rules) {
    && |plan| == |lines| + 1 && start <= |lines| && plan[|lines|].terms
    && forall k: nat :: start <= k < |lines| ==> LeadsOn(plan, lines, rules, k)
  }

  lemma {:induction false} TermsBefore(plan: seq<Plan>, lines: seq<string>, start: nat, rules: Rules, k: nat)
    requires IsPlan(plan, lines, start, rules) && start <= k <= |lines|
    ensures plan[k].terms
    decreases |lines| - k
  {
    if k < |lines| {
      TermsBefore(plan, lines, start, rules, k + 1);
      assert LeadsOn(plan, lines, rules, k);
    }
  }

  lemma LineFollows(plan: seq<Plan>, lines: seq<string>, start: nat, rules: Rules, k: nat)
    requires IsPlan(plan, lines, start, rules) && start <= k < |lines|
    ensures MayFollow(plan[k].s.l, lines[k]) && plan[k + 1] == NextPlan(plan[k], lines[k], rules)
  {
    assert LeadsOn(plan, lines, rules, k);
    TermsBefore(plan, lines, start, rules, k + 1);
  }

  function Filled(n: nat, p: Plan): (plan: seq<Plan>)
    ensures |plan| == n
  {
    if n == 0 then [] else Filled(n - 1, p) + [p]
  }

  lemma {:induction false} StepsAreMade(step: (Plan, string) -> Plan, lines: seq<string>, start: nat, n: nat,
                                        first: Plan)
    returns (plan: seq<Plan>)
    requires start <= n <= |lines|
    ensures |plan| == n + 1 && forall k: nat :: start <= k < n ==> Steps(step, plan, lines, k)
    ensures plan[start] == first && plan[n] == Fold(step, lines, start, n, first)
  {
    if n == start {
      plan := Filled(n, first) + [first];
    } else {
      var front := StepsAreMade(step, lines, start, n - 1, first);
      plan := front + [Fold(step, lines, start, n, first)];
      forall k: nat | start <= k < n
        ensures Steps(step, plan, lines, k)
      {
        if k < n - 1 {
          assert Steps(step, front, lines, k);
        }
      }
    }
  }

  /** There is a plan for any lines, and it ends in what they come to. */
  lemma PlanIsMade(lines: seq<string>, start: nat, first: State, rules: Rules) returns (plan: seq<Plan>)
    requires start <= |lines| && Terms(lines, start, first, rules)
    ensures IsPlan(plan, lines, start, rules)
    ensures plan[start] == FirstPlan(first) && plan[|lines|] == PlanOf(lines, start, first, rules)
  {
    var step := (p, line) => NextPlan(p, line, rules);
    plan := StepsAreMade(step, lines, start, |lines|, FirstPlan(first));
    forall k: nat | start <= k < |lines|
      ensures LeadsOn(plan, lines, rules, k)
    {
      assert Steps(step, plan, lines, k);
    }
  }

  lemma ReadsNext(p: Plan, line: string, rules: Rules, next: Plan, was: Tokens, output: Tokens, ink: string,
                  marks: seq<Mark<Tag>>)
    requires next == NextPlan(p, line, rules) && InkOf(was) == ink + p.ink
    requires InkOf(output) == InkOf(was) + LineInk(p.s.l, line, rules)
    requires p.clean ==>
               && MarksOf(was) == marks + p.marks
               && MarksOf(output) == MarksOf(was) + LineMarks(p.s.l, p.s.flow, line, rules, p.s.spots)
    ensures InkOf(output) == ink + next.ink && (next.clean ==> MarksOf(output) == marks + next.marks)
  {
    InkGoesOn(ink, p.ink, LineInk(p.s.l, line, rules));
    InkGoesOn(marks, p.marks, LineMarks(p.s.l, p.s.flow, line, rules, p.s.spots));
  }

  lemma LineReads(l: Lists, flow: Flow, line: string, rules: Rules, s: Spots, was: seq<Mark<Tag>>)
    ensures var (prefix, t) := (PrefixOf(l, line), RestOf(l, line));
            was + TermMarks(prefix, t, rules, ItemSpots(l, flow.section, prefix, s))
            + Marks(BodyOf(prefix, t, rules), AroundBody(l, flow, line, rules, s))
            == was + LineMarks(l, flow, line, rules, s)
  {
    var (prefix, t) := (PrefixOf(l, line), RestOf(l, line));
    InkGoesOn(was, TermMarks(prefix, t, rules, ItemSpots(l, flow.section, prefix, s)),
              Marks(BodyOf(prefix, t, rules), AroundBody(l, flow, line, rules, s)));
  }

  /** Where no list is open, going well is a matter of the section. */
  lemma GoesInSection(output: Tokens, dt: bool, l: Lists, section: Section, pending: Pending)
    requires l.prefix == "" && !l.term
    ensures Goes(output, dt, l, section, pending) <==> InSection(output, section, pending) && !dt
  {
    assert Tags(l.prefix, 0, l.term) + SectionTags(section) == SectionTags(section);
  }

  lemma CloseOfSection(output: Tokens, section: Section)
    requires section != NoSection && Opened(output) == Some(SectionTags(section))
    ensures WellNested(output + if section == InPara then [Close(Para)] else [Close(Pre)])
  {
    var tag := if section == InPara then Para else Pre;
    EmitFew(output, [Close(tag)], SectionTags(section));
    assert [tag][..0] == [];
  }

  /** The text of a line as it is written reads like the text itself, and a blank one like nothing. */
  lemma TextOfLine(t: string, text: string, around: Around<Tag>)
    requires text == t || (t != "" && t[0] == ' ' && text == t[1..])
    ensures Ink(text + "\n") == Ink(t) && Marks(text + "\n", around) == Marks(t, around)
    ensures IsBlank(t) ==> Ink(t) == "" && Marks(t, around) == []
  {
    InkOfLine(text);
    MarksOfLine(text, around);
    if text != t {
      InkOfIndented(t, |t|);
      MarksOfIndented(t, |t|, around);
    }
    if IsBlank(t) {
      InkOfWhite(t, |t|);
      MarksOfWhite(t, |t|, around);
    }
  }

  // ---- which tags they are, behind what is written

  lemma ClosingSpots(output: Tokens, section: Section)
    ensures SpotsOf(output + Closing(section)) == OutOf(section, SpotsOf(output))
  {
    SpotsFew(output, Closing(section));
  }

  lemma OpeningSpots(output: Tokens, section: Section, ch: char)
    ensures SpotsOf(output + (Closing(section) + [Open(ListTag(ch)), Open(ItemTag(ch, ch == ';'))]))
            == OutOf(section, SpotsOf(output)).Pushes(2)
  {
    var tags := [Open(ListTag(ch)), Open(ItemTag(ch, ch == ';'))];
    InkGoesOn(output, Closing(section), tags);
    ClosingSpots(output, section);
    SpotsFew(output + Closing(section), tags);
    assert OutOf(section, SpotsOf(output)).Pushes(1) == OutOf(section, SpotsOf(output)).Push();
  }

  lemma SectionSpots(output: Tokens, section: Section, tag: Tag)
    ensures SpotsOf(output + (Closing(section) + [Open(tag)])) == OutOf(section, SpotsOf(output)).Push()
  {
    InkGoesOn(output, Closing(section), [Open(tag)]);
    ClosingSpots(output, section);
    SpotsNext(output + Closing(section), Open(tag));
  }

  lemma PaidSpots(output: Tokens, pending: Pending)
    ensures SpotsOf(output + Owed(pending)) == OwedSpots(pending, SpotsOf(output))
    ensures SpotsOf(output + (Owed(pending) + [Open(Br), Close(Br)]))
            == OwedSpots(pending, SpotsOf(output)).Push().Pop()
  {
    InkGoesOn(output, Owed(pending), [Open(Br), Close(Br)]);
    SpotsFew(output, Owed(pending));
    SpotsFew(output + Owed(pending), [Open(Br), Close(Br)]);
  }

  lemma ParaSpotsAre(output: Tokens, t: string, inPre: bool, flow: Flow, rules: Rules)
    ensures SpotsOf(output + ParaWrites(t, inPre, flow, rules)) == ParaSpots(t, inPre, flow, rules, SpotsOf(output))
  {
    assert output + [] == output;
    ClosingSpots(output, flow.section);
    SectionSpots(output, flow.section, Pre);
    SectionSpots(output, flow.section, Para);
    PaidSpots(output, flow.pending);
  }

  class BlockParser {
    var mLastSection: Section
    var mInPre: bool
    var mDTopen: bool
    var output: Tokens

    constructor ()
      ensures mLastSection == NoSection && !mInPre && !mDTopen && output == []
    {
      mLastSection, mInPre, mDTopen, output := NoSection, false, false, [];
    }

    method CloseParagraph() returns (result: Tokens)
      modifies this`mLastSection, this`mInPre
      ensures mLastSection == NoSection && !mInPre && result == Closing(old(mLastSection))
    {
      result := [];
      if mLastSection == InPara {
        result := [Close(Para), Text("\n")];
      } else if mLastSection == InPre {
        result := [Close(Pre), Text("\n")];
      }
      mInPre := false;
      mLastSection := NoSection;
    }

    method GetCommon(st1: string, st2: string) returns (i: nat)
      ensures i == Common(st1, st2)
    {
      var shorter := |st2|;
      if |st1| < shorter {
        shorter := |st1|;
      }
      i := 0;
      while i < shorter
        invariant i <= shorter && forall j :: 0 <= j < i ==> st1[j] == st2[j]
      {
        if st1[i] != st2[i] {
          CommonIs(st1, st2, i);
          return;
        }
        i := i + 1;
      }
      CommonIs(st1, st2, i);
    }

    method OpenList(ch: char) returns (result: Tokens)
      modifies this`mLastSection, this`mInPre, this`mDTopen
      ensures mLastSection == NoSection && !mInPre && mDTopen == (old(mDTopen) || ch == ';')
      ensures IsListChar(ch) ==>
                result == Closing(old(mLastSection)) + [Open(ListTag(ch)), Open(ItemTag(ch, ch == ';'))]
    {
      result := CloseParagraph();
      if ch == '*' {
        result := result + [Open(Ul), Open(Li)];
      } else if ch == '#' {
        result := result + [Open(Ol), Open(Li)];
      } else if ch == ':' {
        result := result + [Open(Dl), Open(Dd)];
      } else if ch == ';' {
        result := result + [Open(Dl), Open(Dt)];
        mDTopen := true;
      } else {
        result := [Text("<!-- ERR 1 -->")];
      }
    }

    method NextItem(ch: char) returns (result: Tokens)
      modifies this`mDTopen
      ensures mDTopen == if ch == ':' || ch == ';' then ch == ';' else old(mDTopen)
      ensures IsListChar(ch) ==> result == [Close(ItemTag(ch, old(mDTopen))), Open(ItemTag(ch, ch == ';'))]
    {
      if ch == '*' || ch == '#' {
        return [Close(Li), Open(Li)];
      } else if ch == ':' || ch == ';' {
        var close := Dd;
        if mDTopen {
          close := Dt;
        }
        if ch == ';' {
          mDTopen := true;
          return [Close(close), Open(Dt)];
        } else {
          mDTopen := false;
          return [Close(close), Open(Dd)];
        }
      }
      return [Text("<!-- ERR 2 -->")];
    }

    method CloseList(ch: char) returns (result: Tokens)
      modifies this`mDTopen
      ensures mDTopen == (old(mDTopen) && ch != ':')
      ensures IsListChar(ch) && ch != ';' ==>
                result == [Close(ItemTag(ch, old(mDTopen))), Close(ListTag(ch)), Text("\n")]
    {
      if ch == '*' {
        return [Close(Li), Close(Ul), Text("\n")];
      } else if ch == '#' {
        return [Close(Li), Close(Ol), Text("\n")];
      } else if ch == ':' {
        if mDTopen {
          mDTopen := false;
          return [Close(Dt), Close(Dl), Text("\n")];
        } else {
          return [Close(Dd), Close(Dl), Text("\n")];
        }
      }
      return [Text("<!-- ERR 3 -->")];
    }

    method CloseOne(lastPrefix: string, n: nat, ghost l: Lists)
      requires Proper(l) && lastPrefix == l.prefix && 0 < n <= |lastPrefix|
      modifies this`mDTopen, this`output
      ensures old(output) <= output && ReadsSame(old(output), output)
      ensures SpotsOf(output) == SpotsOf(old(output)).Pop().Pop()
      ensures ClosedTo(l, n, old(output), old(mDTopen)) ==> ClosedTo(l, n - 1, output, mDTopen)
    {
      if ClosedTo(l, n, output, mDTopen) {
        ListCloses(l, n, output, mDTopen);
      }
      var result := CloseList(lastPrefix[n - 1]);
      TagsReadSame(output, result);
      SpotsFew(output, result);
      output := output + result;
    }

    /** Closes all lists behind the first `common`. */
    method CloseLists(lastPrefix: string, common: nat, ghost l: Lists)
      requires Proper(l) && lastPrefix == l.prefix && common <= |lastPrefix|
      modifies this`mDTopen, this`output
      ensures old(output) <= output
      ensures common == |lastPrefix| ==> output == old(output) && mDTopen == old(mDTopen)
      ensures ReadsSame(old(output), output)
      ensures SpotsOf(output) == SpotsOf(old(output)).Pops(2 * (|lastPrefix| - common))
      ensures ClosedTo(l, |l.prefix|, old(output), old(mDTopen)) ==> ClosedTo(l, common, output, mDTopen)
    {
      ghost var (was, dt, start) := (output, mDTopen, SpotsOf(output));
      ghost var sound := ClosedTo(l, |l.prefix|, output, mDTopen);
      var lastPrefixLength := |lastPrefix|;
      while common < lastPrefixLength
        invariant common <= lastPrefixLength <= |lastPrefix| && was <= output
        invariant lastPrefixLength == |lastPrefix| ==> output == was && mDTopen == dt
        invariant ReadsSame(was, output)
        invariant SpotsOf(output) == start.Pops(2 * (|lastPrefix| - lastPrefixLength))
        invariant sound ==> ClosedTo(l, lastPrefixLength, output, mDTopen)
      {
        PopsTwo(start, 2 * (|lastPrefix| - lastPrefixLength));
        CloseOne(lastPrefix, lastPrefixLength, l);
        lastPrefixLength := lastPrefixLength - 1;
      }
    }

    /** Opens the list of one character. */
    method OpenNext(ch: char, ghost open: seq<Tag>)
      requires IsListChar(ch)
      modifies this
      ensures old(output) <= output && mLastSection == NoSection && !mInPre && mDTopen == (old(mDTopen) || ch == ';')
      ensures ReadsSame(old(output), output)
      ensures SpotsOf(output) == OutOf(old(mLastSection), SpotsOf(old(output))).Pushes(2)
      ensures Opened(old(output)) == Some(open + SectionTags(old(mLastSection))) ==>
                Opened(output) == Some(open + [ListTag(ch), ItemTag(ch, ch == ';')])
    {
      ghost var (was, section) := (output, mLastSection);
      var result := OpenList(ch);
      TagsReadSame(output, result);
      OpeningSpots(output, section, ch);
      output := output + result;
      if Opened(was) == Some(open + SectionTags(section)) {
        assert output == was + Closing(section) + [Open(ListTag(ch)), Open(ItemTag(ch, ch == ';'))];
        EmitClosing(was, open, section);
        EmitOpenTwo(was + Closing(section), open, ListTag(ch), ItemTag(ch, ch == ';'));
      }
    }

    /** Splits a term that has its definition in the same line. */
    method SplitTerm(t: string, rules: Rules) returns (rest: string)
      modifies this`output, this`mDTopen
      ensures old(output) <= output
      ensures rest == BodyOf(";", t, rules)
      ensures InkOf(output) + Ink(rest) == InkOf(old(output)) + SplitInk(';', t, rules)
      ensures SpotsOf(output) == SplitSpots(rules.split(t).Some?, SpotsOf(old(output)))
      ensures old(mDTopen) && Opened(old(output)) == Some([Dl, Dt]) ==>
                && mDTopen == rules.split(t).None? && Opened(output) == Some([Dl, ItemTag(';', mDTopen)])
                && MarksOf(output) == MarksOf(old(output)) + TermMarks(";", t, rules, SpotsOf(old(output)))
    {
      rest := t;
      var found := rules.split(rest);
      if found.Some? {
        rest := found.value.1;
        assert [Dl] + [Dt] == [Dl, Dt] && [Dl] + [Dd] == [Dl, Dd];
        Define(found.value.0, [Dl]);
      }
    }

    /** Opens the n-th list; a term that is split becomes a definition at once. */
    method OpenOne(prefix: string, n: nat, t: string, rules: Rules, ghost term: bool, ghost item: Spots)
      returns (rest: string)
      requires n < |prefix| && IsPrefix(prefix) && (n == 0 ==> !term)
      requires item == OutOf(mLastSection, SpotsOf(output)).Pushes(2)
      modifies this
      ensures old(output) <= output && mLastSection == NoSection && !mInPre
      ensures rest == if n == 0 then BodyOf(prefix, t, rules) else t
      ensures InkOf(output) + Ink(rest) == InkOf(old(output)) + if n == 0 then ItsInk(prefix, t, rules) else Ink(t)
      ensures TagsTo(prefix, n, term, old(output), old(mDTopen), old(mLastSection)) ==>
                && TagsTo(prefix, n + 1, TermOpens(prefix, n, term, t, rules), output, mDTopen, NoSection)
                && MarksOf(output) == MarksOf(old(output)) + if n == 0 then TermMarks(prefix, t, rules, item) else []
      ensures SpotsOf(output) == SplitSpots(n == 0 && Splits(prefix, t, rules), item)
      ensures n > 0 ==> ReadsSame(old(output), output)
    {
      OpenNext(prefix[n], Tags(prefix, n, term));
      rest := t;
      if prefix[n] == ';' {
        OneTerm(prefix, true);
        OneTerm(prefix, rules.split(t).None?);
        TagsToNext(prefix, n, term);
        rest := SplitTerm(t, rules);
      } else {
        TagsToNext(prefix, n, term);
        assert MarksOf(output) + [] == MarksOf(output);
      }
    }

    /** The text of a term, and its definition. */
    method Define(term: string, ghost open: seq<Tag>)
      modifies this`output, this`mDTopen
      ensures old(output) <= output && !mDTopen && InkOf(output) == InkOf(old(output)) + Ink(term)
      ensures MarksOf(output) == MarksOf(old(output)) + Marks(term, AroundOf(old(output)))
      ensures SpotsOf(output) == SpotsOf(old(output)).Pop().Push()
      ensures old(mDTopen) && Opened(old(output)) == Some(open + [Dt]) ==> Opened(output) == Some(open + [Dd])
    {
      ghost var (was, dt) := (output, mDTopen);
      var next := NextItem(':');
      InkOfNext(output, Text(term));
      MarksOfNext(output, Text(term));
      TagsReadSame(output + [Text(term)], next);
      SpotsNext(output, Text(term));
      SpotsFew(output + [Text(term)], next);
      output := output + [Text(term)] + next;
      if dt && Opened(was) == Some(open + [Dt]) {
        EmitText(was, term);
        EmitNext(was + [Text(term)], open, Dt, Dt, Dd);
      }
    }

    /** Opens the lists of a prefix from the n-th character on, of which the first is not one. */
    method OpenMore(prefix: string, first: nat, t: string, rules: Rules, ghost term: bool) returns (rest: string)
      requires 1 <= first <= |prefix| && IsPrefix(prefix)
      modifies this
      ensures old(output) <= output && ReadsSame(old(output), output) && rest == t
      ensures if first < |prefix| then mLastSection == NoSection && !mInPre
              else mLastSection == old(mLastSection) && mInPre == old(mInPre)
      ensures SpotsOf(output) == OpenSpots(prefix, first, old(mLastSection), SpotsOf(old(output)))
      ensures TagsTo(prefix, first, term, old(output), old(mDTopen), old(mLastSection)) ==>
                TagsTo(prefix, |prefix|, term, output, mDTopen, mLastSection)
    {
      ghost var sound := TagsTo(prefix, first, term, output, mDTopen, mLastSection);
      ghost var start := OutOf(mLastSection, SpotsOf(output));
      rest := t;
      var n := first;
      while n < |prefix|
        invariant first <= n <= |prefix| && old(output) <= output && ReadsSame(old(output), output) && rest == t
        invariant n == first ==> mLastSection == old(mLastSection) && mInPre == old(mInPre) && output == old(output)
        invariant n > first ==> mLastSection == NoSection && !mInPre && SpotsOf(output) == start.Pushes(2 * (n - first))
        invariant sound ==> TagsTo(prefix, n, term, output, mDTopen, mLastSection)
      {
        PushesAdd(start, 2 * (n - first), 2);
        rest := OpenOne(prefix, n, rest, rules, term, OutOf(mLastSection, SpotsOf(output)).Pushes(2));
        n := n + 1;
      }
    }

    /** Opens the lists of a prefix from the m-th character on; only the first of all can be a term. */
    method OpenLists(prefix: string, m: nat, t: string, rules: Rules, ghost term: bool, ghost item: Spots)
      returns (rest: string)
      requires m <= |prefix| && IsPrefix(prefix) && (m == 0 ==> !term)
      requires item == OpenSpots(prefix, m, mLastSection, SpotsOf(output))
      modifies this
      ensures old(output) <= output
      ensures m < |prefix| ==> mLastSection == NoSection && !mInPre
      ensures m == |prefix| ==> mLastSection == old(mLastSection) && mInPre == old(mInPre)
      ensures rest == if m == 0 then BodyOf(prefix, t, rules) else t
      ensures InkOf(output) + Ink(rest) == InkOf(old(output)) + if m == 0 then ItsInk(prefix, t, rules) else Ink(t)
      ensures TagsTo(prefix, m, term, old(output), old(mDTopen), old(mLastSection)) ==>
                && TagsTo(prefix, |prefix|, TermOpens(prefix, m, term, t, rules), output, mDTopen, mLastSection)
                && MarksOf(output) == MarksOf(old(output)) + if m == 0 then TermMarks(prefix, t, rules, item) else []
      ensures SpotsOf(output) == SplitSpots(m == 0 && Splits(prefix, t, rules), item)
    {
      rest := t;
      if m > 0 {
        rest := OpenMore(prefix, m, t, rules, term);
        assert MarksOf(output) + [] == MarksOf(output);
      } else if prefix != "" {
        rest := OpenAll(prefix, t, rules, item);
      } else {
        assert MarksOf(output) + [] == MarksOf(output);
      }
    }

    /** Opens all lists of a prefix; the first of them can be a term. */
    method OpenAll(prefix: string, t: string, rules: Rules, ghost item: Spots) returns (rest: string)
      requires prefix != "" && IsPrefix(prefix) && item == OpenSpots(prefix, 0, mLastSection, SpotsOf(output))
      modifies this
      ensures old(output) <= output && mLastSection == NoSection && !mInPre
      ensures rest == BodyOf(prefix, t, rules)
      ensures InkOf(output) + Ink(rest) == InkOf(old(output)) + ItsInk(prefix, t, rules)
      ensures TagsTo(prefix, 0, false, old(output), old(mDTopen), old(mLastSection)) ==>
                && TagsTo(prefix, |prefix|, TermOpens(prefix, 0, false, t, rules), output, mDTopen, mLastSection)
                && MarksOf(output) == MarksOf(old(output)) + TermMarks(prefix, t, rules, item)
      ensures SpotsOf(output) == SplitSpots(Splits(prefix, t, rules), item)
    {
      ghost var (start, now) := (OutOf(mLastSection, SpotsOf(output)), TermOpens(prefix, 0, false, t, rules));
      PushesAdd(start, 2, 2 * (|prefix| - 1));
      rest := OpenOne(prefix, 0, t, rules, false, start.Pushes(2));
      rest := OpenMore(prefix, 1, rest, rules, now);
    }

    /** The next item of the same lists, before a term is split. */
    method NextOfSame(prefix: string, ghost l: Lists)
      requires Proper(l) && prefix != "" && IsPrefix(prefix) && Folded(prefix) == l.prefix
      modifies this`output, this`mDTopen
      ensures old(output) <= output && ReadsSame(old(output), output)
      ensures SpotsOf(output) == SpotsOf(old(output)).Pop().Push()
      ensures Goes(old(output), old(mDTopen), l, mLastSection, Nothing) ==>
                var ch := prefix[|prefix| - 1];
                && mDTopen == (if ch == ':' || ch == ';' then ch == ';' else l.term)
                && if l.term && |prefix| > 1 && ch == ':' then Broken(output)
                   else Opened(output) == Some(Tags(l.prefix, |prefix|, mDTopen))
    {
      if Goes(output, mDTopen, l, mLastSection, Nothing) {
        NextItemInSameList(output, l, prefix, mLastSection, Nothing);
      }
      var result := NextItem(prefix[|prefix| - 1]);
      TagsReadSame(output, result);
      SpotsFew(output, result);
      output := output + result;
    }

    /** A line with the prefix of the last one: the next item. */
    method SameList(prefix: string, t: string, rules: Rules, ghost l: Lists) returns (rest: string)
      requires Proper(l) && prefix != "" && IsPrefix(prefix) && Folded(prefix) == l.prefix
      modifies this`output, this`mDTopen
      ensures old(output) <= output
      ensures InkOf(output) + Ink(rest) == InkOf(old(output)) + ItsInk(prefix, t, rules)
      ensures rest == BodyOf(prefix, t, rules)
      ensures SpotsOf(output) == SplitSpots(Splits(prefix, t, rules), SpotsOf(old(output)).Pop().Push())
      ensures Goes(old(output), old(mDTopen), l, mLastSection, Nothing) ==>
                MarksOf(output)
                == MarksOf(old(output)) + TermMarks(prefix, t, rules, SpotsOf(old(output)).Pop().Push())
      ensures Goes(old(output), old(mDTopen), l, mLastSection, Nothing) ==>
                var next := l.(term := TermAfter(l, prefix, t, rules));
                if l.term && |prefix| > 1 && prefix[|prefix| - 1] == ':' then Broken(output)
                else Goes(output, mDTopen, next, mLastSection, Nothing)
    {
      NextOfSame(prefix, l);
      rest := t;
      if prefix[|prefix| - 1] == ';' {
        OneTerm(prefix, true);
        OneTerm(prefix, rules.split(t).None?);
        rest := SplitTerm(t, rules);
      } else {
        assert MarksOf(output) + [] == MarksOf(output);
      }
      ghost var now := TermAfter(l, prefix, t, rules);
      assert Tags(l.prefix, |prefix|, now) + SectionTags(NoSection) == Tags(l.prefix, |prefix|, now);
    }

    /** The next item where a line ends in a list of the last one. */
    method ContinueList(prefix: string, m: nat)
      requires m <= |prefix| && IsPrefix(prefix) && (m > 0 ==> prefix[m - 1] != ';')
      modifies this`output, this`mDTopen
      ensures old(output) <= output
      ensures ReadsSame(old(output), output)
      ensures m < |prefix| || m == 0 ==> output == old(output) && mDTopen == old(mDTopen)
      ensures SpotsOf(output) ==
              if 0 < m == |prefix| then SpotsOf(old(output)).Pop().Push() else SpotsOf(old(output))
      ensures 0 < m == |prefix| && Opened(old(output)) == Some(Tags(prefix, m, old(mDTopen))) ==>
                if old(mDTopen) && m > 1 && prefix[m - 1] == ':' then Broken(output)
                else
                  && mDTopen == (old(mDTopen) && prefix[m - 1] != ':')
                  && Opened(output) == Some(Tags(prefix, m, mDTopen))
    {
      if |prefix| <= m && m > 0 {
        if Opened(output) == Some(Tags(prefix, m, mDTopen)) {
          NextItemInShared(output, prefix, m, mDTopen);
        }
        var result := NextItem(prefix[m - 1]);
        TagsReadSame(output, result);
        SpotsFew(output, result);
        output := output + result;
      }
    }

    /** Closes what a line does not share with the last one. */
    method CloseShared(prefix: string, m: nat, lastPrefix: string, ghost l: Lists, ghost pending: Pending)
      requires Proper(l) && IsPrefix(prefix) && lastPrefix == l.prefix && m == Common(prefix, l.prefix)
      modifies this`output, this`mDTopen
      ensures old(output) <= output && ReadsSame(old(output), output)
      ensures SpotsOf(output) == SpotsOf(old(output)).Pops(2 * (|l.prefix| - m))
      ensures Goes(old(output), old(mDTopen), l, mLastSection, pending) ==>
                && (Broken(output) <==> l.term && InnerFrom(l.prefix, m))
                && (!Broken(output) ==>
                      && Opened(output) == Some(Tags(prefix, m, mDTopen) + SectionTags(mLastSection))
                      && mDTopen == (l.term && m > 0) && (m > 0 ==> mLastSection == NoSection))
    {
      ghost var going := Goes(output, mDTopen, l, mLastSection, pending);
      assert Tags(l.prefix, |l.prefix|, l.term) + SectionTags(NoSection) == Tags(l.prefix, |l.prefix|, l.term);
      CloseLists(lastPrefix, m, l);
      if going && l.prefix != "" {
        SharedLists(l, prefix, m, output, mDTopen);
        assert Tags(prefix, m, mDTopen) + SectionTags(NoSection) == Tags(prefix, m, mDTopen);
      }
    }

    /** Closes what a line does not share with the last one, and goes on with what it does. */
    method CloseAndContinue(prefix: string, m: nat, lastPrefix: string, ghost l: Lists, ghost pending: Pending)
      requires Proper(l) && IsPrefix(prefix) && lastPrefix == l.prefix && m == Common(prefix, l.prefix)
      modifies this`output, this`mDTopen
      ensures old(output) <= output && ReadsSame(old(output), output)
      ensures SpotsOf(output) == SharedSpots(l, prefix, SpotsOf(old(output)))
      ensures Goes(old(output), old(mDTopen), l, mLastSection, pending) ==>
                if Broken(output) then Doomed(l)
                else
                  && Opened(output) == Some(Tags(prefix, m, mDTopen) + SectionTags(mLastSection))
                  && Continued(l, prefix, m, mDTopen)
    {
      CloseShared(prefix, m, lastPrefix, l, pending);
      ghost var closed := output;
      assert forall dt :: Tags(prefix, m, dt) + SectionTags(NoSection) == Tags(prefix, m, dt);
      ContinueList(prefix, m);
      if Broken(closed) {
        BrokenStays(closed, output);
      }
    }

    /** A line with another prefix: closes what is not shared, and opens what is new. */
    method ChangeLists(prefix: string, lastPrefix: string, t: string, rules: Rules, ghost l: Lists,
                       ghost pending: Pending, ghost item: Spots)
      returns (rest: string)
      requires Proper(l) && IsPrefix(prefix) && lastPrefix == l.prefix && Folded(prefix) != l.prefix
      requires item == ItemSpots(l, mLastSection, prefix, SpotsOf(output))
      modifies this
      ensures old(output) <= output && mInPre == (old(mInPre) && !Opens(l, prefix))
      ensures rest == BodyOf(prefix, t, rules)
      ensures mLastSection == if Opens(l, prefix) then NoSection else old(mLastSection)
      ensures InkOf(output) + Ink(rest)
              == InkOf(old(output)) + ItsInk(prefix, t, rules)
      ensures Goes(old(output), old(mDTopen), l, old(mLastSection), pending) ==>
                var next := l.(prefix := Folded(prefix), term := TermAfter(l, prefix, t, rules));
                if Broken(output) then Doomed(l)
                else
                  && Goes(output, mDTopen, next, mLastSection, Nothing) && (Doomed(l) ==> Doomed(next))
                  && MarksOf(output) == MarksOf(old(output)) + TermMarks(prefix, t, rules, item)
      ensures SpotsOf(output) == SplitSpots(Splits(prefix, t, rules), item)
    {
      ghost var going := Goes(output, mDTopen, l, mLastSection, pending);
      var m := GetCommon(prefix, lastPrefix);
      CloseAndContinue(prefix, m, lastPrefix, l, pending);
      ghost var (shared, dt) := (output, mDTopen);
      rest := OpenLists(prefix, m, t, rules, m > 0 && mDTopen, item);
      if going {
        if Broken(shared) {
          BrokenStays(shared, output);
        } else {
          ListsChanged(l, prefix, m, t, rules, dt);
          TagsOfFolded(prefix, |prefix|, mDTopen);
        }
      }
    }

    /** A new section in the place of the one before. */
    method StartSection(section: Section)
      requires section != NoSection
      modifies this
      ensures old(output) <= output && mLastSection == section && !mInPre && mDTopen == old(mDTopen)
      ensures ReadsSame(old(output), output)
      ensures Opened(old(output)) == Some(SectionTags(old(mLastSection))) ==> InSection(output, section, Nothing)
      ensures output == old(output) + (Closing(old(mLastSection)) + [Open(if section == InPara then Para else Pre)])
    {
      var tag := if section == InPara then Para else Pre;
      if Opened(output) == Some(SectionTags(mLastSection)) {
        EmitSection(output, mLastSection, tag);
      }
      var result := CloseParagraph();
      TagsReadSame(output, result);
      TagsReadSame(output + result, [Open(tag)]);
      InkGoesOn(output, result, [Open(tag)]);
      output := output + result + [Open(tag)];
      mLastSection := section;
    }

    /** A blank line: what was owed and a line break, or else something is owed from now on. */
    method BlankLine(pending: Pending) returns (owed: Pending)
      requires !mInPre
      modifies this
      ensures old(output) <= output && !mInPre && mDTopen == old(mDTopen) && ReadsSame(old(output), output)
      ensures owed != Nothing ==> mLastSection != InPre
      ensures var flow := Flow(old(mLastSection), pending, false);
              Flow(mLastSection, owed, false) == BlankFlow(flow) && output == old(output) + BlankWrites(flow)
      ensures InSection(old(output), old(mLastSection), pending) ==> InSection(output, mLastSection, owed)
    {
      if InSection(output, mLastSection, pending) {
        if pending != Nothing {
          EmitOwed(output, mLastSection, pending);
          EmitBreak(output + Owed(pending), [Para]);
        }
        EmitSection(output, mLastSection, Para);
      }
      owed := pending;
      if pending != Nothing {
        TagsReadSame(output, Owed(pending));
        TagsReadSame(output + Owed(pending), [Open(Br), Close(Br)]);
        InkGoesOn(output, Owed(pending), [Open(Br), Close(Br)]);
        output := output + Owed(pending) + [Open(Br), Close(Br)];
        owed := Nothing;
        mLastSection := InPara;
      } else if mLastSection != InPara {
        var result := CloseParagraph();
        TagsReadSame(output, result);
        output := output + result;
        owed := NewPara;
      } else {
        owed := NextPara;
      }
    }

    /** A line of text in a paragraph: it pays what was owed, or starts one if need be. */
    method TextLine(pending: Pending)
      requires !mInPre
      modifies this
      ensures old(output) <= output && !mInPre && mDTopen == old(mDTopen) && ReadsSame(old(output), output)
      ensures mLastSection == InPara
      ensures output == old(output) + TextOpens(Flow(old(mLastSection), pending, false))
      ensures InSection(old(output), old(mLastSection), pending) ==> InSection(output, mLastSection, Nothing)
    {
      if pending != Nothing {
        if InSection(output, mLastSection, pending) {
          EmitOwed(output, mLastSection, pending);
        }
        TagsReadSame(output, Owed(pending));
        output := output + Owed(pending);
        mLastSection := InPara;
      } else if mLastSection != InPara {
        StartSection(InPara);
      }
    }

    /** A line with a block in it ends the section. */
    method BlockLine(line: string, rules: Rules)
      modifies this
      ensures mLastSection == NoSection && mInPre == (rules.opensPre(line) && !rules.closesPre(line))
      ensures mDTopen == old(mDTopen) && output == old(output) + Closing(old(mLastSection))
      ensures ReadsSame(old(output), output)
      ensures Opened(old(output)) == Some(SectionTags(old(mLastSection))) ==> InSection(output, NoSection, Nothing)
    {
      if Opened(output) == Some(SectionTags(mLastSection)) {
        EmitSection(output, mLastSection, Para);
      }
      var result := CloseParagraph();
      TagsReadSame(output, result);
      output := output + result;
      if rules.opensPre(line) && !rules.closesPre(line) {
        mInPre := true;
      }
    }

    /** Paragraph mode, for a line that is in no list. */
    method Paragraphs(t: string, line: string, inBlock: bool, pending: Pending, rules: Rules)
      returns (rest: string, inBlockElem: bool, owed: Pending)
      modifies this
      ensures old(output) <= output && mDTopen == old(mDTopen) && ReadsSame(old(output), output)
      ensures rest == t || (t != "" && t[0] == ' ' && rest == t[1..])
      ensures rules.opensBlock(t) || Payable(pending, old(mLastSection), inBlock, old(mInPre)) ==>
                (owed != Nothing ==> IsBlank(t)) && Payable(owed, mLastSection, inBlockElem, mInPre)
      ensures var flow := Flow(old(mLastSection), pending, inBlock);
              && Flow(mLastSection, owed, inBlockElem) == ParaFlow(t, old(mInPre), flow, rules)
              && output == old(output) + ParaWrites(t, old(mInPre), flow, rules)
      ensures mInPre == if rules.opensBlock(t) || rules.closesBlock(t) then
                          rules.opensPre(line) && !rules.closesPre(line)
                        else old(mInPre)
      ensures InSection(old(output), old(mLastSection), pending) ==> InSection(output, mLastSection, owed)
    {
      rest, inBlockElem, owed := t, inBlock, pending;
      assert output + [] == output;
      if rules.opensBlock(t) || rules.closesBlock(t) {
        BlockLine(line, rules);
        inBlockElem, owed := !rules.closesBlock(t), Nothing;
      } else if !inBlockElem && !mInPre {
        if t != "" && t[0] == ' ' && (mLastSection == InPre || !IsBlank(t)) {
          if mLastSection != InPre {
            owed := Nothing;
            StartSection(InPre);
          }
          rest := t[1..];
        } else if IsBlank(t) {
          owed := BlankLine(owed);
        } else {
          TextLine(owed);
          owed := Nothing;
        }
      }
    }

    /** The list part of a line. */
    method DoLists(prefix: string, t: string, lastPrefix: string, pending: Pending, rules: Rules, ghost l: Lists,
                   ghost item: Spots)
      returns (rest: string, last: string, owed: Pending)
      requires Proper(l) && lastPrefix == l.prefix && IsPrefix(prefix)
      requires item == ItemSpots(l, mLastSection, prefix, SpotsOf(output))
      modifies this
      ensures last == Folded(prefix) && mInPre == (old(mInPre) && !Opens(l, prefix))
      ensures rest == BodyOf(prefix, t, rules)
      ensures InkOf(output) + Ink(rest) == InkOf(old(output)) + ItsInk(prefix, t, rules)
      ensures owed == if prefix != "" || l.prefix != "" then Nothing else pending
      ensures mLastSection == if Opens(l, prefix) then NoSection else old(mLastSection)
      ensures Goes(old(output), old(mDTopen), l, old(mLastSection), pending) && !Broken(output) ==>
                MarksOf(output) == MarksOf(old(output)) + TermMarks(prefix, t, rules, item)
      ensures SpotsOf(output) == SplitSpots(Splits(prefix, t, rules), item)
      ensures var next := l.(prefix := last, term := TermAfter(l, prefix, t, rules));
              Moves(old(output), old(mDTopen), old(mLastSection), pending, l, output, mDTopen, mLastSection, owed, next)
    {
      var prefix2 := Folded(prefix);
      last, rest, owed := lastPrefix, t, pending;
      if prefix != "" && lastPrefix == prefix2 {
        rest := SameList(prefix, t, rules, l);
        owed := Nothing;
      } else if prefix != "" || lastPrefix != "" {
        rest := ChangeLists(prefix, lastPrefix, t, rules, l, pending, item);
        owed := Nothing;
        last := prefix2;
      }
    }

    /** Parts a line from its list characters, unless it is inside of preformatted text. */
    method TakePrefix(line: string, rules: Rules, ghost l: Lists) returns (prefix: string, t: string)
      requires mInPre == l.inPre
      modifies this`mInPre
      ensures prefix == PrefixOf(l, line) && t == RestOf(l, line) && mInPre == (l.inPre || rules.opensPre(line))
    {
      prefix, t := "", line;
      if !mInPre {
        prefix, t := line[..PrefixLength(line)], line[PrefixLength(line)..];
        mInPre := rules.opensPre(line);
      }
    }

    /** One line. */
    method DoLine(line: string, lastPrefix: string, inBlock: bool, pending: Pending, rules: Rules, ghost l: Lists)
      returns (last: string, inBlockElem: bool, owed: Pending)
      requires Proper(l) && lastPrefix == l.prefix && mInPre == l.inPre && MayFollow(l, line)
      modifies this
      ensures last == NextLists(l, line, rules).prefix && mInPre == NextLists(l, line, rules).inPre
      ensures Consistent(rules) && Payable(pending, old(mLastSection), inBlock, old(mInPre)) ==>
                && InkOf(output) == InkOf(old(output)) + LineInk(l, line, rules)
                && Payable(owed, mLastSection, inBlockElem, mInPre)
      ensures var flow := Flow(old(mLastSection), pending, inBlock);
              && Flow(mLastSection, owed, inBlockElem) == NextFlow(l, flow, line, rules)
              && (Consistent(rules) && Payable(pending, old(mLastSection), inBlock, old(mInPre))
                  && Goes(old(output), old(mDTopen), l, old(mLastSection), pending) && !Broken(output) ==>
                    MarksOf(output) == MarksOf(old(output)) + LineMarks(l, flow, line, rules, SpotsOf(old(output))))
              && SpotsOf(output) == NextSpots(l, flow, line, rules, SpotsOf(old(output)))
      ensures Moves(old(output), old(mDTopen), old(mLastSection), pending, l,
                    output, mDTopen, mLastSection, owed, NextLists(l, line, rules))
    {
      PrefixIsProper(l, line, rules);
      LineReads(l, Flow(mLastSection, pending, inBlock), line, rules, SpotsOf(output), MarksOf(output));
      var prefix, t := TakePrefix(line, rules, l);
      last, inBlockElem, owed := DoParts(prefix, t, line, lastPrefix, inBlock, pending, rules, l);
    }

    /** The lists of a line, and what is left of it. */
    method DoParts(prefix: string, t: string, line: string, lastPrefix: string, inBlock: bool, pending: Pending,
                   rules: Rules, ghost l: Lists)
      returns (last: string, inBlockElem: bool, owed: Pending)
      requires Proper(l) && lastPrefix == l.prefix && IsPrefix(prefix) && mInPre == (l.inPre || rules.opensPre(line))
      modifies this
      ensures var next := ListsBehind(l, prefix, t, line, rules);
              && last == next.prefix && mInPre == next.inPre
              && Moves(old(output), old(mDTopen), old(mLastSection), pending, l,
                       output, mDTopen, mLastSection, owed, next)
      ensures var flow := FlowBehind(l, Flow(old(mLastSection), pending, inBlock), prefix, t, old(mInPre), rules);
              Flow(mLastSection, owed, inBlockElem) == flow
      ensures prefix != "" || rules.opensBlock(t) || Payable(pending, old(mLastSection), inBlock, old(mInPre)) ==>
                && InkOf(output) == InkOf(old(output)) + ItsInk(prefix, t, rules)
                && Payable(owed, mLastSection, inBlockElem, mInPre)
                && (Goes(old(output), old(mDTopen), l, old(mLastSection), pending) && !Broken(output) ==>
                      var open := AllOpen(ListsBehind(l, prefix, t, line, rules), mLastSection);
                      var item := ItemSpots(l, old(mLastSection), prefix, SpotsOf(old(output)));
                      MarksOf(output)
                      == MarksOf(old(output)) + TermMarks(prefix, t, rules, item)
                         + Marks(BodyOf(prefix, t, rules), Around(Some(open), SpotsOf(output).begun)))
      ensures SpotsOf(output) == SpotsBehind(l, Flow(old(mLastSection), pending, inBlock), prefix, t, old(mInPre),
                                             rules, SpotsOf(old(output)))
    {
      ghost var next := ListsBehind(l, prefix, t, line, rules);
      var rest, given;
      rest, last, given := DoLists(prefix, t, lastPrefix, pending, rules, l,
                                   ItemSpots(l, mLastSection, prefix, SpotsOf(output)));
      ghost var mid := output;
      inBlockElem, owed := FinishLine(rest, line, prefix != "", inBlock, given, rules, next);
      if Broken(mid) {
        BrokenStays(mid, output);
      }
    }

    /** What is left of a line behind its lists. */
    method FinishLine(t: string, line: string, inList: bool, inBlock: bool, given: Pending, rules: Rules,
                      ghost next: Lists)
      returns (inBlockElem: bool, owed: Pending)
      requires if inList then given == Nothing else next.prefix == "" && !next.term
      modifies this
      ensures old(output) <= output
      ensures mInPre == StaysInPre(t, line, inList, old(mInPre), rules)
      ensures inList || rules.opensBlock(t) || Payable(given, old(mLastSection), inBlock, old(mInPre)) ==>
                && InkOf(output) == InkOf(old(output)) + Ink(t)
                && Payable(owed, mLastSection, inBlockElem, mInPre)
                && (Goes(old(output), old(mDTopen), next, old(mLastSection), given) ==>
                      MarksOf(output) == MarksOf(old(output))
                                         + Marks(t, Around(Some(AllOpen(next, mLastSection)), SpotsOf(output).begun)))
      ensures var flow := Flow(old(mLastSection), given, inBlock);
              Flow(mLastSection, owed, inBlockElem) == if inList then flow else ParaFlow(t, old(mInPre), flow, rules)
      ensures var (flow, s) := (Flow(old(mLastSection), given, inBlock), SpotsOf(old(output)));
              SpotsOf(output) == if inList then s else ParaSpots(t, old(mInPre), flow, rules, s)
      ensures Goes(old(output), old(mDTopen), next, old(mLastSection), given) ==>
                Goes(output, mDTopen, next, mLastSection, owed)
    {
      inBlockElem, owed := inBlock, given;
      var text := t;
      if !inList {
        GoesInSection(output, mDTopen, next, mLastSection, given);
        ParaSpotsAre(output, t, mInPre, Flow(mLastSection, given, inBlock), rules);
        text, inBlockElem, owed := Paragraphs(t, line, inBlock, given, rules);
        GoesInSection(output, mDTopen, next, mLastSection, owed);
      }
      if rules.closesPre(line) && mInPre {
        mInPre := false;
      }
      TextOfLine(t, text, AroundOf(output));
      if owed == Nothing {
        AddText(text + "\n");
      }
    }

    method AddText(text: string)
      modifies this`output
      ensures output == old(output) + [Text(text)] && InkOf(output) == InkOf(old(output)) + Ink(text)
      ensures MarksOf(output) == MarksOf(old(output)) + Marks(text, AroundOf(old(output)))
      ensures AroundOf(output) == AroundOf(old(output)) && SpotsOf(output) == SpotsOf(old(output))
    {
      ghost var was := output;
      InkOfNext(output, Text(text));
      MarksOfNext(output, Text(text));
      SpotsNext(output, Text(text));
      output := output + [Text(text)];
      if Broken(was) {
        BrokenStays(was, output);
      } else {
        EmitText(was, text);
      }
    }

    /** Closes the lists of the last line, and the section. */
    method Finish(last: string, pending: Pending, ghost l: Lists)
      requires Proper(l) && last == l.prefix
      modifies this
      ensures ReadsSame(old(output), output)
      ensures Broken(old(output)) ==> Broken(output)
      ensures Goes(old(output), old(mDTopen), l, old(mLastSection), pending) ==>
                if Doomed(l) then Broken(output) else WellNested(output)
    {
      ghost var (was, going) := (output, Goes(output, mDTopen, l, mLastSection, pending));
      assert Tags(l.prefix, |l.prefix|, l.term) + SectionTags(NoSection) == Tags(l.prefix, |l.prefix|, l.term);
      if l.prefix == "" {
        GoesInSection(output, mDTopen, l, mLastSection, pending);
      }
      CloseLists(last, 0, l);
      ghost var closed := output;
      TagsReadSame(output, [Close(Para)]);
      TagsReadSame(output, [Close(Pre)]);
      if mLastSection == InPara {
        output := output + [Close(Para)];
      } else if mLastSection == InPre {
        output := output + [Close(Pre)];
      }
      if Broken(closed) {
        BrokenStays(closed, output);
      } else if going && mLastSection != NoSection {
        CloseOfSection(closed, mLastSection);
      }
      if Broken(was) {
        BrokenStays(was, output);
      }
      mLastSection := NoSection;
    }

    /** Between two lines: all is as planned, behind what was read before. */
    ghost predicate IsAt(p: Plan, last: string, inBlockElem: bool, pending: Pending, rules: Rules, ink: string,
                         marks: seq<Mark<Tag>>)
      reads this
    {
      && Follows(p.clean, p.s.l, output, mDTopen, mLastSection, pending)
      && last == p.s.l.prefix && mInPre == p.s.l.inPre
      && Flow(mLastSection, pending, inBlockElem) == p.s.flow && SpotsOf(output) == p.s.spots
      && (Consistent(rules) ==>
            && Payable(pending, mLastSection, inBlockElem, mInPre) && InkOf(output) == ink + p.ink
            && (p.clean ==> MarksOf(output) == marks + p.marks))
    }

    /** One line, as planned. */
    method DoNextLine(line: string, lastPrefix: string, inBlock: bool, pending: Pending, rules: Rules,
                      ghost p: Plan, ghost next: Plan, ghost ink: string, ghost marks: seq<Mark<Tag>>)
      returns (last: string, inBlockElem: bool, owed: Pending)
      requires IsAt(p, lastPrefix, inBlock, pending, rules, ink, marks)
      requires MayFollow(p.s.l, line) && next == NextPlan(p, line, rules)
      modifies this
      ensures IsAt(next, last, inBlockElem, owed, rules, ink, marks)
    {
      ghost var (was, wasDt, wasSection) := (output, mDTopen, mLastSection);
      last, inBlockElem, owed := DoLine(line, lastPrefix, inBlock, pending, rules, p.s.l);
      FollowsNext(p.clean, p.s.l, line, rules, was, wasDt, wasSection, pending, output, mDTopen, mLastSection, owed);
      if Consistent(rules) {
        ReadsNext(p, line, rules, next, was, output, ink, marks);
      }
    }

    /** One line of the text. */
    method DoLineAt(lines: seq<string>, k: nat, lastPrefix: string, inBlock: bool, pending: Pending, rules: Rules,
                    ghost start: nat, ghost plan: seq<Plan>, ghost ink: string, ghost marks: seq<Mark<Tag>>)
      returns (last: string, inBlockElem: bool, owed: Pending)
      requires start <= k < |lines| && IsPlan(plan, lines, start, rules)
      requires IsAt(plan[k], lastPrefix, inBlock, pending, rules, ink, marks)
      modifies this
      ensures IsAt(plan[k + 1], last, inBlockElem, owed, rules, ink, marks)
    {
      LineFollows(plan, lines, start, rules, k);
      last, inBlockElem, owed :=
        DoNextLine(lines[k], lastPrefix, inBlock, pending, rules, plan[k], plan[k + 1], ink, marks);
    }

    /**
     The output is well nested if and only if no line opens a definition list inside of one whose first item is
     still a term. Then each text stands in the lists of its line, or in a paragraph, or is preformatted, as the lines
     up to it have it, and in just those of these tags that the lines have opened for it.
     */
    method DoBlockLevels(textLines: seq<string>, linestart: bool, rules: Rules)
      requires output == [] && mLastSection == NoSection && (linestart || textLines != [])
      requires Terms(textLines, if linestart then 0 else 1, FirstState(mInPre), rules)
      modifies this
      ensures var (start, first) := (if linestart then 0 else 1, FirstState(old(mInPre)));
              && (WellNested(output) <==> Clean(textLines, start, first, rules))
              && (Consistent(rules) ==>
                    InkOf(output) == (if linestart then "" else Ink(textLines[0])) +
                                     PlanOf(textLines, start, first, rules).ink)
              && (Consistent(rules) && Clean(textLines, start, first, rules) ==>
                    MarksOf(output) == (if linestart then [] else Marks(textLines[0], Around(Some([]), []))) +
                                       PlanOf(textLines, start, first, rules).marks)
    {
      mDTopen := false;
      ghost var first := FirstState(mInPre);
      var k := 0;
      if !linestart {
        AddText(textLines[0]);
        k := 1;
      }
      assert InkOf(output) == if linestart then "" else Ink(textLines[0]);
      assert MarksOf(output) == if linestart then [] else Marks(textLines[0], Around(Some([]), []));
      GoesInSection(output, mDTopen, first.l, mLastSection, Nothing);
      ghost var plan := PlanIsMade(textLines, k, first, rules);
      ghost var (ink, marks) := (InkOf(output), MarksOf(output));
      assert ink + "" == ink && marks + [] == marks;
      var lastPrefix, pending := DoLines(textLines, k, rules, plan, ink, marks);
      Finish(lastPrefix, pending, plan[|textLines|].s.l);
    }

    /** All lines from one on. */
    method DoLines(textLines: seq<string>, start: nat, rules: Rules, ghost plan: seq<Plan>, ghost ink: string,
                   ghost marks: seq<Mark<Tag>>)
      returns (lastPrefix: string, pending: Pending)
      requires IsPlan(plan, textLines, start, rules)
      requires IsAt(plan[start], "", false, Nothing, rules, ink, marks)
      modifies this
      ensures var last := plan[|textLines|];
              && lastPrefix == last.s.l.prefix
              && Follows(last.clean, last.s.l, output, mDTopen, mLastSection, pending)
              && (Consistent(rules) ==>
                    InkOf(output) == ink + last.ink && (last.clean ==> MarksOf(output) == marks + last.marks))
    {
      var inBlockElem, k := false, start;
      lastPrefix, pending := "", Nothing;
      while k < |textLines|
        invariant start <= k <= |textLines|
        invariant IsAt(plan[k], lastPrefix, inBlockElem, pending, rules, ink, marks)
      {
        lastPrefix, inBlockElem, pending :=
          DoLineAt(textLines, k, lastPrefix, inBlockElem, pending, rules, start, plan, ink, marks);
        k := k + 1;
      }
    }
  }
}
