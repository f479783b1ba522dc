/**
 The table of contents of Parser::formatHeadings: how deep each heading is indented, and its number.
 */
module HeadingLevels {
  import opened Dotted

  // ---- what the numbers are

  /** The levels of the headings around and including this one, and how many there are at each. */
  datatype Place = Place(levels: seq<nat>, counts: seq<nat>)

  function BelowFrom(levels: seq<nat>, level: nat, i: nat): (k: nat)
    requires i <= |levels|
    ensures i <= k <= |levels| && (k < |levels| ==> levels[k] >= level)
    decreases |levels| - i
  {
    if i == |levels| || levels[i] >= level then i else BelowFrom(levels, level, i + 1)
  }

  /** How many of the levels are below this one; they come first. */
  function Below(levels: seq<nat>, level: nat): (k: nat)
    ensures k <= |levels| && (k < |levels| ==> levels[k] >= level)
  {
    BelowFrom(levels, level, 0)
  }

  lemma {:induction false} AllBelow(levels: seq<nat>, level: nat, i: nat)
    requires i <= |levels|
    ensures forall j :: i <= j < BelowFrom(levels, level, i) ==> levels[j] < level
    decreases |levels| - i
  {
    if i < |levels| && levels[i] < level {
      AllBelow(levels, level, i + 1);
    }
  }

  predicate Rises(levels: seq<nat>) { forall i, j :: 0 <= i < j < |levels| ==> levels[i] < levels[j] }

  lemma {:induction false} BelowFromIs(levels: seq<nat>, level: nat, i: nat, k: nat)
    requires i <= k <= |levels| && (forall j :: i <= j < k ==> levels[j] < level)
    requires k < |levels| ==> levels[k] >= level
    ensures BelowFrom(levels, level, i) == k
    decreases k - i
  {
    if i < k {
      BelowFromIs(levels, level, i + 1, k);
    }
  }

  lemma BelowIs(levels: seq<nat>, level: nat, k: nat)
    requires k <= |levels| && (forall i :: 0 <= i < k ==> levels[i] < level) && (k < |levels| ==> levels[k] >= level)
    ensures Below(levels, level) == k
  {
    BelowFromIs(levels, level, 0, k);
  }

  /** A heading ends all those of its own level or a deeper one, and counts on from the one it follows. */
  function Next(p: Place, level: nat): Place
    requires |p.counts| == |p.levels|
  {
    var k := Below(p.levels, level);
    Place(p.levels[..k] + [level], if k < |p.counts| then p.counts[..k] + [p.counts[k] + 1] else p.counts + [1])
  }

  /** After the first `n` headings. */
  function After(headings: seq<nat>, n: nat): (p: Place)
    requires n <= |headings|
    ensures |p.counts| == |p.levels| && (n > 0 ==> p.levels != [] && p.levels[|p.levels| - 1] == headings[n - 1])
  {
    if n == 0 then Place([], []) else Next(After(headings, n - 1), headings[n - 1])
  }

  predicate AreLevels(levels: seq<nat>) { forall i :: 0 <= i < |levels| ==> 1 <= levels[i] <= 6 }

  /** The levels on the way to a heading rise strictly, so there are no more than six of them. */
  lemma {:induction false} LevelsRise(headings: seq<nat>, n: nat)
    requires n <= |headings| && AreLevels(headings)
    ensures var levels := After(headings, n).levels; Rises(levels) && AreLevels(levels) && |levels| <= 6
  {
    if n > 0 {
      LevelsRise(headings, n - 1);
      NextRises(After(headings, n - 1), headings[n - 1]);
      RisesSoFar(After(headings, n).levels);
    }
  }

  lemma NextRises(p: Place, level: nat)
    requires |p.counts| == |p.levels| && Rises(p.levels) && AreLevels(p.levels) && 1 <= level <= 6
    ensures Rises(Next(p, level).levels) && AreLevels(Next(p, level).levels)
  {
    AllBelow(p.levels, level, 0);
  }

  lemma {:induction false} RisesSoFar(levels: seq<nat>)
    requires Rises(levels) && AreLevels(levels)
    ensures levels != [] ==> levels[|levels| - 1] >= |levels|
  {
    if |levels| > 1 {
      RisesSoFar(levels[..|levels| - 1]);
    }
  }

  /** The numbers of the headings in order. */
  function Numbers(headings: seq<nat>): seq<seq<nat>> {
    seq(|headings|, i requires 0 <= i < |headings| => After(headings, i + 1).counts)
  }

  /** Each heading's number comes before those of all headings that follow: no two are the same. */
  lemma NumbersDiffer(headings: seq<nat>, i: nat, j: nat)
    requires i < j < |headings|
    ensures Before(After(headings, i + 1).counts, After(headings, j + 1).counts)
    ensures Label(After(headings, i + 1).counts) != Label(After(headings, j + 1).counts)
  {
    var numbers := Numbers(headings);
    forall k | 0 <= k < |numbers| - 1 ensures Before(numbers[k], numbers[k + 1]) {
      NextIsBehind(After(headings, k + 1), headings[k + 1]);
    }
    AllBefore(numbers, i, j);
    if Label(numbers[i]) == Label(numbers[j]) {
      LabelsDiffer(numbers[i], numbers[j]);
    }
  }

  lemma NextIsBehind(p: Place, level: nat)
    requires |p.counts| == |p.levels|
    ensures Before(p.counts, Next(p, level).counts)
  {
    assert BeforeAt(p.counts, Next(p, level).counts, Below(p.levels, level));
  }

  // ---- what is written

  datatype Event =
    | Indent
    | Unindent(count: int)
    | LineEnd
    | Line(number: string, toclevel: nat)

  /** How many lists an event opens. */
  function Opens(e: Event): int {
    match e
    case Indent => 1
    case Unindent(count) => -count
    case LineEnd => 0
    case Line(_, _) => 0
  }

  /** How many lists are open after the first `k` events. */
  function Depth(events: seq<Event>, k: nat): int
    requires k <= |events|
  {
    if k == 0 then 0 else Depth(events, k - 1) + Opens(events[k - 1])
  }

  /** Only what is open is closed, but never all of it, and each line is as deep as it says. */
  predicate FitsAt(e: Event, depth: int) {
    match e
    case Indent => true
    case Unindent(count) => 0 <= count < depth
    case LineEnd => depth >= 1
    case Line(_, toclevel) => toclevel >= 1 && depth == toclevel
  }

  predicate FitsUpTo(events: seq<Event>, n: nat)
    requires n <= |events|
  {
    n == 0 || (FitsUpTo(events, n - 1) && FitsAt(events[n - 1], Depth(events, n - 1)))
  }

  predicate Fits(events: seq<Event>) { FitsUpTo(events, |events|) }

  /** The depth that is written for a heading at this one. */
  function Shown(toclevel: nat, maxLevel: int): nat {
    if toclevel < maxLevel then toclevel else if maxLevel >= 1 then maxLevel - 1 else 0
  }

  /** The lines written for the first `n` headings: those that are not too deep. */
  function LinesOf(headings: seq<nat>, n: nat, maxLevel: int): seq<Event>
    requires n <= |headings|
  {
    if n == 0 then []
    else
      var p := After(headings, n);
      LinesOf(headings, n - 1, maxLevel) + if |p.levels| < maxLevel then [Line(Label(p.counts), |p.levels|)] else []
  }

  function LinesUpTo(events: seq<Event>, n: nat): seq<Event>
    requires n <= |events|
  {
    if n == 0 then [] else LinesUpTo(events, n - 1) + if events[n - 1].Line? then [events[n - 1]] else []
  }

  function LinesIn(events: seq<Event>): seq<Event> { LinesUpTo(events, |events|) }

  lemma {:induction false} LinesSeePrefix(a: seq<Event>, b: seq<Event>, n: nat)
    requires n <= |a| && n <= |b| && forall i :: 0 <= i < n ==> a[i] == b[i]
    ensures LinesUpTo(a, n) == LinesUpTo(b, n)
  {
    if n > 0 {
      LinesSeePrefix(a, b, n - 1);
    }
  }

  lemma {:induction false} DepthSeesPrefix(a: seq<Event>, b: seq<Event>, k: nat)
    requires k <= |a| && k <= |b| && forall i :: 0 <= i < k ==> a[i] == b[i]
    ensures Depth(a, k) == Depth(b, k)
  {
    if k > 0 {
      DepthSeesPrefix(a, b, k - 1);
    }
  }

  lemma DepthOfLonger(events: seq<Event>, e: Event)
    ensures Depth(events + [e], |events|) == Depth(events, |events|)
    ensures Depth(events + [e], |events| + 1) == Depth(events, |events|) + Opens(e)
  {
    DepthSeesPrefix(events + [e], events, |events|);
  }

  lemma {:induction false} FitsSeesPrefix(a: seq<Event>, b: seq<Event>, n: nat)
    requires n <= |a| && n <= |b| && forall i :: 0 <= i < n ==> a[i] == b[i]
    ensures FitsUpTo(a, n) == FitsUpTo(b, n)
  {
    if n > 0 {
      FitsSeesPrefix(a, b, n - 1);
      DepthSeesPrefix(a, b, n - 1);
    }
  }

  /** Adding an event that fits. */
  lemma EventFits(events: seq<Event>, e: Event)
    requires Fits(events) && FitsAt(e, Depth(events, |events|))
    ensures Fits(events + [e])
  {
    FitsSeesPrefix(events, events + [e], |events|);
    DepthSeesPrefix(events, events + [e], |events|);
  }

  lemma LinesInLonger(events: seq<Event>, e: Event)
    ensures LinesIn(events + [e]) == LinesIn(events) + if e.Line? then [e] else []
  {
    LinesSeePrefix(events, events + [e], |events|);
  }

  /** In front of each line there is just one event that is none: it opens a list, or ends the line before. */
  predicate AlternatesTo(events: seq<Event>, n: nat)
    requires n <= |events|
  {
    n == 0 || (AlternatesTo(events, n - 1) && (events[n - 1].Line? <==> n % 2 == 0))
  }

  predicate Alternates(events: seq<Event>) { AlternatesTo(events, |events|) }

  lemma {:induction false} AlternatesSeesPrefix(a: seq<Event>, b: seq<Event>, n: nat)
    requires n <= |a| && n <= |b| && forall i :: 0 <= i < n ==> a[i] == b[i]
    ensures AlternatesTo(a, n) == AlternatesTo(b, n)
  {
    if n > 0 {
      AlternatesSeesPrefix(a, b, n - 1);
    }
  }

  /** A heading that is shown writes such an event and its line, any other nothing. */
  ghost predicate WritesOne(events: seq<Event>, more: seq<Event>, shown: bool) {
    if shown then exists e: Event, line: Event :: !e.Line? && line.Line? && more == events + [e] + [line]
    else more == events
  }

  lemma StillAlternates(events: seq<Event>, e: Event)
    requires Alternates(events) && (e.Line? <==> |events| % 2 == 1)
    ensures Alternates(events + [e])
  {
    AlternatesSeesPrefix(events, events + [e], |events|);
  }

  lemma OneMoreAlternates(events: seq<Event>, more: seq<Event>, shown: bool)
    requires Alternates(events) && |events| % 2 == 0 && WritesOne(events, more, shown)
    ensures Alternates(more) && |more| % 2 == 0
  {
    if shown {
      var e: Event, line: Event :| !e.Line? && line.Line? && more == events + [e] + [line];
      StillAlternates(events, e);
      StillAlternates(events + [e], line);
    }
  }

  // ---- formatHeadings

  /** The array has these numbers at 1, 2 and so on. */
  ghost predicate Holds(numbers: map<nat, nat>, list: seq<nat>) {
    forall i :: 1 <= i <= |list| ==> i in numbers && numbers[i] == list[i - 1]
  }

  /** The two arrays agree with the place up to its depth; what is behind is of no account. */
  ghost predicate Tracks(p: Place, levelCount: map<nat, nat>, sublevelCount: map<nat, nat>) {
    && |p.counts| == |p.levels|
    && Holds(levelCount, p.levels) && Holds(sublevelCount, p.counts)
  }

  /** Where to go from a heading to one of a smaller level: the loop from "Found last matching level" on. */
  method Jump(levelCount: map<nat, nat>, toclevel: nat, level: nat, ghost levels: seq<nat>) returns (k: nat)
    requires toclevel == |levels| >= 1 && Rises(levels) && levels[toclevel - 1] >= level
    requires Holds(levelCount, levels)
    ensures k == Below(levels, level) + 1 <= toclevel
  {
    var i := toclevel;
    while i > 0
      invariant 0 <= i <= toclevel && forall j :: i <= j < toclevel ==> levels[j] > level
      invariant i == toclevel ==> levels[i - 1] >= level
    {
      assert levelCount[i] == levels[i - 1];
      if levelCount[i] == level {
        BelowIs(levels, level, i - 1);
        return i;
      } else if levelCount[i] < level {
        BelowIs(levels, level, i);
        return i + 1;
      }
      i := i - 1;
    }
    BelowIs(levels, level, 0);
    return 1;
  }

  /** The number of a heading, from the counts of the levels around it. */
  method Numbering(sublevelCount: map<nat, nat>, toclevel: nat, ghost counts: seq<nat>) returns (numbering: string)
    requires toclevel == |counts| >= 1 && forall i :: 0 <= i < toclevel ==> counts[i] >= 1
    requires Holds(sublevelCount, counts)
    ensures numbering == Label(counts)
  {
    numbering := "";
    var dot := false;
    var i := 1;
    while i <= toclevel
      invariant 1 <= i <= toclevel + 1 && dot == (i > 1)
      invariant numbering == if i == 1 then "" else Label(counts[..i - 1])
    {
      assert sublevelCount[i] == counts[i - 1];
      if sublevelCount[i] != 0 {
        if dot {
          numbering := numbering + ".";
          LabelOfLonger(counts[..i - 1], counts[i - 1]);
        }
        assert counts[..i] == counts[..i - 1] + [counts[i - 1]];
        numbering := numbering + Decimal(sublevelCount[i]);
        dot := true;
      }
      i := i + 1;
    }
    assert counts[..toclevel] == counts;
  }

  lemma {:induction false} CountsArePositive(headings: seq<nat>, n: nat)
    requires n <= |headings|
    ensures forall i :: 0 <= i < |After(headings, n).counts| ==> After(headings, n).counts[i] >= 1
  {
    if n > 0 {
      CountsArePositive(headings, n - 1);
    }
  }

  /** How the level of a heading compares with that of the last tells where it goes. */
  lemma WhereNext(levels: seq<nat>, level: nat)
    requires levels != [] && Rises(levels)
    ensures var (k, n, last) := (Below(levels, level), |levels|, levels[|levels| - 1]);
            && (level > last ==> k == n)
            && (level <= last ==> k < n)
            && (level == last || (n == 1 && level < last) ==> k == n - 1)
  {
    if level > levels[|levels| - 1] {
      BelowIs(levels, level, |levels|);
    } else if level == levels[|levels| - 1] {
      BelowIs(levels, level, |levels| - 1);
    } else {
      AllBelow(levels, level, 0);
    }
  }

  /** What has been written after `n` headings. */
  ghost predicate Written(headings: seq<nat>, n: nat, maxLevel: int, enoughToc: bool, toc: seq<Event>,
                          prevtoclevel: nat) {
    && n <= |headings| && Fits(toc)
    && Depth(toc, |toc|) == prevtoclevel == Shown(|After(headings, n).levels|, maxLevel)
    && LinesIn(toc) == (if enoughToc then LinesOf(headings, n, maxLevel) else [])
    && (enoughToc ==> Alternates(toc) && |toc| % 2 == 0)
  }

  /** Moves from one depth to the next: a list more, some lists less, or the end of the line. */
  method Move(toc: seq<Event>, level: nat, prevlevel: nat, was: nat, toclevel: nat, prevtoclevel: nat, maxLevel: int)
    returns (more: seq<Event>, prev: nat)
    requires Fits(toc) && Depth(toc, |toc|) == prevtoclevel == Shown(was, maxLevel)
    requires if level > prevlevel then toclevel == was + 1 else 1 <= toclevel <= was && was >= 1
    requires (level < prevlevel && was > 1) || level > prevlevel || toclevel == was
    ensures Fits(more) && Depth(more, |more|) == prev == Shown(toclevel, maxLevel)
    ensures LinesIn(more) == LinesIn(toc)
    ensures if toclevel < maxLevel then |more| == |toc| + 1 && more == toc + [more[|toc|]] && !more[|toc|].Line?
            else more == toc
  {
    more, prev := toc, prevtoclevel;
    var e := LineEnd;
    if level > prevlevel {
      if toclevel < maxLevel {
        prev, e := toclevel, Indent;
      }
    } else if level < prevlevel && was > 1 {
      if toclevel < maxLevel && prevtoclevel < maxLevel {
        prev, e := toclevel, Unindent(prevtoclevel - toclevel);
      }
    }
    if toclevel < maxLevel {
      DepthOfLonger(toc, e);
      EventFits(toc, e);
      LinesInLonger(toc, e);
      more := toc + [e];
    }
  }

  lemma TracksNext(p: Place, level: nat, levelCount: map<nat, nat>, sublevelCount: map<nat, nat>, toclevel: nat)
    requires Tracks(p, levelCount, sublevelCount) && toclevel == Below(p.levels, level) + 1
    ensures var count := if toclevel <= |p.levels| then sublevelCount[toclevel] else 0;
            Tracks(Next(p, level), levelCount[toclevel := level], sublevelCount[toclevel := count + 1])
  {
    if toclevel <= |p.levels| {
      assert p.counts[toclevel - 1] == sublevelCount[toclevel];
    }
  }

  /** Goes to the depth of the next heading, and counts it. */
  method Enter(ghost p: Place, level: nat, prevlevel: nat, was: nat, levelCount: map<nat, nat>,
               sublevelCount: map<nat, nat>)
    returns (toclevel: nat, levels: map<nat, nat>, counts: map<nat, nat>)
    requires Tracks(p, levelCount, sublevelCount) && Rises(p.levels) && level >= 1 && was == |p.levels|
    requires prevlevel == if was == 0 then 0 else p.levels[was - 1]
    ensures Tracks(Next(p, level), levels, counts) && toclevel == |Next(p, level).levels|
    ensures if level > prevlevel then toclevel == was + 1 else 1 <= toclevel <= was
    ensures (level < prevlevel && was > 1) || level > prevlevel || toclevel == was
  {
    if was > 0 {
      WhereNext(p.levels, level);
    }
    toclevel, counts := was, sublevelCount;
    var count := 0;
    if level > prevlevel {
      toclevel := toclevel + 1;
    } else {
      if level < prevlevel && toclevel > 1 {
        toclevel := Jump(levelCount, toclevel, level, p.levels);
      }
      assert p.counts[toclevel - 1] == sublevelCount[toclevel];
      count := sublevelCount[toclevel];
    }
    TracksNext(p, level, levelCount, sublevelCount, toclevel);
    levels := levelCount[toclevel := level];
    counts := sublevelCount[toclevel := count + 1];
  }

  /** The number of the n-th heading, counted from 1. */
  function NumberOf(headings: seq<nat>, n: nat): string
    requires 0 < n <= |headings|
  {
    Label(After(headings, n).counts)
  }

  function NumbersOf(headings: seq<nat>, n: nat): (numbers: seq<string>)
    requires n <= |headings|
    ensures |numbers| == n
  {
    if n == 0 then [] else NumbersOf(headings, n - 1) + [NumberOf(headings, n)]
  }

  lemma {:induction false} NumbersAt(headings: seq<nat>, n: nat, i: nat)
    requires i < n <= |headings|
    ensures NumbersOf(headings, n)[i] == NumberOf(headings, i + 1)
  {
    if i < n - 1 {
      NumbersAt(headings, n - 1, i);
    }
  }

  lemma AfterNext(headings: seq<nat>, n: nat)
    requires n < |headings|
    ensures After(headings, n + 1) == Next(After(headings, n), headings[n])
  {
  }

  lemma WrittenNext(headings: seq<nat>, n: nat, maxLevel: int, enough: bool, toc: seq<Event>, prevtoclevel: nat,
                    more: seq<Event>, prev: nat, p: Place)
    requires n < |headings| && Written(headings, n, maxLevel, enough, toc, prevtoclevel)
    requires p == After(headings, n + 1) && p.levels != []
    requires Fits(more) && Depth(more, |more|) == prev == Shown(|p.levels|, maxLevel)
    requires LinesIn(more) == LinesIn(toc) + if enough && |p.levels| < maxLevel then [Line(Label(p.counts), |p.levels|)]
                                             else []
    requires enough ==> WritesOne(toc, more, |p.levels| < maxLevel)
    ensures Written(headings, n + 1, maxLevel, enough, more, prev)
  {
    if enough {
      OneMoreAlternates(toc, more, |p.levels| < maxLevel);
    }
  }

  /** The levels rise, and there is a heading at each. */
  predicate IsPlace(p: Place) {
    Rises(p.levels) && forall i :: 0 <= i < |p.counts| ==> p.counts[i] >= 1
  }

  lemma AfterIsPlace(headings: seq<nat>, n: nat)
    requires n <= |headings| && AreLevels(headings)
    ensures IsPlace(After(headings, n))
  {
    LevelsRise(headings, n);
    CountsArePositive(headings, n);
  }

  /** One turn of the loop, from the place of the last heading. */
  method FormatHeading(ghost p: Place, level: nat, prevlevel: nat, was: nat, prevtoclevel: nat, toc: seq<Event>,
                       levelCount: map<nat, nat>, sublevelCount: map<nat, nat>, maxLevel: int, enough: bool)
    returns (toclevel: nat, prev: nat, more: seq<Event>, levels: map<nat, nat>, counts: map<nat, nat>,
             numbering: string)
    requires Tracks(p, levelCount, sublevelCount) && IsPlace(p) && level >= 1 && was == |p.levels|
    requires prevlevel == if was == 0 then 0 else p.levels[was - 1]
    requires Fits(toc) && Depth(toc, |toc|) == prevtoclevel == Shown(was, maxLevel)
    ensures var next := Next(p, level);
            && Tracks(next, levels, counts) && toclevel == |next.levels| >= 1 && numbering == Label(next.counts)
            && LinesIn(more)
               == LinesIn(toc) + if enough && toclevel < maxLevel then [Line(numbering, toclevel)] else []
    ensures enough ==> WritesOne(toc, more, toclevel < maxLevel)
    ensures Fits(more) && Depth(more, |more|) == prev == Shown(toclevel, maxLevel)
  {
    toclevel, levels, counts := Enter(p, level, prevlevel, was, levelCount, sublevelCount);
    numbering := Numbering(counts, toclevel, Next(p, level).counts);
    more, prev := MoveAndAdd(toc, level, prevlevel, was, toclevel, prevtoclevel, maxLevel, enough, numbering);
  }

  /** The change of depth for a heading, and its line if it is not too deep. */
  method MoveAndAdd(toc: seq<Event>, level: nat, prevlevel: nat, was: nat, toclevel: nat, prevtoclevel: nat,
                    maxLevel: int, enough: bool, number: string)
    returns (more: seq<Event>, prev: nat)
    requires Fits(toc) && Depth(toc, |toc|) == prevtoclevel == Shown(was, maxLevel)
    requires if level > prevlevel then toclevel == was + 1 else 1 <= toclevel <= was && was >= 1
    requires (level < prevlevel && was > 1) || level > prevlevel || toclevel == was
    ensures Fits(more) && Depth(more, |more|) == prev == Shown(toclevel, maxLevel)
    ensures LinesIn(more) == LinesIn(toc) + if enough && toclevel < maxLevel then [Line(number, toclevel)] else []
    ensures enough ==> WritesOne(toc, more, toclevel < maxLevel)
  {
    more, prev := Move(toc, level, prevlevel, was, toclevel, prevtoclevel, maxLevel);
    if enough && toclevel < maxLevel {
      more := AddLine(more, number, toclevel);
    } else {
      assert LinesIn(toc) + [] == LinesIn(toc);
    }
  }

  method AddLine(toc: seq<Event>, number: string, toclevel: nat) returns (more: seq<Event>)
    requires Fits(toc) && toclevel >= 1 && Depth(toc, |toc|) == toclevel
    ensures Fits(more) && Depth(more, |more|) == toclevel && LinesIn(more) == LinesIn(toc) + [Line(number, toclevel)]
    ensures more == toc + [Line(number, toclevel)]
  {
    DepthOfLonger(toc, Line(number, toclevel));
    EventFits(toc, Line(number, toclevel));
    LinesInLonger(toc, Line(number, toclevel));
    more := toc + [Line(number, toclevel)];
  }

  /** Counts a heading that opens a list, and so the first one at least, unless nothing is shown. */
  method CountVisible(numVisible: nat, level: nat, prevlevel: nat, toclevel: nat, maxLevel: int, ghost n: nat)
    returns (now: nat)
    requires numVisible == 0 <==> n == 0 || maxLevel <= 1
    requires n == 0 ==> level > prevlevel && toclevel == 0
    ensures now == 0 <==> maxLevel <= 1
  {
    now := numVisible;
    if level > prevlevel && toclevel + 1 < maxLevel {
      now := now + 1;
    }
  }

  /** The n-th heading, counted from 0. */
  method FormatNth(headings: seq<nat>, n: nat, prevlevel: nat, was: nat, prevtoclevel: nat, toc: seq<Event>,
                   levelCount: map<nat, nat>, sublevelCount: map<nat, nat>, maxLevel: int, enough: bool)
    returns (toclevel: nat, prev: nat, more: seq<Event>, levels: map<nat, nat>, counts: map<nat, nat>,
             numbering: string)
    requires AreLevels(headings) && n < |headings|
    requires Tracks(After(headings, n), levelCount, sublevelCount) && was == |After(headings, n).levels|
    requires Written(headings, n, maxLevel, enough, toc, prevtoclevel)
    requires prevlevel == if n == 0 then 0 else headings[n - 1]
    ensures Tracks(After(headings, n + 1), levels, counts) && toclevel == |After(headings, n + 1).levels| >= 1
    ensures Written(headings, n + 1, maxLevel, enough, more, prev)
    ensures numbering == NumberOf(headings, n + 1)
  {
    ghost var p := After(headings, n);
    AfterNext(headings, n);
    AfterIsPlace(headings, n);
    toclevel, prev, more, levels, counts, numbering :=
      FormatHeading(p, headings[n], prevlevel, was, prevtoclevel, toc, levelCount, sublevelCount, maxLevel, enough);
    WrittenNext(headings, n, maxLevel, enough, toc, prevtoclevel, more, prev, Next(p, headings[n]));
  }

  /** The loop over the headings. */
  method FormatAll(headings: seq<nat>, maxLevel: int, enough: bool)
    returns (toc: seq<Event>, numbers: seq<string>, numVisible: nat, prevtoclevel: nat)
    requires AreLevels(headings)
    ensures numbers == NumbersOf(headings, |headings|)
    ensures Written(headings, |headings|, maxLevel, enough, toc, prevtoclevel)
    ensures numVisible == 0 <==> headings == [] || maxLevel <= 1
  {
    toc, numbers := [], [];
    var sublevelCount: map<nat, nat>, levelCount: map<nat, nat> := map[], map[];
    var level: nat, prevlevel: nat, toclevel: nat, n: nat := 0, 0, 0, 0;
    prevtoclevel, numVisible := 0, 0;
    while n < |headings|
      invariant n <= |headings|
      invariant Tracks(After(headings, n), levelCount, sublevelCount) && toclevel == |After(headings, n).levels|
      invariant Written(headings, n, maxLevel, enough, toc, prevtoclevel)
      invariant if n > 0 then level == headings[n - 1] && toclevel > 0 else prevlevel == toclevel == 0
      invariant numVisible == 0 <==> n == 0 || maxLevel <= 1
      invariant numbers == NumbersOf(headings, n)
    {
      if toclevel != 0 {
        prevlevel := level;
      }
      level := headings[n];
      numVisible := CountVisible(numVisible, level, prevlevel, toclevel, maxLevel, n);
      var numbering;
      toclevel, prevtoclevel, toc, levelCount, sublevelCount, numbering :=
        FormatNth(headings, n, prevlevel, toclevel, prevtoclevel, toc, levelCount, sublevelCount, maxLevel, enough);
      numbers := numbers + [numbering];
      n := n + 1;
    }
  }

  /**
   Each heading gets the number of its place; those that are not too deep get a line, at their own depth, behind the
   end of the line before or in a new list. All that is opened for them but the outermost list is closed.
   */
  method FormatHeadings(headings: seq<nat>, maxLevel: int, enough: bool)
    returns (toc: seq<Event>, numbers: seq<string>, enoughToc: bool)
    requires AreLevels(headings)
    ensures numbers == NumbersOf(headings, |headings|)
    ensures Fits(toc) && LinesIn(toc) == if enough then LinesOf(headings, |headings|, maxLevel) else []
    ensures enoughToc == (enough && headings != [] && maxLevel > 1)
    ensures enoughToc ==> Depth(toc, |toc|) == 1 && Alternates(toc) && !toc[|toc| - 1].Line?
  {
    var numVisible, prevtoclevel;
    toc, numbers, numVisible, prevtoclevel := FormatAll(headings, maxLevel, enough);
    enoughToc := enough && numVisible >= 1;
    if enoughToc {
      toc := CloseLists(toc, prevtoclevel, maxLevel);
    }
  }

  /** Closes all lists but the outermost. */
  method CloseLists(toc: seq<Event>, prevtoclevel: nat, maxLevel: int) returns (more: seq<Event>)
    requires Fits(toc) && Depth(toc, |toc|) == prevtoclevel && 1 <= prevtoclevel < maxLevel
    ensures Fits(more) && LinesIn(more) == LinesIn(toc) && Depth(more, |more|) == 1
    ensures Alternates(toc) && |toc| % 2 == 0 ==> Alternates(more) && !more[|more| - 1].Line?
  {
    more := toc;
    if prevtoclevel > 0 && prevtoclevel < maxLevel {
      DepthOfLonger(toc, Unindent(prevtoclevel - 1));
      EventFits(toc, Unindent(prevtoclevel - 1));
      LinesInLonger(toc, Unindent(prevtoclevel - 1));
      if Alternates(toc) && |toc| % 2 == 0 {
        StillAlternates(toc, Unindent(prevtoclevel - 1));
      }
      more := toc + [Unindent(prevtoclevel - 1)];
    }
  }
}
