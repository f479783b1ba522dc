/** Tags as they are written, with namespaces and attributes, and what the tag reader finds in them. */
module WrittenTags {
  import opened CharStream
  import opened TagReader

  /** `w` stands from `i` to `j`, and from `a` to `b` there is nothing else but spaces. */
  predicate StandsBetween(data: string, a: nat, i: nat, j: nat, b: nat, w: string) {
    && a <= i <= j <= b <= |data| && data[i..j] == w && Spaces(data, a, i) && Spaces(data, j, b)
    && (i < j ==> !IsSpace(data[i]) && !IsSpace(data[j - 1]))
  }

  /** `w` is the text from `a` to `b` without the spaces around it. */
  ghost predicate Trims(data: string, a: nat, b: nat, w: string) {
    exists i: nat, j: nat :: StandsBetween(data, a, i, j, b, w)
  }

  predicate Spaces(data: string, a: nat, b: nat) { forall q :: a <= q < b && q < |data| ==> IsSpace(data[q]) }

  lemma WordIs(data: string, a: nat, b: nat, w: string)
    requires Trims(data, a, b, w)
    ensures Word(data, a, b) == w
  {
    var i: nat, j: nat :| StandsBetween(data, a, i, j, b, w);
    WordBetween(data, a, i, j, b);
  }

  lemma {:induction false} WordBetween(data: string, a: nat, i: nat, j: nat, b: nat)
    requires a <= i <= j <= b <= |data| && Spaces(data, a, i) && Spaces(data, j, b)
    requires i < j ==> !IsSpace(data[i]) && !IsSpace(data[j - 1])
    ensures Word(data, a, b) == data[i..j]
    decreases b - a
  {
    if a < b {
      if j < b {
        WordBetween(data, a, i, j, b - 1);
      } else if a < i {
        if i < j {
          WordBetween(data, a + 1, i, j, b);
        } else {
          WordBetween(data, a, i - 1, i - 1, b - 1);
        }
      }
    }
  }

  /** Here nothing ends the tag, or makes a kind that wants nothing like itself inside of it give up. */
  predicate Quiet(t: Tagger, data: string, q: nat) {
    t.opener != "" && q < |data| && !Matches(data, q, t.closer) && (t.isWikicode || data[q] != t.opener[0])
  }

  predicate SeparatesName(t: Tagger, c: char) { c == t.nsDelim || c == t.delim || c == t.delim2 }

  predicate SeparatesAttribute(t: Tagger, c: char, isValue: bool) {
    c == t.attrDelim || c == t.attrDelim2 || (!isValue && c == t.attrValueDelim)
  }

  predicate IsNameAt(t: Tagger, data: string, q: nat) { Quiet(t, data, q) && !SeparatesName(t, data[q]) }

  predicate IsAttributeAt(t: Tagger, data: string, q: nat, isValue: bool) {
    Quiet(t, data, q) && !SeparatesAttribute(t, data[q], isValue)
  }

  /** The text of a name: it goes on up to where something separates it, or the tag ends. */
  predicate NameText(t: Tagger, data: string, a: nat, b: nat) {
    && t.canAbort && t.opener != "" && a <= b < |data| && (SeparatesName(t, data[b]) || Matches(data, b, t.closer))
    && forall q :: a <= q < b ==> IsNameAt(t, data, q)
  }

  predicate AttributeText(t: Tagger, data: string, a: nat, b: nat, isValue: bool) {
    && t.canAbort && t.opener != "" && a <= b < |data|
    && (SeparatesAttribute(t, data[b], isValue) || Matches(data, b, t.closer))
    && forall q :: a <= q < b ==> IsAttributeAt(t, data, q, isValue)
  }

  lemma {:induction false} NameTextStops(t: Tagger, data: string, a: nat, b: nat)
    requires NameText(t, data, a, b)
    ensures t.opener != "" && NameStop(t, data, a) == b
    decreases b - a
  {
    if a < b {
      assert IsNameAt(t, data, a);
      NameTextStops(t, data, a + 1, b);
    }
  }

  lemma {:induction false} AttributeTextStops(t: Tagger, data: string, a: nat, b: nat, isValue: bool)
    requires AttributeText(t, data, a, b, isValue)
    ensures t.opener != "" && AttributeStop(t, data, a, isValue) == b
    decreases b - a
  {
    if a < b {
      assert IsAttributeAt(t, data, a, isValue);
      AttributeTextStops(t, data, a + 1, b, isValue);
    }
  }

  /** An attribute as it is written: its name, if it has one, its value, and where the two stand. */
  datatype Attribute = Attribute(name: string, value: string, equals: nat, end: nat)

  function PairOf(a: Attribute): (string, string) { (a.name, a.value) }

  function PairsOf(attributes: seq<Attribute>, k: nat): seq<(string, string)>
    requires k <= |attributes|
    decreases |attributes| - k
  {
    if k == |attributes| then [] else [PairOf(attributes[k])] + PairsOf(attributes, k + 1)
  }

  /** The attribute begins at `p`: `name = value`, or a value alone, with spaces around each as one likes. */
  ghost predicate Stands(t: Tagger, data: string, p: nat, a: Attribute)
    requires t.opener != ""
  {
    if a.name == "" then
      && AttributeText(t, data, p, a.end, false) && data[a.end] != t.attrValueDelim
      && a.value != "" && Trims(data, p, a.end, a.value)
    else
      && AttributeText(t, data, p, a.equals, false) && data[a.equals] == t.attrValueDelim
      && Trims(data, p, a.equals, a.name)
      && AttributeText(t, data, a.equals, a.end, true) && a.equals < a.end && Trims(data, a.equals + 1, a.end, a.value)
  }

  lemma {:induction false} SpacesSkipped(data: string, a: nat, i: nat)
    requires a <= i < |data| && Spaces(data, a, i) && !IsSpace(data[i])
    ensures SpaceStop(data, a) == i
    decreases i - a
  {
    if a < i {
      SpacesSkipped(data, a + 1, i);
    }
  }

  /** Skipping the spaces in front changes neither where the text stops nor what is left of it without spaces. */
  lemma TextBehindSpaces(t: Tagger, data: string, a: nat, b: nat, w: string) returns (i: nat)
    requires t.opener != "" && AttributeText(t, data, a, b, false) && Trims(data, a, b, w) && w != ""
    ensures i == SpaceStop(data, a) && AttributeStop(t, data, i, false) == b && Word(data, i, b) == w
  {
    var j: nat;
    i, j :| StandsBetween(data, a, i, j, b, w);
    SpacesSkipped(data, a, i);
    AttributeTextStops(t, data, i, b, false);
    WordBetween(data, i, i, j, b);
  }

  /** One attribute is read as it is written. */
  lemma AttributeIsRead(t: Tagger, data: string, beyond: char, parts: Parts, p: nat, a: Attribute)
    requires t.opener != "" && parts.end == p && Stands(t, data, p, a)
    ensures WithAttribute(t, data, beyond, parts)
            == parts.(attributes := parts.attributes + [PairOf(a)], end := a.end)
  {
    if a.name == "" {
      var _ := TextBehindSpaces(t, data, p, a.end, a.value);
    } else {
      var _ := TextBehindSpaces(t, data, p, a.equals, a.name);
      AttributeTextStops(t, data, a.equals, a.end, true);
      WordIs(data, a.equals + 1, a.end, a.value);
    }
  }

  /** The attributes from the k-th on, one behind each separator, up to the end of the tag. */
  ghost predicate AllStand(t: Tagger, data: string, p: nat, attributes: seq<Attribute>, k: nat, end: nat)
    requires t.opener != "" && k < |attributes|
    decreases |attributes| - k
  {
    var a := attributes[k];
    && Stands(t, data, p, a)
    && if k + 1 == |attributes| then a.end == end && Matches(data, end, t.closer)
       else Separates(t, data, a.end) && AllStand(t, data, a.end + 1, attributes, k + 1, end)
  }

  lemma CloserSeparatesNothing(t: Tagger, data: string, end: nat)
    requires IsGood(t) && end < |data| && Matches(data, end, t.closer)
    ensures !Separates(t, data, end) && !SeparatesName(t, data[end])
  {
    MatchStarts(data, end, t.closer);
  }

  lemma FirstIsRead(t: Tagger, data: string, beyond: char, parts: Parts, p: nat, attributes: seq<Attribute>, k: nat,
                    end: nat)
    requires t.opener != "" && k < |attributes| && parts.end == p && AllStand(t, data, p, attributes, k, end)
    ensures WithAttribute(t, data, beyond, parts)
            == parts.(attributes := parts.attributes + [PairOf(attributes[k])], end := attributes[k].end)
  {
    AttributeIsRead(t, data, beyond, parts, p, attributes[k]);
  }

  lemma LastAttribute(t: Tagger, data: string, beyond: char, parts: Parts, p: nat, attributes: seq<Attribute>, k: nat,
                      end: nat)
    requires IsGood(t) && k + 1 == |attributes| && end < |data| && parts.end == p
    requires AllStand(t, data, p, attributes, k, end)
    ensures WithAttributes(t, data, beyond, parts)
            == parts.(attributes := parts.attributes + [PairOf(attributes[k])], end := end)
  {
    FirstIsRead(t, data, beyond, parts, p, attributes, k, end);
    CloserSeparatesNothing(t, data, end);
  }

  lemma OneMoreAttribute(t: Tagger, data: string, beyond: char, parts: Parts, p: nat, q: nat, next: Parts,
                         attributes: seq<Attribute>, k: nat, end: nat)
    requires t.opener != "" && NulFree(data) && k + 1 < |attributes| && end < |data| && parts.end == p
    requires AllStand(t, data, p, attributes, k, end) && q == attributes[k].end + 1
    requires next == parts.(attributes := parts.attributes + [PairOf(attributes[k])], end := q)
    ensures WithAttributes(t, data, beyond, parts) == WithAttributes(t, data, beyond, next)
  {
    var one := parts.(attributes := parts.attributes + [PairOf(attributes[k])], end := attributes[k].end);
    FirstIsRead(t, data, beyond, parts, p, attributes, k, end);
    AttributesStep(t, data, beyond, parts, one);
    AllStandNext(t, data, p, attributes, k, q, end);
    assert data[q] != '\0';
  }

  lemma AllStandNext(t: Tagger, data: string, p: nat, attributes: seq<Attribute>, k: nat, q: nat, end: nat)
    requires t.opener != "" && k + 1 < |attributes| && q == attributes[k].end + 1
    requires AllStand(t, data, p, attributes, k, end)
    ensures Separates(t, data, attributes[k].end) && q <= end && AllStand(t, data, q, attributes, k + 1, end)
  {
    LastStands(t, data, q, attributes, k + 1, end);
  }

  lemma {:induction false} LastStands(t: Tagger, data: string, p: nat, attributes: seq<Attribute>, k: nat, end: nat)
    requires t.opener != "" && k < |attributes| && AllStand(t, data, p, attributes, k, end)
    ensures p <= end && Matches(data, end, t.closer)
    decreases |attributes| - k
  {
    if k + 1 < |attributes| {
      LastStands(t, data, attributes[k].end + 1, attributes, k + 1, end);
    }
  }

  lemma PairsOfNext(attributes: seq<Attribute>, k: nat, before: seq<(string, string)>)
    requires k < |attributes|
    ensures before + PairsOf(attributes, k) == before + [PairOf(attributes[k])] + PairsOf(attributes, k + 1)
    ensures k + 1 == |attributes| ==> PairsOf(attributes, k) == [PairOf(attributes[k])]
  {
  }

  lemma {:induction false} AttributesAreRead(t: Tagger, data: string, beyond: char, parts: Parts, p: nat,
                                             attributes: seq<Attribute>, k: nat, end: nat)
    requires IsGood(t) && NulFree(data) && k < |attributes| && end < |data| && parts.end == p
    requires AllStand(t, data, p, attributes, k, end)
    ensures WithAttributes(t, data, beyond, parts)
            == parts.(attributes := parts.attributes + PairsOf(attributes, k), end := end)
    decreases |attributes| - k
  {
    PairsOfNext(attributes, k, parts.attributes);
    if k + 1 == |attributes| {
      LastAttribute(t, data, beyond, parts, p, attributes, k, end);
    } else {
      var q := attributes[k].end + 1;
      var next := parts.(attributes := parts.attributes + [PairOf(attributes[k])], end := q);
      OneMoreAttribute(t, data, beyond, parts, p, q, next, attributes, k, end);
      AllStandNext(t, data, p, attributes, k, q, end);
      AttributesAreRead(t, data, beyond, next, q, attributes, k + 1, end);
    }
  }

  /** A tag as it is written: where its namespaces end, its name, and its attributes. */
  datatype Writing = Writing(spaces: seq<nat>, name: string, nameEnd: nat, attributes: seq<Attribute>, end: nat)

  /** Where the name begins, behind the namespaces. */
  function NameStart(w: Writing, p: nat): nat { if w.spaces == [] then p else w.spaces[|w.spaces| - 1] + 1 }

  /** The namespaces, each up to its own delimiter. */
  predicate SpacesStand(t: Tagger, data: string, p: nat, w: Writing)
    requires t.opener != "" && |w.spaces| <= 2
  {
    && (|w.spaces| > 0 ==> NameText(t, data, p, w.spaces[0]) && data[w.spaces[0]] == t.nsDelim)
    && (|w.spaces| > 1 ==> NameText(t, data, w.spaces[0] + 1, w.spaces[1]) && data[w.spaces[1]] == t.nsDelim)
  }

  /** The name, and behind it the attributes or the end. */
  ghost predicate NameStands(t: Tagger, data: string, p: nat, w: Writing)
    requires t.opener != ""
  {
    && NameText(t, data, p, w.nameEnd) && data[w.nameEnd] != t.nsDelim && Trims(data, p, w.nameEnd, w.name)
    && if w.attributes == [] then w.nameEnd == w.end && Matches(data, w.end, t.closer)
       else (data[w.nameEnd] == t.delim || data[w.nameEnd] == t.delim2) &&
            AllStand(t, data, w.nameEnd + 1, w.attributes, 0, w.end)
  }

  /** The text from `p` on, behind the beginning of a tag; a bracket without a namespace must not have any colon. */
  ghost predicate Written(ts: seq<Tagger>, data: string, id: nat, now: nat, p: nat, w: Writing)
    requires IsTable(ts) && id < KINDS && now < KINDS
  {
    && |w.spaces| <= 2 && w.end < |data| && GoodAt(ts, id) && GoodAt(ts, now)
    && now == (if id == WIKI_LINK && w.spaces == [] then BBCODE else id)
    && SpacesStand(ts[now], data, p, w) && NameStands(ts[now], data, NameStart(w, p), w)
    && (now != id ==> p <= w.end && forall q :: p <= q < w.end ==> data[q] != ts[id].nsDelim)
  }

  /** The parts of a tag so written. */
  function PartsWritten(data: string, now: nat, p: nat, w: Writing): Parts {
    Parts(now, if |w.spaces| == 2 then Piece(data, p, w.spaces[0]) else "",
          if |w.spaces| == 2 then Word(data, w.spaces[0] + 1, w.spaces[1])
          else if |w.spaces| == 1 then Piece(data, p, w.spaces[0]) else "",
          w.name, PairsOf(w.attributes, 0), w.end)
  }

  lemma {:induction false} NameStopBefore(t: Tagger, data: string, a: nat, b: nat)
    requires t.opener != "" && a <= b < |data| && Matches(data, b, t.closer)
    ensures a <= NameStop(t, data, a) <= b
    decreases b - a
  {
    if a < b {
      NameStopBefore(t, data, a + 1, b);
    }
  }

  lemma SpaceIsRead(ts: seq<Tagger>, data: string, beyond: char, id: nat, now: nat, p: nat, w: Writing)
    requires IsTable(ts) && NulFree(data) && id < KINDS && now < KINDS && Written(ts, data, id, now, p, w)
    ensures WithSpace(ts, data, beyond, id, p)
            == if w.spaces == [] then Parts(now, "", "", "", [], p)
               else Parts(id, "", Piece(data, p, w.spaces[0]), "", [], w.spaces[0] + 1)
  {
    if w.spaces != [] {
      NameTextStops(ts[id], data, p, w.spaces[0]);
    } else if now == id {
      NameTextStops(ts[id], data, p, w.nameEnd);
    } else {
      EndStands(ts[now], data, p, w);
      NameStopBefore(ts[id], data, p, w.end);
      MatchStarts(data, w.end, ts[id].closer);
    }
  }

  lemma EndStands(t: Tagger, data: string, p: nat, w: Writing)
    requires t.opener != "" && NameStands(t, data, p, w) && w.end < |data|
    ensures Matches(data, w.end, t.closer) && w.nameEnd <= w.end
  {
    if w.attributes != [] {
      LastStands(t, data, w.nameEnd + 1, w.attributes, 0, w.end);
    }
  }

  lemma NameIsRead(t: Tagger, data: string, p: nat, q: nat, w: Writing, parts: Parts)
    requires t.opener != "" && |w.spaces| <= 2 && SpacesStand(t, data, p, w) && q == NameStart(w, p)
    requires NameText(t, data, q, w.nameEnd) && data[w.nameEnd] != t.nsDelim && Trims(data, q, w.nameEnd, w.name)
    requires parts.end == (if w.spaces == [] then p else w.spaces[0] + 1)
    ensures WithName(t, data, parts)
            == if |w.spaces| == 2 then
                 parts.(interwiki := parts.space, space := Word(data, w.spaces[0] + 1, w.spaces[1]), name := w.name,
                        end := w.nameEnd)
               else parts.(name := w.name, end := w.nameEnd)
  {
    NameTextStops(t, data, q, w.nameEnd);
    WordIs(data, q, w.nameEnd, w.name);
    if |w.spaces| == 2 {
      NameTextStops(t, data, w.spaces[0] + 1, w.spaces[1]);
    }
  }

  lemma BehindName(t: Tagger, data: string, beyond: char, q: nat, w: Writing, parts: Parts)
    requires IsGood(t) && NulFree(data) && w.end < |data| && w.attributes != []
    requires AllStand(t, data, q, w.attributes, 0, w.end)
    requires q == parts.end + 1 <= |data| && (data[parts.end] == t.delim || data[parts.end] == t.delim2)
    requires parts.attributes == []
    ensures WithRest(t, data, beyond, parts) == parts.(attributes := PairsOf(w.attributes, 0), end := w.end)
  {
    LastStands(t, data, q, w.attributes, 0, w.end);
    assert data[q] != '\0' && parts.attributes + PairsOf(w.attributes, 0) == PairsOf(w.attributes, 0);
    RestStep(t, data, beyond, parts);
    AttributesAreRead(t, data, beyond, parts.(end := q), q, w.attributes, 0, w.end);
  }

  lemma RestIsRead(t: Tagger, data: string, beyond: char, p: nat, w: Writing, parts: Parts)
    requires IsGood(t) && NulFree(data) && NameStands(t, data, p, w) && w.end < |data|
    requires parts.end == w.nameEnd && parts.attributes == []
    ensures WithRest(t, data, beyond, parts) == parts.(attributes := PairsOf(w.attributes, 0), end := w.end)
  {
    if w.attributes == [] {
      CloserSeparatesNothing(t, data, w.end);
    } else {
      BehindName(t, data, beyond, w.nameEnd + 1, w, parts);
    }
  }

  /** Its namespaces and its name. */
  lemma FrontIsRead(ts: seq<Tagger>, data: string, beyond: char, id: nat, now: nat, p: nat, w: Writing, spaced: Parts)
    requires IsTable(ts) && NulFree(data) && id < KINDS && now < KINDS && Written(ts, data, id, now, p, w)
    requires spaced == WithSpace(ts, data, beyond, id, p)
    ensures spaced.id == now
    ensures WithName(ts[now], data, spaced) == PartsWritten(data, now, p, w).(attributes := [], end := w.nameEnd)
  {
    SpaceIsRead(ts, data, beyond, id, now, p, w);
    NameIsRead(ts[now], data, p, NameStart(w, p), w, spaced);
  }

  lemma BackIsRead(ts: seq<Tagger>, data: string, beyond: char, id: nat, now: nat, p: nat, w: Writing, named: Parts)
    requires IsTable(ts) && NulFree(data) && id < KINDS && now < KINDS && Written(ts, data, id, now, p, w)
    requires named == PartsWritten(data, now, p, w).(attributes := [], end := w.nameEnd)
    ensures WithRest(ts[now], data, beyond, named) == PartsWritten(data, now, p, w)
  {
    RestIsRead(ts[now], data, beyond, NameStart(w, p), w, named);
  }

  lemma WrittenEnds(ts: seq<Tagger>, data: string, id: nat, now: nat, p: nat, w: Writing)
    requires IsTable(ts) && id < KINDS && now < KINDS && Written(ts, data, id, now, p, w)
    ensures Ends(ts, data, now, w.end)
  {
    EndStands(ts[now], data, NameStart(w, p), w);
    CloserIsLast(ts, data, w.end, KINDS, now);
  }

  /** A tag is read as it is written: its namespaces, its name, and its attributes in order, name before value. */
  lemma WrittenTagIsFound(ts: seq<Tagger>, data: string, beyond: char, start: nat, id: nat, now: nat, p: nat,
                          w: Writing)
    requires IsTable(ts) && NulFree(data) && id == OpenerAt(ts, data, start, KINDS) < KINDS && now < KINDS
    requires p == InnerStart(data, beyond, start + |ts[id].opener|) && Written(ts, data, id, now, p, w)
    ensures Found(ts, data, beyond, start) == PartsWritten(data, now, p, w)
    ensures Ends(ts, data, now, w.end)
  {
    var spaced := WithSpace(ts, data, beyond, id, p);
    FrontIsRead(ts, data, beyond, id, now, p, w, spaced);
    var named := WithName(ts[now], data, spaced);
    BackIsRead(ts, data, beyond, id, now, p, w, named);
    FoundInSteps(ts, data, beyond, start, id, p, spaced, named, PartsWritten(data, now, p, w));
    WrittenEnds(ts, data, id, now, p, w);
  }

  lemma LinkIsWritten(data: string, t: Tagger, w: Writing)
    requires data == "[[n:P|w=2|l]]" && t == TAGGERS[3]
    requires w == Writing([3], "P", 5, [Attribute("w", "2", 7, 9), Attribute("", "l", 0, 11)], 11)
    ensures t.opener != "" && SpacesStand(t, data, 2, w) && NameStands(t, data, 4, w)
  {
    var (a, b) := (w.attributes[0], w.attributes[1]);
    forall q: nat | 2 <= q < 11
      ensures Quiet(t, data, q)
    {
      assert data[q] != ']';
      MatchStarts(data, q, t.closer);
    }
    assert NameText(t, data, 2, 3) && NameText(t, data, 4, 5);
    assert StandsBetween(data, 4, 4, 5, 5, "P") && StandsBetween(data, 6, 6, 7, 7, "w");
    assert StandsBetween(data, 8, 8, 9, 9, "2") && StandsBetween(data, 10, 10, 11, 11, "l");
    assert Stands(t, data, 6, a) && Stands(t, data, 10, b);
    assert AllStand(t, data, 10, w.attributes, 1, 11) && AllStand(t, data, 6, w.attributes, 0, 11);
  }

  lemma LinkBegins(data: string)
    requires data == "[[n:P|w=2|l]]"
    ensures OpenerAt(TAGGERS, data, 0, KINDS) == 3 && NulFree(data)
  {
    assert data[0] == '[' && data[1] == '[' && data[2] == 'n';
    assert Matches(data, 0, TAGGERS[3].opener);
    MatchStarts(data, 0, TAGGERS[4].opener);
    MatchStarts(data, 0, TAGGERS[5].opener);
    MatchStarts(data, 0, TAGGERS[6].opener);
    assert OpenerAt(TAGGERS, data, 0, 4) == 3;
    assert OpenerAt(TAGGERS, data, 0, 6) == 3;
  }

  /** A link with a namespace and two attributes, the second without a name. */
  lemma LinkIsRead(data: string, beyond: char)
    requires data == "[[n:P|w=2|l]]"
    ensures IsTable(TAGGERS) && OpenerAt(TAGGERS, data, 0, KINDS) == 3
    ensures Found(TAGGERS, data, beyond, 0) == Parts(3, "", "n", "P", [("w", "2"), ("", "l")], 11)
  {
    TaggersAreTable();
    LinkBegins(data);
    var w := Writing([3], "P", 5, [Attribute("w", "2", 7, 9), Attribute("", "l", 0, 11)], 11);
    LinkIsWritten(data, TAGGERS[3], w);
    WrittenTagIsFound(TAGGERS, data, beyond, 0, 3, 3, 2, w);
    assert PairsOf(w.attributes, 2) == [] && PairsOf(w.attributes, 1) == [("", "l")];
  }
}
