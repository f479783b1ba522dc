/**
 CContainerStream::readTag: reads one tag of any of the known kinds, or leaves everything as it was.
 */
module TagReader {
  import opened CharStream
  import opened ParserMode

  // ---- kinds of tags

  datatype Tagger = Tagger(
    opener: string,
    closer: string,
    canAbort: bool,
    nsDelim: char,
    delim: char,
    delim2: char,
    attrDelim: char,
    attrDelim2: char,
    attrValueDelim: char,
    isWikicode: bool)

  const KINDS: nat := 7
  const BBCODE: nat := 0
  const WIKI_LINK: nat := 1

  /** The kinds in the order in which they are numbered. */
  const TAGGERS: seq<Tagger> := [
    Tagger("[", "]", true, '\0', '=', '\0', ',', '\0', '\0', false),
    Tagger("[", "]", true, ':', ' ', '\0', '\0', '\0', '\0', true),
    Tagger("<", ">", true, '\0', ' ', '\n', ' ', '\n', '=', false),
    Tagger("[[", "]]", true, ':', '|', '\0', '|', '\0', '=', true),
    Tagger("{{", "}}", true, ':', '|', '\0', '|', '\0', '=', true),
    Tagger("{{{", "}}}", true, ':', '|', '\0', '|', '\0', '=', true),
    Tagger("<!--", "-->", false, '\0', '\0', '\0', '\0', '\0', '\0', false)
  ]

  /** A character that means nothing in any tag. */
  predicate IsPlain(c: char) {
    && !EndsTags(c) && c != '[' && c != '<' && c != '{' && c != ':' && c != '=' && c != '|' && c != ','
    && !IsSpace(c) && c != '\0'
  }

  predicate EndsTags(c: char) { c == ']' || c == '>' || c == '}' || c == '-' }

  /** No character that separates the parts of a tag can begin the end of one. */
  predicate IsGood(t: Tagger) {
    && t.closer != "" && t.opener != "" && EndsTags(t.closer[0]) && !EndsTags(t.opener[0])
    && !EndsTags(t.nsDelim) && !EndsTags(t.delim) && !EndsTags(t.delim2)
    && !EndsTags(t.attrDelim) && !EndsTags(t.attrDelim2) && !EndsTags(t.attrValueDelim)
    && !IsPlain(t.nsDelim) && !IsPlain(t.delim) && !IsPlain(t.delim2) && !IsPlain(t.opener[0])
  }

  predicate GoodAt(ts: seq<Tagger>, id: nat)
    requires id < |ts| == KINDS
  {
    IsGood(ts[id]) && (ts[id].canAbort || id == KINDS - 1)
  }

  /** Only the last kind wants nothing in it, and links begin and end like plain brackets. */
  ghost predicate IsTable(ts: seq<Tagger>) {
    && |ts| == KINDS && (forall id :: 0 <= id < KINDS ==> ts[id].opener != "")
    && (forall id :: 0 <= id < KINDS ==> GoodAt(ts, id))
    && ts[BBCODE].opener == ts[WIKI_LINK].opener && ts[BBCODE].closer == ts[WIKI_LINK].closer
    && ts[BBCODE].nsDelim == '\0'
  }

  lemma TaggersAreTable()
    ensures IsTable(TAGGERS)
  {
    assert GoodAt(TAGGERS, 0) && GoodAt(TAGGERS, 1) && GoodAt(TAGGERS, 2);
    assert GoodAt(TAGGERS, 3) && GoodAt(TAGGERS, 4) && GoodAt(TAGGERS, 5) && GoodAt(TAGGERS, 6);
    forall id: nat | id < KINDS
      ensures GoodAt(TAGGERS, id)
    {
      assert id in [0, 1, 2, 3, 4, 5, 6];
    }
  }

  /** The last kind that begins here; there is none if it is `KINDS`. */
  function OpenerAt(ts: seq<Tagger>, data: string, p: nat, n: nat): (id: nat)
    requires |ts| == KINDS
    requires n <= KINDS
    ensures id < n ==> Matches(data, p, ts[id].opener)
    ensures id < n || id == KINDS
  {
    if n == 0 then KINDS else if Matches(data, p, ts[n - 1].opener) then n - 1 else OpenerAt(ts, data, p, n - 1)
  }

  function CloserAt(ts: seq<Tagger>, data: string, p: nat, n: nat): (id: nat)
    requires |ts| == KINDS
    requires n <= KINDS
    ensures id < n ==> Matches(data, p, ts[id].closer)
    ensures id < n || id == KINDS
  {
    if n == 0 then KINDS else if Matches(data, p, ts[n - 1].closer) then n - 1 else CloserAt(ts, data, p, n - 1)
  }

  lemma {:induction false} CloserIsLast(ts: seq<Tagger>, data: string, p: nat, n: nat, k: nat)
    requires |ts| == KINDS && k < n <= KINDS && Matches(data, p, ts[k].closer)
    ensures k <= CloserAt(ts, data, p, n) < n
  {
    if !Matches(data, p, ts[n - 1].closer) {
      CloserIsLast(ts, data, p, n - 1, k);
    }
  }

  predicate NoAbort(t: Tagger, data: string, p: nat, c: char)
    requires t.opener != ""
  {
    t.canAbort && !Matches(data, p, t.closer) && (t.isWikicode || t.opener[0] != c)
  }

  /** A stretch in which the tag does not end. */
  ghost predicate Open(t: Tagger, data: string, a: nat, b: nat) {
    forall q :: a <= q < b ==> !Matches(data, q, t.closer)
  }

  lemma MatchStarts(data: string, p: nat, s: string)
    requires s != ""
    ensures Matches(data, p, s) ==> p < |data| && data[p] == s[0]
  {
    assert Matches(data, p, s) ==> data[p + 0] == s[0];
  }

  lemma NotCloser(ts: seq<Tagger>, id: nat, data: string, p: nat)
    requires IsTable(ts)
    requires id < KINDS && p < |data| && !EndsTags(data[p])
    ensures !Matches(data, p, ts[id].closer)
  {
    assert GoodAt(ts, id);
    MatchStarts(data, p, ts[id].closer);
  }

  /** Where reading stopped: at the end, at something that cannot end a tag, or because the kind wants no more. */
  predicate Stopped(t: Tagger, data: string, p: nat)
    requires t.opener != ""
  {
    p >= |data| || !EndsTags(data[p]) || !NoAbort(t, data, p, data[p])
  }

  /** If it stopped where some kind ends that is not less than this one, then it is this one that ends. */
  lemma EndsItself(ts: seq<Tagger>, id: nat, data: string, p: nat)
    requires IsTable(ts)
    requires id < KINDS && id <= CloserAt(ts, data, p, KINDS) < KINDS
    requires Stopped(ts[id], data, p)
    ensures p + |ts[id].closer| <= |data| && Matches(data, p, ts[id].closer)
  {
    var k := CloserAt(ts, data, p, KINDS);
    assert GoodAt(ts, id) && GoodAt(ts, k);
    MatchStarts(data, p, ts[k].closer);
  }

  // ---- tags

  predicate IsSpace(c: char) {
    c == ' ' || '\t' <= c <= '\r' || c == 0x85 as char || c == 0xA0 as char
  }

  /** A piece of the text without the spaces around it; nothing where it is not all in the text. */
  function Word(data: string, a: nat, b: nat): string
    decreases b - a
  {
    if a >= b || b > |data| then ""
    else if IsSpace(data[b - 1]) then Word(data, a, b - 1)
    else if IsSpace(data[a]) then Word(data, a + 1, b)
    else data[a..b]
  }

  /** A piece of the text; nothing where it is not all in the text. */
  function Piece(data: string, a: nat, b: nat): string { if a <= b <= |data| then data[a..b] else "" }

  lemma MatchIsPiece(data: string, p: nat, s: string)
    requires Matches(data, p, s)
    ensures Piece(data, p, p + |s|) == s
  {
  }

  class Tag {
    var id: nat
    var opener: string
    var nsOpener: bool
    var interwiki: string
    var space: string
    var name: string
    var attributes: seq<(string, string)>
    var closer: string

    constructor ()
    {
      id, opener, nsOpener, interwiki, space := KINDS, "", false, "", "";
      name, attributes, closer := "", [], "";
    }
  }

  // ---- the parts of a tag

  predicate NulFree(data: string) { forall i :: 0 <= i < |data| ==> data[i] != '\0' }

  /** What a tag is made of between its beginning and its end, and where that end should be. */
  datatype Parts = Parts(
    id: nat,
    interwiki: string,
    space: string,
    name: string,
    attributes: seq<(string, string)>,
    end: nat)

  function Left(data: string, p: nat): nat { if p < |data| then |data| - p else 0 }

  function NameStop(t: Tagger, data: string, p: nat): (e: nat)
    requires t.opener != ""
    ensures p <= e && (p <= |data| ==> e <= |data|)
    decreases Left(data, p)
  {
    if p >= |data| || t.nsDelim == data[p] || t.delim == data[p] || t.delim2 == data[p] ||
       !NoAbort(t, data, p, data[p])
    then p
    else NameStop(t, data, p + 1)
  }

  function AttributeStop(t: Tagger, data: string, p: nat, isValue: bool): (e: nat)
    requires t.opener != ""
    ensures p <= e && (p <= |data| ==> e <= |data|)
    decreases Left(data, p)
  {
    if p >= |data| || t.attrDelim == data[p] || t.attrDelim2 == data[p] ||
       (!isValue && t.attrValueDelim == data[p]) || !NoAbort(t, data, p, data[p])
    then p
    else AttributeStop(t, data, p + 1, isValue)
  }

  function SpaceStop(data: string, p: nat): (e: nat)
    ensures p <= e && (p <= |data| ==> e <= |data|)
    decreases Left(data, p)
  {
    if p >= |data| || !IsSpace(data[p]) then p else SpaceStop(data, p + 1)
  }

  /** A namespace ends where the name of the kind does; without one a bracket is not a link. */
  function WithSpace(ts: seq<Tagger>, data: string, beyond: char, id: nat, p: nat): Parts
    requires |ts| == KINDS && id < KINDS && ts[id].opener != ""
  {
    var e := NameStop(ts[id], data, p);
    if CharAt(data, e, beyond) == ts[id].nsDelim then Parts(id, "", Piece(data, p, e), "", [], e + 1)
    else Parts(if id == WIKI_LINK then BBCODE else id, "", "", "", [], p)
  }

  /** The name, behind one more namespace if there is one. */
  function WithName(t: Tagger, data: string, parts: Parts): Parts
    requires t.opener != ""
  {
    var p := parts.end;
    var e := NameStop(t, data, p);
    if e < |data| && t.nsDelim == data[e] then
      var f := NameStop(t, data, e + 1);
      parts.(interwiki := parts.space, space := Word(data, p, e), name := Word(data, e + 1, f),
             end := f)
    else parts.(name := Word(data, p, e), end := e)
  }

  /** One attribute, with or without a name. */
  function WithAttribute(t: Tagger, data: string, beyond: char, parts: Parts): (r: Parts)
    requires t.opener != ""
    ensures r.end >= parts.end
  {
    var p := SpaceStop(data, parts.end);
    var e := AttributeStop(t, data, p, false);
    var name := Word(data, p, e);
    if t.attrValueDelim == CharAt(data, e, beyond) then
      var f := AttributeStop(t, data, e, true);
      parts.(attributes := parts.attributes + [(name, Word(data, e + 1, f))], end := f)
    else parts.(attributes := parts.attributes + [("", name)], end := e)
  }

  /** All attributes from here on: one more behind each separator. */
  function WithAttributes(t: Tagger, data: string, beyond: char, parts: Parts): Parts
    requires t.opener != ""
    decreases Left(data, parts.end)
  {
    var one := WithAttribute(t, data, beyond, parts);
    var e := one.end;
    if e < |data| && (t.attrDelim == data[e] || t.attrDelim2 == data[e]) then
      if CharAt(data, e + 1, beyond) == '\0' then one.(end := e + 1)
      else WithAttributes(t, data, beyond, one.(end := e + 1))
    else one
  }

  /** The attributes, if the name ends where they begin. */
  function WithRest(t: Tagger, data: string, beyond: char, parts: Parts): Parts
    requires t.opener != ""
  {
    var c := CharAt(data, parts.end, beyond);
    if (t.delim == c || t.delim2 == c) && parts.end <= |data| then
      var next := parts.(end := parts.end + 1);
      if CharAt(data, next.end, beyond) == '\0' then next else WithAttributes(t, data, beyond, next)
    else parts
  }

  function PartsAt(ts: seq<Tagger>, data: string, beyond: char, id: nat, p: nat): Parts
    requires |ts| == KINDS && id < KINDS && forall k :: 0 <= k < KINDS ==> ts[k].opener != ""
  {
    var parts := WithSpace(ts, data, beyond, id, p);
    WithRest(ts[parts.id], data, beyond, WithName(ts[parts.id], data, parts))
  }

  // ---- scanning

  /** Over the characters of a name, until something separates or ends it. */
  method ScanName(ts: seq<Tagger>, stream: CCharStream, id: nat)
    requires IsTable(ts)
    requires stream.Valid() && stream.peek == 0 && id < KINDS
    modifies stream`position
    ensures stream.Valid() && old(stream.position) <= stream.position
    ensures old(stream.position) <= |stream.data| ==> stream.position <= |stream.data|
    ensures Open(ts[id], stream.data, old(stream.position), stream.position)
    ensures TaggersHave(ts, id) && Stopped(ts[id], stream.data, stream.position)
    ensures stream.position == NameStop(ts[id], stream.data, old(stream.position))
  {
    var t := ts[id];
    assert GoodAt(ts, id);
    while !stream.AtEnd() && t.nsDelim != stream.Current() && t.delim != stream.Current() &&
          t.delim2 != stream.Current() && NoAbort(t, stream.data, stream.position, stream.Current())
      invariant stream.Valid() && old(stream.position) <= stream.position
      invariant old(stream.position) <= |stream.data| ==> stream.position <= |stream.data|
      invariant Open(t, stream.data, old(stream.position), stream.position)
      invariant NameStop(t, stream.data, stream.position) == NameStop(t, stream.data, old(stream.position))
      decreases |stream.data| - stream.position
    {
      var _ := stream.Increment();
    }
  }

  predicate TaggersHave(ts: seq<Tagger>, id: nat) { |ts| == KINDS && id < KINDS && ts[id].opener != "" }

  /** Over the name of an attribute, or its value. */
  method ScanAttribute(ts: seq<Tagger>, stream: CCharStream, id: nat, isValue: bool)
    requires IsTable(ts)
    requires stream.Valid() && stream.peek == 0 && id < KINDS
    modifies stream`position
    ensures stream.Valid() && old(stream.position) <= stream.position
    ensures old(stream.position) <= |stream.data| ==> stream.position <= |stream.data|
    ensures Open(ts[id], stream.data, old(stream.position), stream.position)
    ensures TaggersHave(ts, id) && Stopped(ts[id], stream.data, stream.position)
    ensures stream.position == AttributeStop(ts[id], stream.data, old(stream.position), isValue)
  {
    var t := ts[id];
    assert GoodAt(ts, id);
    while !stream.AtEnd() && t.attrDelim != stream.Current() && t.attrDelim2 != stream.Current() &&
          (isValue || t.attrValueDelim != stream.Current()) &&
          NoAbort(t, stream.data, stream.position, stream.Current())
      invariant stream.Valid() && old(stream.position) <= stream.position
      invariant old(stream.position) <= |stream.data| ==> stream.position <= |stream.data|
      invariant Open(t, stream.data, old(stream.position), stream.position)
      invariant AttributeStop(t, stream.data, stream.position, isValue)
             == AttributeStop(t, stream.data, old(stream.position), isValue)
      decreases |stream.data| - stream.position
    {
      var _ := stream.Increment();
    }
  }

  method SkipSpaces(ts: seq<Tagger>, stream: CCharStream, id: nat)
    requires IsTable(ts)
    requires stream.Valid() && stream.peek == 0 && id < KINDS
    modifies stream`position
    ensures stream.Valid() && old(stream.position) <= stream.position
    ensures old(stream.position) <= |stream.data| ==> stream.position <= |stream.data|
    ensures Open(ts[id], stream.data, old(stream.position), stream.position)
    ensures NulFree(stream.data) ==> stream.position == SpaceStop(stream.data, old(stream.position))
  {
    var going := true;
    while going && !stream.AtEnd() && IsSpace(stream.Current())
      invariant stream.Valid() && old(stream.position) <= stream.position
      invariant old(stream.position) <= |stream.data| ==> stream.position <= |stream.data|
      invariant Open(ts[id], stream.data, old(stream.position), stream.position)
      invariant SpaceStop(stream.data, stream.position) == SpaceStop(stream.data, old(stream.position))
      invariant !going ==> stream.Current() == '\0'
      decreases |stream.data| - stream.position
    {
      NotCloser(ts, id, stream.data, stream.position);
      var _ := stream.Increment();
      going := stream.Current() != '\0';
    }
  }

  // ---- reading

  /** The parts of a tag as far as they have been read. */
  function PartsOf(tag: Tag, stream: CCharStream): Parts
    reads tag, stream
  {
    Parts(tag.id, tag.interwiki, tag.space, tag.name, tag.attributes, stream.position)
  }

  /** As far as the position is in the text, the tag has not ended since `start`. */
  ghost predicate OpenSoFar(ts: seq<Tagger>, stream: CCharStream, id: nat, start: nat)
    requires |ts| == KINDS
    reads stream
    requires id < KINDS
  {
    stream.position < |stream.data| ==> start <= stream.position && Open(ts[id], stream.data, start, stream.position)
  }

  /** One further from a character that is not the end of a tag. */
  method StepOver(ts: seq<Tagger>, stream: CCharStream, id: nat, ghost start: nat) returns (ok: bool)
    requires IsTable(ts)
    requires stream.Valid() && id < KINDS && OpenSoFar(ts, stream, id, start)
    requires stream.position < |stream.data| ==> !EndsTags(stream.data[stream.position])
    modifies stream`position
    ensures stream.Valid() && ok == (old(stream.position) <= |stream.data|)
    ensures stream.position == old(stream.position) + if ok then 1 else 0
    ensures OpenSoFar(ts, stream, id, start)
  {
    if stream.position < |stream.data| {
      NotCloser(ts, id, stream.data, stream.position);
    }
    ok := stream.Increment();
  }

  /** A colon behind the opener is skipped. */
  function InnerStart(data: string, beyond: char, p: nat): nat {
    if CharAt(data, p, beyond) == ':' then p + 1 else p
  }

  method ReadOpener(ts: seq<Tagger>, stream: CCharStream, tag: Tag) returns (ok: bool)
    requires IsTable(ts)
    requires stream.Valid() && stream.peek == 0 && stream.position <= |stream.data|
    modifies stream`position, tag`id, tag`opener, tag`nsOpener
    ensures stream.Valid() && tag.id == OpenerAt(ts, stream.data, old(stream.position), KINDS)
    ensures ok == (tag.id < KINDS)
    ensures ok ==>
              && old(stream.position) + |tag.opener| <= stream.position <= |stream.data|
              && tag.opener == ts[tag.id].opener && Matches(stream.data, old(stream.position), tag.opener)
              && Open(ts[tag.id], stream.data, old(stream.position) + |tag.opener|, stream.position)
    ensures ok ==>
              stream.position == InnerStart(stream.data, stream.beyond, old(stream.position) + |tag.opener|)
  {
    tag.id := FindOpener(ts, stream);
    if tag.id == KINDS {
      return false;
    }
    var t := ts[tag.id];
    var pos := stream.position;
    var _ := stream.Advance(|t.opener|);
    tag.opener := Piece(stream.data, pos, pos + |t.opener|);
    tag.nsOpener := stream.Current() == ':';
    if tag.nsOpener {
      NotCloser(ts, tag.id, stream.data, stream.position);
      var _ := stream.Increment();
    }
    ok := true;
  }

  method FindOpener(ts: seq<Tagger>, stream: CCharStream) returns (id: nat)
    requires IsTable(ts)
    ensures id == OpenerAt(ts, stream.data, stream.position, KINDS)
  {
    var n: nat := KINDS;
    while n > 0
      invariant n <= KINDS
      invariant OpenerAt(ts, stream.data, stream.position, KINDS) == OpenerAt(ts, stream.data, stream.position, n)
    {
      if stream.Looks(ts[n - 1].opener) {
        return n - 1;
      }
      n := n - 1;
    }
    id := KINDS;
  }

  method FindCloser(ts: seq<Tagger>, stream: CCharStream) returns (id: nat)
    requires IsTable(ts)
    ensures id == CloserAt(ts, stream.data, stream.position, KINDS)
  {
    var n: nat := KINDS;
    while n > 0
      invariant n <= KINDS
      invariant CloserAt(ts, stream.data, stream.position, KINDS) == CloserAt(ts, stream.data, stream.position, n)
    {
      if stream.Looks(ts[n - 1].closer) {
        return n - 1;
      }
      n := n - 1;
    }
    id := KINDS;
  }

  /** The namespace, if there is one; without one a bracket is not a link. */
  method ReadSpace(ts: seq<Tagger>, stream: CCharStream, tag: Tag)
    requires IsTable(ts)
    requires stream.Valid() && stream.peek == 0 && stream.position <= |stream.data| && tag.id < KINDS
    requires NulFree(stream.data) && PartsOf(tag, stream) == Parts(tag.id, "", "", "", [], stream.position)
    modifies stream, tag`id, tag`space
    ensures stream.Valid() && stream.peek == 0 && old(stream.position) <= stream.position
    ensures tag.id == old(tag.id) || (tag.id == BBCODE && old(tag.id) == WIKI_LINK)
    ensures tag.id < KINDS && OpenSoFar(ts, stream, tag.id, old(stream.position))
    ensures PartsOf(tag, stream) == WithSpace(ts, stream.data, stream.beyond, old(tag.id), old(stream.position))
  {
    var t := ts[tag.id];
    var pos := stream.position;
    ScanName(ts, stream, tag.id);
    if stream.Current() == t.nsDelim {
      assert GoodAt(ts, tag.id);
      tag.space := Piece(stream.data, pos, stream.position);
      var _ := StepOver(ts, stream, tag.id, pos);
    } else {
      if tag.id == WIKI_LINK {
        tag.id := BBCODE;
      }
      stream.Seek(pos);
    }
  }

  /** The name, behind a namespace of its own if there is one. */
  method ReadName(ts: seq<Tagger>, stream: CCharStream, tag: Tag, ghost start: nat)
    requires IsTable(ts)
    requires stream.Valid() && stream.peek == 0 && tag.id < KINDS && OpenSoFar(ts, stream, tag.id, start)
    requires NulFree(stream.data)
    modifies stream`position, tag`space, tag`interwiki, tag`name
    ensures stream.Valid() && old(stream.position) <= stream.position
    ensures OpenSoFar(ts, stream, tag.id, start) && TaggersHave(ts, tag.id)
    ensures Stopped(ts[tag.id], stream.data, stream.position)
    ensures PartsOf(tag, stream) == WithName(ts[tag.id], stream.data, old(PartsOf(tag, stream)))
  {
    var t := ts[tag.id];
    var pos := stream.position;
    ScanName(ts, stream, tag.id);
    if !stream.AtEnd() && t.nsDelim == stream.Current() {
      assert GoodAt(ts, tag.id);
      tag.interwiki := tag.space;
      tag.space := Word(stream.data, pos, stream.position);
      var _ := StepOver(ts, stream, tag.id, start);
      pos := stream.position;
      ScanName(ts, stream, tag.id);
    }
    tag.name := Word(stream.data, pos, stream.position);
  }

  /** One attribute, with or without a name. */
  method ReadAttribute(ts: seq<Tagger>, stream: CCharStream, tag: Tag, ghost start: nat)
    requires IsTable(ts) && NulFree(stream.data)
    requires stream.Valid() && stream.peek == 0 && tag.id < KINDS && OpenSoFar(ts, stream, tag.id, start)
    modifies stream`position, tag`attributes
    ensures stream.Valid() && old(stream.position) <= stream.position
    ensures OpenSoFar(ts, stream, tag.id, start) && TaggersHave(ts, tag.id)
    ensures Stopped(ts[tag.id], stream.data, stream.position)
    ensures PartsOf(tag, stream)
            == WithAttribute(ts[tag.id], stream.data, stream.beyond, old(PartsOf(tag, stream)))
  {
    var t := ts[tag.id];
    SkipSpaces(ts, stream, tag.id);
    var pos := stream.position;
    ScanAttribute(ts, stream, tag.id, false);
    var name := Word(stream.data, pos, stream.position);
    if t.attrValueDelim == stream.Current() {
      pos := stream.position + 1;
      ScanAttribute(ts, stream, tag.id, true);
      tag.attributes := tag.attributes + [(name, Word(stream.data, pos, stream.position))];
    } else {
      tag.attributes := tag.attributes + [("", name)];
    }
  }

  lemma RestStep(t: Tagger, data: string, beyond: char, parts: Parts)
    requires t.opener != ""
    requires t.delim == CharAt(data, parts.end, beyond) || t.delim2 == CharAt(data, parts.end, beyond)
    ensures WithRest(t, data, beyond, parts)
            == if parts.end > |data| then parts
               else if CharAt(data, parts.end + 1, beyond) == '\0' then parts.(end := parts.end + 1)
               else WithAttributes(t, data, beyond, parts.(end := parts.end + 1))
  {
  }

  /** The attributes, if the name ends where they begin; it fails only behind the end of the text. */
  method ReadAttributes(ts: seq<Tagger>, stream: CCharStream, tag: Tag, ghost start: nat) returns (ok: bool)
    requires IsTable(ts)
    requires stream.Valid() && stream.peek == 0 && TaggersHave(ts, tag.id) && OpenSoFar(ts, stream, tag.id, start)
    requires Stopped(ts[tag.id], stream.data, stream.position) && NulFree(stream.data)
    modifies stream`position, tag`attributes
    ensures stream.Valid() && old(stream.position) <= stream.position && OpenSoFar(ts, stream, tag.id, start)
    ensures Stopped(ts[tag.id], stream.data, stream.position) && (!ok ==> stream.position > |stream.data|)
    ensures PartsOf(tag, stream) == WithRest(ts[tag.id], stream.data, stream.beyond, old(PartsOf(tag, stream)))
  {
    var t := ts[tag.id];
    ok := true;
    assert GoodAt(ts, tag.id);
    if t.delim != stream.Current() && t.delim2 != stream.Current() {
      return;
    }
    ghost var was := PartsOf(tag, stream);
    ok := StepOver(ts, stream, tag.id, start);
    RestStep(t, stream.data, stream.beyond, was);
    assert ok ==> PartsOf(tag, stream) == was.(end := was.end + 1);
    var more := ok && stream.Current() != '\0';
    if more {
      ReadAllAttributes(ts, stream, tag, start);
    }
  }

  /** Does another attribute's separator stand here? */
  predicate Separates(t: Tagger, data: string, e: nat) {
    e < |data| && (t.attrDelim == data[e] || t.attrDelim2 == data[e])
  }

  lemma AttributesStep(t: Tagger, data: string, beyond: char, parts: Parts, one: Parts)
    requires t.opener != "" && one == WithAttribute(t, data, beyond, parts)
    ensures WithAttributes(t, data, beyond, parts)
            == if !Separates(t, data, one.end) then one
               else if CharAt(data, one.end + 1, beyond) == '\0' then one.(end := one.end + 1)
               else WithAttributes(t, data, beyond, one.(end := one.end + 1))
  {
  }

  /** One attribute, and whether another one follows. */
  method ReadNextAttribute(ts: seq<Tagger>, stream: CCharStream, tag: Tag, ghost start: nat) returns (more: bool)
    requires IsTable(ts) && NulFree(stream.data)
    requires stream.Valid() && stream.peek == 0 && TaggersHave(ts, tag.id) && OpenSoFar(ts, stream, tag.id, start)
    modifies stream`position, tag`attributes
    ensures stream.Valid() && old(stream.position) <= stream.position && OpenSoFar(ts, stream, tag.id, start)
    ensures more ==> old(stream.position) < stream.position < |stream.data|
    ensures !more ==> Stopped(ts[tag.id], stream.data, stream.position)
    ensures WithAttributes(ts[tag.id], stream.data, stream.beyond, old(PartsOf(tag, stream)))
            == if more then WithAttributes(ts[tag.id], stream.data, stream.beyond, PartsOf(tag, stream))
               else PartsOf(tag, stream)
  {
    var t := ts[tag.id];
    ghost var was := PartsOf(tag, stream);
    ReadAttribute(ts, stream, tag, start);
    ghost var one := PartsOf(tag, stream);
    AttributesStep(t, stream.data, stream.beyond, was, one);
    more := !stream.AtEnd() && (t.attrDelim == stream.Current() || t.attrDelim2 == stream.Current());
    assert more == Separates(t, stream.data, one.end);
    if more {
      assert GoodAt(ts, tag.id);
      var _ := StepOver(ts, stream, tag.id, start);
      assert PartsOf(tag, stream) == one.(end := one.end + 1);
      more := stream.Current() != '\0';
    }
  }

  /** One attribute after the other. */
  method ReadAllAttributes(ts: seq<Tagger>, stream: CCharStream, tag: Tag, ghost start: nat)
    requires IsTable(ts) && NulFree(stream.data)
    requires stream.Valid() && stream.peek == 0 && TaggersHave(ts, tag.id) && OpenSoFar(ts, stream, tag.id, start)
    modifies stream`position, tag`attributes
    ensures stream.Valid() && old(stream.position) <= stream.position && OpenSoFar(ts, stream, tag.id, start)
    ensures Stopped(ts[tag.id], stream.data, stream.position)
    ensures PartsOf(tag, stream) == WithAttributes(ts[tag.id], stream.data, stream.beyond, old(PartsOf(tag, stream)))
  {
    ghost var all := WithAttributes(ts[tag.id], stream.data, stream.beyond, PartsOf(tag, stream));
    var more := true;
    while more
      invariant stream.Valid() && old(stream.position) <= stream.position && OpenSoFar(ts, stream, tag.id, start)
      invariant !more ==> Stopped(ts[tag.id], stream.data, stream.position)
      invariant all == if more then WithAttributes(ts[tag.id], stream.data, stream.beyond, PartsOf(tag, stream))
                       else PartsOf(tag, stream)
      decreases more, |stream.data| + 2 - stream.position
    {
      more := ReadNextAttribute(ts, stream, tag, start);
    }
  }

  /** What it means to have read a tag that begins at `start`, up to the character before `next`. */
  ghost predicate HasRead(ts: seq<Tagger>, data: string, start: nat, next: nat, id: nat, opener: string, closer: string)
    requires |ts| == KINDS
  {
    var found := OpenerAt(ts, data, start, KINDS);
    && id < KINDS && (id == found || (id == BBCODE && found == WIKI_LINK))
    && opener == ts[id].opener && closer == ts[id].closer
    && start + |opener| <= next - |closer| && next <= |data|
    && Matches(data, start, opener) && Matches(data, next - |closer|, closer)
    && Open(ts[id], data, start + |opener|, next - |closer|)
  }

  /** Is there the end of some kind, no lesser one, where the parts of the tag end. */
  predicate Ends(ts: seq<Tagger>, data: string, id: nat, end: nat)
    requires |ts| == KINDS
  {
    end < |data| && id <= CloserAt(ts, data, end, KINDS) < KINDS
  }

  /** The end of a tag, which is the nearest there is for its kind, and what the tag does to the mode. */
  method ReadCloser(ts: seq<Tagger>, stream: CCharStream, tag: Tag, mode: CParserMode, hash: string -> nat,
                    ghost start: nat, ghost key: nat)
    returns (ok: bool)
    requires IsTable(ts)
    requires stream.Valid() && mode.Valid() && TaggersHave(ts, tag.id)
    requires stream.position < |stream.data| ==> start + |tag.opener| <= stream.position
    requires OpenSoFar(ts, stream, tag.id, start + |tag.opener|)
    requires Stopped(ts[tag.id], stream.data, stream.position)
    requires tag.opener == ts[tag.id].opener && Matches(stream.data, start, tag.opener)
    requires var found := OpenerAt(ts, stream.data, start, KINDS);
             tag.id == found || (tag.id == BBCODE && found == WIKI_LINK)
    requires key == hash(tag.opener + tag.name + ts[tag.id].closer)
    modifies stream`position, tag`closer, mode`stack
    ensures stream.Valid() && mode.Valid()
    ensures ok == (Ends(ts, stream.data, tag.id, old(stream.position)) &&
                   !Refused(old(mode.stack), key, mode.modes, mode.normal))
    ensures !ok ==> mode.stack == old(mode.stack)
    ensures ok ==> HasRead(ts, stream.data, start, stream.position + 1, tag.id, tag.opener, tag.closer)
    ensures ok ==> stream.position + 1 == old(stream.position) + |tag.closer|
    ensures ok ==> mode.stack == Assigned(old(mode.stack), key, mode.modes, mode.normal)
  {
    var pos := stream.position;
    var closer := FindCloser(ts, stream);
    if closer == KINDS || tag.id > closer {
      return false;
    }
    var t := ts[tag.id];
    assert GoodAt(ts, tag.id) && GoodAt(ts, closer);
    MatchStarts(stream.data, pos, ts[closer].closer);
    EndsItself(ts, tag.id, stream.data, pos);
    tag.closer := Piece(stream.data, pos, pos + |t.closer|);
    MatchIsPiece(stream.data, pos, t.closer);
    var _ := stream.Advance(|t.closer| - 1);
    ok := mode.Assign(hash(tag.opener + tag.name + tag.closer));
  }

  /** What reading a tag from `start` comes to: the kind found there, and its parts. */
  function Found(ts: seq<Tagger>, data: string, beyond: char, start: nat): (parts: Parts)
    requires |ts| == KINDS && OpenerAt(ts, data, start, KINDS) < KINDS
    requires forall k :: 0 <= k < KINDS ==> ts[k].opener != ""
  {
    var id := OpenerAt(ts, data, start, KINDS);
    PartsAt(ts, data, beyond, id, InnerStart(data, beyond, start + |ts[id].opener|))
  }

  /** Can a tag be read from here: it begins, it ends behind its parts, and the mode does not refuse it. */
  ghost predicate Readable(ts: seq<Tagger>, data: string, beyond: char, start: nat, stack: seq<nat>,
                           hash: string -> nat, modes: map<nat, Mode>, normal: nat)
    requires IsTable(ts) && ParserMode.Current(stack, normal) in modes
  {
    && OpenerAt(ts, data, start, KINDS) < KINDS
    && var parts := Found(ts, data, beyond, start);
       && parts.id < KINDS && Ends(ts, data, parts.id, parts.end)
       && !Refused(stack, hash(ts[parts.id].opener + parts.name + ts[parts.id].closer), modes, normal)
  }

  /**
   Reads a tag of one of the kinds, whenever there is one: from its beginning to the nearest end, on the last
   character of which the position is then. Otherwise the position and the mode are what they were.
   */
  method ReadTag(stream: CCharStream, tag: Tag, mode: CParserMode, hash: string -> nat) returns (ok: bool)
    requires stream.Valid() && stream.peek == 0 && stream.position <= |stream.data| && NulFree(stream.data)
    requires mode.Valid()
    modifies stream, tag, mode`stack
    ensures stream.Valid() && mode.Valid() && IsTable(TAGGERS)
    ensures ok == Readable(TAGGERS, stream.data, stream.beyond, old(stream.position), old(mode.stack), hash,
                           mode.modes, mode.normal)
    ensures !ok ==> stream.position == old(stream.position) && mode.stack == old(mode.stack)
    ensures ok ==>
              HasRead(TAGGERS, stream.data, old(stream.position), stream.position + 1, tag.id, tag.opener, tag.closer)
    ensures ok ==>
              mode.stack == Assigned(old(mode.stack), hash(tag.opener + tag.name + tag.closer), mode.modes, mode.normal)
    ensures ok ==>
              var parts := Found(TAGGERS, stream.data, stream.beyond, old(stream.position));
              parts.end + |tag.closer| == stream.position + 1 && PartsOf(tag, stream).(end := parts.end) == parts
  {
    TaggersAreTable();
    ok := ReadTagOf(TAGGERS, stream, tag, mode, hash);
  }

  /** The same with any table of kinds that is like this one. */
  method ReadTagOf(ts: seq<Tagger>, stream: CCharStream, tag: Tag, mode: CParserMode, hash: string -> nat)
    returns (ok: bool)
    requires IsTable(ts)
    requires stream.Valid() && stream.peek == 0 && stream.position <= |stream.data| && NulFree(stream.data)
    requires mode.Valid()
    modifies stream, tag, mode`stack
    ensures stream.Valid() && mode.Valid()
    ensures ok == Readable(ts, stream.data, stream.beyond, old(stream.position), old(mode.stack), hash,
                           mode.modes, mode.normal)
    ensures !ok ==> stream.position == old(stream.position) && mode.stack == old(mode.stack)
    ensures ok ==>
              HasRead(ts, stream.data, old(stream.position), stream.position + 1, tag.id, tag.opener, tag.closer)
    ensures ok ==>
              mode.stack == Assigned(old(mode.stack), hash(tag.opener + tag.name + tag.closer), mode.modes, mode.normal)
    ensures ok ==>
              var parts := Found(ts, stream.data, stream.beyond, old(stream.position));
              parts.end + |tag.closer| == stream.position + 1 && PartsOf(tag, stream).(end := parts.end) == parts
  {
    var old_pos := stream.position;
    tag.opener, tag.interwiki, tag.name, tag.space, tag.attributes, tag.closer := "", "", "", "", [], "";
    ok := ReadAhead(ts, stream, tag, mode, hash, old_pos);
    if !ok {
      stream.Seek(old_pos);
    }
  }

  /** The same, except that the position is not restored when it fails. */
  method ReadAhead(ts: seq<Tagger>, stream: CCharStream, tag: Tag, mode: CParserMode, hash: string -> nat,
                   ghost start: nat)
    returns (ok: bool)
    requires IsTable(ts)
    requires stream.Valid() && stream.peek == 0 && start == stream.position <= |stream.data| && NulFree(stream.data)
    requires mode.Valid() && PartsOf(tag, stream) == Parts(tag.id, "", "", "", [], start)
    modifies stream, tag, mode`stack
    ensures stream.Valid() && mode.Valid() && (!ok ==> mode.stack == old(mode.stack))
    ensures ok == Readable(ts, stream.data, stream.beyond, start, old(mode.stack), hash, mode.modes, mode.normal)
    ensures ok ==> HasRead(ts, stream.data, start, stream.position + 1, tag.id, tag.opener, tag.closer)
    ensures ok ==>
              mode.stack == Assigned(old(mode.stack), hash(tag.opener + tag.name + tag.closer), mode.modes, mode.normal)
    ensures ok ==>
              var parts := Found(ts, stream.data, stream.beyond, start);
              parts.end + |tag.closer| == stream.position + 1 && PartsOf(tag, stream).(end := parts.end) == parts
  {
    ok := ReadOpener(ts, stream, tag);
    if ok {
      ghost var parts := Found(ts, stream.data, stream.beyond, start);
      FoundIsKind(ts, stream.data, stream.beyond, start, tag.id);
      ghost var key := hash(tag.opener + parts.name + ts[parts.id].closer);
      ok := ReadRest(ts, stream, tag, mode, hash, start, parts, key);
    }
  }

  lemma FoundIsKind(ts: seq<Tagger>, data: string, beyond: char, start: nat, id: nat)
    requires IsTable(ts) && id == OpenerAt(ts, data, start, KINDS) < KINDS
    ensures var parts := Found(ts, data, beyond, start);
            parts.id < KINDS && ts[parts.id].opener == ts[id].opener
  {
    var spaced := WithSpace(ts, data, beyond, id, InnerStart(data, beyond, start + |ts[id].opener|));
    var named := WithName(ts[spaced.id], data, spaced);
    RestKeepsKind(ts[spaced.id], data, beyond, named);
  }

  lemma RestKeepsKind(t: Tagger, data: string, beyond: char, parts: Parts)
    requires t.opener != ""
    ensures WithRest(t, data, beyond, parts).id == parts.id
  {
    AttributesKeepKind(t, data, beyond, parts.(end := parts.end + 1));
  }

  lemma {:induction false} AttributesKeepKind(t: Tagger, data: string, beyond: char, parts: Parts)
    requires t.opener != ""
    ensures WithAttributes(t, data, beyond, parts).id == parts.id
    decreases Left(data, parts.end)
  {
    var one := WithAttribute(t, data, beyond, parts);
    AttributesStep(t, data, beyond, parts, one);
    if Separates(t, data, one.end) {
      AttributesKeepKind(t, data, beyond, one.(end := one.end + 1));
    }
  }

  /** All behind the beginning of a tag. */
  method ReadRest(ts: seq<Tagger>, stream: CCharStream, tag: Tag, mode: CParserMode, hash: string -> nat,
                  ghost start: nat, ghost parts: Parts, ghost key: nat)
    returns (ok: bool)
    requires IsTable(ts)
    requires stream.Valid() && stream.peek == 0 && NulFree(stream.data) && mode.Valid()
    requires tag.id == OpenerAt(ts, stream.data, start, KINDS) < KINDS && tag.opener == ts[tag.id].opener
    requires start + |tag.opener| <= stream.position <= |stream.data|
    requires Open(ts[tag.id], stream.data, start + |tag.opener|, stream.position)
    requires PartsOf(tag, stream) == Parts(tag.id, "", "", "", [], stream.position)
    requires stream.position == InnerStart(stream.data, stream.beyond, start + |tag.opener|)
    requires parts == Found(ts, stream.data, stream.beyond, start) && parts.id < KINDS
    requires key == hash(tag.opener + parts.name + ts[parts.id].closer)
    modifies stream, tag`id, tag`space, tag`interwiki, tag`name, tag`attributes, tag`closer, mode`stack
    ensures stream.Valid() && mode.Valid() && (!ok ==> mode.stack == old(mode.stack))
    ensures ok == (Ends(ts, stream.data, parts.id, parts.end) &&
                   !Refused(old(mode.stack), key, mode.modes, mode.normal))
    ensures ok ==> parts.end + |tag.closer| == stream.position + 1 && PartsOf(tag, stream).(end := parts.end) == parts
    ensures ok ==> HasRead(ts, stream.data, start, stream.position + 1, tag.id, tag.opener, tag.closer)
    ensures ok ==> mode.stack == Assigned(old(mode.stack), key, mode.modes, mode.normal)
  {
    ok := ReadInner(ts, stream, tag, start, start + |tag.opener|, parts);
    if ok {
      ok := ReadCloser(ts, stream, tag, mode, hash, start, key);
    }
  }

  lemma FoundInSteps(ts: seq<Tagger>, data: string, beyond: char, start: nat, id: nat, p: nat, spaced: Parts,
                     named: Parts, parts: Parts)
    requires IsTable(ts) && id == OpenerAt(ts, data, start, KINDS) < KINDS
    requires p == InnerStart(data, beyond, start + |ts[id].opener|)
    requires spaced == WithSpace(ts, data, beyond, id, p)
    requires named == WithName(ts[spaced.id], data, spaced)
    requires parts == WithRest(ts[spaced.id], data, beyond, named)
    ensures parts == Found(ts, data, beyond, start)
  {
  }

  lemma OpenInTwo(ts: seq<Tagger>, data: string, id: nat, now: nat, a: nat, b: nat, c: nat)
    requires IsTable(ts) && id < KINDS && (now == id || (now == BBCODE && id == WIKI_LINK))
    requires Open(ts[id], data, a, b) && Open(ts[now], data, b, c)
    ensures Open(ts[now], data, a, c)
  {
    assert ts[now].closer == ts[id].closer;
  }

  /** All between the beginning and the end, from `inner` on; it fails only behind the end of the text. */
  method ReadInner(ts: seq<Tagger>, stream: CCharStream, tag: Tag, ghost start: nat, ghost inner: nat,
                   ghost parts: Parts)
    returns (ok: bool)
    requires IsTable(ts)
    requires stream.Valid() && stream.peek == 0 && NulFree(stream.data)
    requires tag.id == OpenerAt(ts, stream.data, start, KINDS) < KINDS && inner == start + |ts[tag.id].opener|
    requires inner <= stream.position <= |stream.data|
    requires Open(ts[tag.id], stream.data, inner, stream.position)
    requires PartsOf(tag, stream) == Parts(tag.id, "", "", "", [], stream.position)
    requires stream.position == InnerStart(stream.data, stream.beyond, inner)
    requires parts == Found(ts, stream.data, stream.beyond, start)
    modifies stream, tag`id, tag`space, tag`interwiki, tag`name, tag`attributes
    ensures stream.Valid() && (!ok ==> stream.position > |stream.data|)
    ensures tag.id == old(tag.id) || (tag.id == BBCODE && old(tag.id) == WIKI_LINK)
    ensures OpenSoFar(ts, stream, tag.id, inner) && TaggersHave(ts, tag.id)
    ensures Stopped(ts[tag.id], stream.data, stream.position)
    ensures PartsOf(tag, stream) == parts
  {
    ghost var (id, p) := (tag.id, stream.position);
    ReadSpace(ts, stream, tag);
    ghost var spaced := PartsOf(tag, stream);
    if stream.position < |stream.data| {
      OpenInTwo(ts, stream.data, id, tag.id, inner, p, stream.position);
    }
    ReadName(ts, stream, tag, inner);
    ghost var named := PartsOf(tag, stream);
    ok := ReadAttributes(ts, stream, tag, inner);
    FoundInSteps(ts, stream.data, stream.beyond, start, id, p, spaced, named, PartsOf(tag, stream));
  }

  // ---- plain tags

  /** Plain characters up to the end of a tag of this kind. */
  predicate PlainUpTo(t: Tagger, data: string, p: nat, n: nat) {
    && t.closer != "" && p + n < |data| && Matches(data, p + n, t.closer) && (t.canAbort || n == 0)
    && forall q :: p <= q < p + n ==> IsPlain(data[q])
  }

  lemma {:induction false} PlainNameStops(t: Tagger, data: string, p: nat, n: nat)
    requires IsGood(t) && PlainUpTo(t, data, p, n)
    ensures NameStop(t, data, p) == p + n && EndsTags(data[p + n])
    decreases n
  {
    MatchStarts(data, p + n, t.closer);
    MatchStarts(data, p, t.closer);
    if n > 0 {
      PlainNameStops(t, data, p + 1, n - 1);
    }
  }

  lemma PlainHasNoSpace(ts: seq<Tagger>, data: string, beyond: char, id: nat, p: nat, n: nat)
    requires IsTable(ts) && id < KINDS && NulFree(data) && PlainUpTo(ts[id], data, p, n)
    ensures WithSpace(ts, data, beyond, id, p) == Parts(if id == WIKI_LINK then BBCODE else id, "", "", "", [], p)
  {
    assert GoodAt(ts, id);
    PlainNameStops(ts[id], data, p, n);
  }

  lemma PlainIsName(t: Tagger, data: string, beyond: char, parts: Parts, n: nat)
    requires IsGood(t) && PlainUpTo(t, data, parts.end, n)
    ensures var named := parts.(name := data[parts.end..parts.end + n], end := parts.end + n);
            WithName(t, data, parts) == named && WithRest(t, data, beyond, named) == named
  {
    PlainNameStops(t, data, parts.end, n);
    assert n == 0 ==> data[parts.end..parts.end + n] == "";
  }

  lemma PlainEnds(ts: seq<Tagger>, data: string, id: nat, now: nat, p: nat, n: nat, end: nat)
    requires IsTable(ts) && id < KINDS && now == (if id == WIKI_LINK then BBCODE else id)
    requires PlainUpTo(ts[id], data, p, n) && end == p + n
    ensures Ends(ts, data, now, end)
    ensures p < |data| && data[p] != ':'
  {
    assert GoodAt(ts, id);
    MatchStarts(data, p, ts[id].closer);
    CloserIsLast(ts, data, end, KINDS, id);
  }

  lemma PlainParts(ts: seq<Tagger>, data: string, beyond: char, id: nat, now: nat, p: nat, n: nat)
    requires IsTable(ts) && NulFree(data) && id < KINDS && now == (if id == WIKI_LINK then BBCODE else id)
    requires PlainUpTo(ts[id], data, p, n)
    ensures PartsAt(ts, data, beyond, id, p) == Parts(now, "", "", data[p..p + n], [], p + n)
  {
    PlainHasNoSpace(ts, data, beyond, id, p, n);
    assert GoodAt(ts, now) && GoodAt(ts, id);
    PlainIsName(ts[now], data, beyond, Parts(now, "", "", "", [], p), n);
  }

  lemma FoundIs(ts: seq<Tagger>, data: string, beyond: char, start: nat, id: nat, p: nat, parts: Parts)
    requires IsTable(ts) && id == OpenerAt(ts, data, start, KINDS) < KINDS
    requires p == InnerStart(data, beyond, start + |ts[id].opener|) && parts == PartsAt(ts, data, beyond, id, p)
    ensures Found(ts, data, beyond, start) == parts
  {
  }

  lemma PlainFound(ts: seq<Tagger>, data: string, beyond: char, start: nat, n: nat, id: nat, now: nat, p: nat)
    requires IsTable(ts) && NulFree(data) && id == OpenerAt(ts, data, start, KINDS) < KINDS
    requires p == start + |ts[id].opener| && PlainUpTo(ts[id], data, p, n)
    requires now == (if id == WIKI_LINK then BBCODE else id) && data[p] != ':'
    ensures Found(ts, data, beyond, start) == Parts(now, "", "", data[p..p + n], [], p + n)
  {
    PlainParts(ts, data, beyond, id, now, p, n);
    FoundIs(ts, data, beyond, start, id, p, PartsAt(ts, data, beyond, id, p));
  }

  /** A tag with nothing but a plain name in it is read whole: the name, no namespace and no attributes. */
  lemma PlainTagIsFound(ts: seq<Tagger>, data: string, beyond: char, start: nat, n: nat, id: nat, p: nat, parts: Parts)
    requires IsTable(ts) && NulFree(data) && id == OpenerAt(ts, data, start, KINDS) < KINDS
    requires p == start + |ts[id].opener| && PlainUpTo(ts[id], data, p, n)
    requires parts == Parts(if id == WIKI_LINK then BBCODE else id, "", "", data[p..p + n], [], p + n)
    ensures Found(ts, data, beyond, start) == parts && Ends(ts, data, parts.id, parts.end)
  {
    PlainEnds(ts, data, id, parts.id, p, n, parts.end);
    PlainFound(ts, data, beyond, start, n, id, parts.id, p);
  }
}
