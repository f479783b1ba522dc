/** MediaWiki's findColonNoLinks: splits "term : definition" at the first colon outside of tags. */
module ColonScanner {

  datatype State = InText | Tag | TagStart | CloseTag | TagSlash | Comment | CommentDash | CommentDashDash

  /** The state of the automaton and how many tags are open; `Broken` behind a close tag too many. */
  datatype Place = Broken | At(state: State, depth: nat)

  /** One character. */
  function Advance(p: Place, c: char): Place {
    if p == Broken then Broken
    else
      match p.state
      case InText => At(if c == '<' then TagStart else InText, p.depth)
      case Tag =>
        if c == '>' then At(InText, p.depth + 1) else if c == '/' then At(TagSlash, p.depth) else p
      case TagStart =>
        At(if c == '/' then CloseTag else if c == '!' then Comment else if c == '>' then InText else Tag, p.depth)
      case CloseTag =>
        if c != '>' then p else if p.depth == 0 then Broken else At(InText, p.depth - 1)
      case TagSlash => At(if c == '>' then InText else Tag, p.depth)
      case Comment => At(if c == '-' then CommentDash else Comment, p.depth)
      case CommentDash => At(if c == '-' then CommentDashDash else Comment, p.depth)
      case CommentDashDash => At(if c == '>' then InText else Comment, p.depth)
  }

  /** The automaton, one character at a time. */
  function Scan(s: string, n: nat): Place
    requires n <= |s|
  {
    if n == 0 then At(InText, 0) else Advance(Scan(s, n - 1), s[n - 1])
  }

  /** A colon in the text outside of all tags. */
  predicate SplitsAt(s: string, k: nat) {
    k < |s| && s[k] == ':' && Scan(s, k) == At(InText, 0)
  }

  /** The first place from `i` on where `c` stands, or -1. */
  function Strpos(s: string, c: char, i: nat): (p: int)
    requires i <= |s|
    ensures p == -1 || i <= p < |s|
    ensures p >= 0 ==> s[p] == c
    ensures forall j :: i <= j < (if p == -1 then |s| else p) ==> s[j] != c
    decreases |s| - i
  {
    if i == |s| then -1 else if s[i] == c then i else Strpos(s, c, i + 1)
  }

  /** In text without a tag the automaton stays where it is. */
  lemma {:induction false} ScanText(s: string, i: nat, j: nat)
    requires i <= j <= |s| && Scan(s, i).At? && Scan(s, i).state == InText
    requires forall k :: i <= k < j ==> s[k] != '<'
    ensures Scan(s, j) == Scan(s, i)
    decreases j
  {
    if i < j {
      ScanText(s, i, j - 1);
    }
  }

  /** So with a tag open no colon in it counts. */
  lemma NoSplitInText(s: string, i: nat, j: nat)
    requires i <= j <= |s| && Scan(s, i).At? && Scan(s, i).state == InText
    requires forall k :: i <= k < j ==> s[k] != '<'
    requires Scan(s, i).depth > 0 || forall k :: i <= k < j ==> s[k] != ':'
    ensures forall k :: i <= k < j ==> !SplitsAt(s, k)
  {
    forall k | i <= k < j
      ensures !SplitsAt(s, k)
    {
      ScanText(s, i, k);
    }
  }

  lemma {:induction false} BrokenStaysBroken(s: string, i: nat, j: nat)
    requires i <= j <= |s| && Scan(s, i) == Broken
    ensures Scan(s, j) == Broken
    decreases j
  {
    if i < j {
      BrokenStaysBroken(s, i, j - 1);
    }
  }

  lemma NoSplitOnceBroken(s: string, i: nat)
    requires i <= |s| && Scan(s, i) == Broken
    ensures forall k :: i <= k < |s| ==> !SplitsAt(s, k)
  {
    forall k | i <= k < |s|
      ensures !SplitsAt(s, k)
    {
      BrokenStaysBroken(s, i, k);
    }
  }

  /** A stretch of text starts at `r`: at the start, or behind the end of a tag or a comment. */
  predicate StartsText(s: string, r: nat) {
    r <= |s| && Scan(s, r).At? && Scan(s, r).state == InText &&
    (r > 0 ==> Scan(s, r - 1).At? && Scan(s, r - 1).state != InText)
  }

  /** The first colon that counts. */
  predicate IsColon(str: string, colon: nat) {
    SplitsAt(str, colon) && forall k :: 0 <= k < colon ==> !SplitsAt(str, k)
  }

  datatype Split = NotFound | Found(before: string, after: string, result: nat)

  ghost predicate Correct(str: string, r: Split) {
    match r
    case NotFound => forall k :: !SplitsAt(str, k)
    case Found(before, after, result) =>
      var colon := |before|;
      && str == before + [':'] + after && IsColon(str, colon)
      && if '<' !in before then result == colon
         else StartsText(str, result) && result <= colon && '<' !in str[result..colon]
  }

  /** The number returned is the place of the colon if and only if no tag comes before it, or one ends right there. */
  lemma ResultIsColon(str: string, colon: nat, r: Split)
    requires IsColon(str, colon) && Correct(str, r)
    ensures r.Found?
    ensures r.result == colon <==> (forall k :: 0 <= k < colon ==> str[k] != '<') || StartsText(str, colon)
  {
    assert r.Found? && |r.before| == colon && r.before == str[..colon];
    if '<' in r.before && StartsText(str, colon) && r.result < colon {
      forall k | r.result <= k < colon - 1
        ensures str[k] != '<'
      {
        assert str[r.result..colon][k - r.result] == str[k];
      }
      ScanText(str, r.result, colon - 1);
    }
  }

  /** Behind a tag and a letter, it is the place of the letter. */
  lemma ColonBehindTag(str: string)
    requires str == "<a/>b:c"
    ensures Correct(str, Found("<a/>b", "c", 4))
    ensures str[5] == ':' && !StartsText(str, 5)
  {
    assert str[0] == '<' && str[1] == 'a' && str[2] == '/' && str[3] == '>' && str[4] == 'b' && str[5] == ':';
    assert Scan(str, 1) == At(TagStart, 0) && Scan(str, 2) == At(Tag, 0);
    assert Scan(str, 3) == At(TagSlash, 0) && Scan(str, 4) == At(InText, 0) && Scan(str, 5) == At(InText, 0);
    assert SplitsAt(str, 5);
    assert str[4..5] == "b" && "<a/>b"[0] == '<';
  }

  function FoundAt(str: string, colon: nat, result: nat): Split
    requires colon < |str|
  {
    Found(str[..colon], str[colon + 1..], result)
  }

  lemma FoundFirst(str: string, colon: nat)
    requires colon < |str| && str[colon] == ':' && (forall k :: 0 <= k < colon ==> str[k] != ':')
    requires forall k :: 0 <= k < colon ==> str[k] != '<'
    ensures Correct(str, FoundAt(str, colon, colon))
  {
    ScanText(str, 0, colon);
    assert str == str[..colon] + [':'] + str[colon + 1..];
  }

  lemma FoundInText(str: string, colon: nat, result: nat, tag: nat)
    requires result <= colon < |str| && str[colon] == ':' && StartsText(str, result) && Scan(str, result).depth == 0
    requires forall k :: result <= k < colon ==> str[k] != '<' && str[k] != ':'
    requires forall k :: 0 <= k < result ==> !SplitsAt(str, k)
    requires tag < colon && str[tag] == '<'
    ensures Correct(str, FoundAt(str, colon, result))
  {
    ScanText(str, result, colon);
    NoSplitInText(str, result, colon);
    assert str == str[..colon] + [':'] + str[colon + 1..];
    assert str[..colon][tag] == '<';
  }

  /** One character inside of a tag or a comment. */
  method InsideTag(before: State, depth: nat, c: char) returns (state: State, stack: nat, broken: bool)
    requires before != InText
    ensures Advance(At(before, depth), c) == if broken then Broken else At(state, stack)
    ensures broken ==> before == CloseTag
  {
    state, stack, broken := before, depth, false;
    match state
    case Tag =>
      if c == '>' {
        stack := stack + 1;
        state := InText;
      } else if c == '/' {
        state := TagSlash;
      }
    case TagStart =>
      if c == '/' {
        state := CloseTag;
      } else if c == '!' {
        state := Comment;
      } else if c == '>' {
        state := InText;
      } else {
        state := Tag;
      }
    case CloseTag =>
      if c == '>' {
        if stack == 0 {
          broken := true;
          return;
        }
        stack := stack - 1;
        state := InText;
      }
    case TagSlash =>
      if c == '>' {
        state := InText;
      } else {
        state := Tag;
      }
    case Comment =>
      if c == '-' {
        state := CommentDash;
      }
    case CommentDash =>
      if c == '-' {
        state := CommentDashDash;
      } else {
        state := Comment;
      }
    case CommentDashDash =>
      if c == '>' {
        state := InText;
      } else {
        state := Comment;
      }
    case InText =>
  }

  /** In text: the end of the search, or the colon or the start of a tag that the loop goes on behind. */
  method TextStep(str: string, start: nat, stack: nat, ghost tag: nat)
      returns (done: bool, r: Split, i: nat, state: State)
    requires start < |str| && Scan(str, start) == At(InText, stack)
    requires forall k :: 0 <= k < start ==> !SplitsAt(str, k)
    requires stack == 0 ==> StartsText(str, start)
    requires tag < |str| && str[tag] == '<' && forall k :: 0 <= k <= tag ==> str[k] != ':'
    ensures done ==> Correct(str, r)
    ensures !done ==>
              && start <= i < |str| && Scan(str, i + 1) == At(state, stack)
              && (state == InText ==> stack > 0)
              && forall k :: 0 <= k <= i ==> !SplitsAt(str, k)
  {
    done, r, i, state := true, NotFound, start, InText;
    var c := str[i];
    if c == '<' {
      return false, r, i, TagStart;
    } else if c == ':' {
      if stack == 0 {
        FoundInText(str, i, i, tag);
        r := Found(str[..i], str[i + 1..], i);
        return;
      }
      return false, r, i, InText;
    }
    var colon := Strpos(str, ':', i);
    if colon == -1 {
      return;
    }
    var lt := Strpos(str, '<', i);
    if stack == 0 {
      if lt == -1 || colon < lt {
        FoundInText(str, colon, i, tag);
        r := Found(str[..colon], str[colon + 1..], i);
        return;
      }
    }
    if lt == -1 {
      NoSplitInText(str, i, |str|);
      return;
    }
    ScanText(str, i, lt);
    NoSplitInText(str, i, lt);
    return false, r, lt, TagStart;
  }

  /**
     With its shortcuts the scanner splits where the plain automaton finds the first colon in text outside
     of all tags. The number it returns is the place of that colon only when no tag comes before it or the
     colon comes right behind one; else it is where the text behind the last tag starts.
   */
  method FindColonNoLinks(str: string) returns (r: Split)
    ensures Correct(str, r)
  {
    var pos := Strpos(str, ':', 0);
    if pos == -1 {
      return NotFound;
    }
    var lt := Strpos(str, '<', 0);
    if lt == -1 || lt > pos {
      FoundFirst(str, pos);
      return Found(str[..pos], str[pos + 1..], pos);
    }
    ghost var tag := lt;
    var state, stack: nat, i := InText, 0, 0;
    while i < |str|
      invariant 0 <= i <= |str| && Scan(str, i) == At(state, stack)
      invariant forall k :: 0 <= k < i ==> !SplitsAt(str, k)
      invariant state == InText && stack == 0 ==> StartsText(str, i)
      decreases |str| - i
    {
      var c := str[i];
      if state == InText {
        var done;
        done, r, i, state := TextStep(str, i, stack, tag);
        if done {
          return;
        }
      } else {
        var broken;
        state, stack, broken := InsideTag(state, stack, c);
        if broken {
          NoSplitOnceBroken(str, i + 1);
          return NotFound;
        }
      }
      i := i + 1;
    }
    return NotFound;
  }
}
