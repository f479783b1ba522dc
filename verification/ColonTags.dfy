/** What the automaton of the colon scanner makes of tags and comments. */
module ColonTags {
  import opened ColonScanner

  /** From `i` to `j` no character moves the automaton. */
  lemma {:induction false} Stays(s: string, i: nat, j: nat, p: Place)
    requires i <= j <= |s| && Scan(s, i) == p && forall k :: i <= k < j ==> Advance(p, s[k]) == p
    ensures forall k :: i <= k <= j ==> Scan(s, k) == p
    decreases j
  {
    if i < j {
      Stays(s, i, j - 1, p);
      assert Scan(s, j) == Advance(p, s[j - 1]);
    }
  }

  ghost predicate NoSplit(s: string, i: nat, j: nat) { forall k :: i <= k < j ==> !SplitsAt(s, k) }

  /** The start of a tag at `i`, with nothing in it that ends it before `e`. */
  predicate TagFromTo(s: string, i: nat, e: nat) {
    && i + 2 <= e < |s| && s[i] == '<' && s[e] == '>'
    && s[i + 1] != '/' && s[i + 1] != '!' && s[i + 1] != '>'
    && forall k :: i + 2 <= k < e ==> s[k] != '>'
  }

  /** A tag opens one level, if it has no slash in it. */
  lemma TagOpens(s: string, i: nat, e: nat, depth: nat)
    requires TagFromTo(s, i, e) && Scan(s, i) == At(InText, depth) && forall k :: i + 2 <= k < e ==> s[k] != '/'
    ensures Scan(s, e + 1) == At(InText, depth + 1) && NoSplit(s, i, e + 1)
  {
    assert Scan(s, i + 1) == At(TagStart, depth) && Scan(s, i + 2) == At(Tag, depth);
    Stays(s, i + 2, e, At(Tag, depth));
  }

  /** A tag with a slash right in front of its end opens none. */
  lemma TagClosesItself(s: string, i: nat, e: nat, depth: nat)
    requires TagFromTo(s, i, e) && i + 3 <= e && s[e - 1] == '/' && Scan(s, i) == At(InText, depth)
    requires forall k :: i + 2 <= k < e - 1 ==> s[k] != '/'
    ensures Scan(s, e + 1) == At(InText, depth) && NoSplit(s, i, e + 1)
  {
    assert Scan(s, i + 1) == At(TagStart, depth) && Scan(s, i + 2) == At(Tag, depth);
    Stays(s, i + 2, e - 1, At(Tag, depth));
    assert Scan(s, e) == At(TagSlash, depth);
  }

  /** An end tag closes one level; where none is open, no colon counts any more. */
  lemma EndTagCloses(s: string, i: nat, e: nat, depth: nat)
    requires i + 2 <= e < |s| && s[i] == '<' && s[i + 1] == '/' && s[e] == '>' && Scan(s, i) == At(InText, depth)
    requires forall k :: i + 2 <= k < e ==> s[k] != '>'
    ensures NoSplit(s, i, e + 1)
    ensures if depth > 0 then Scan(s, e + 1) == At(InText, depth - 1) else NoSplit(s, i, |s|)
  {
    assert Scan(s, i + 1) == At(TagStart, depth) && Scan(s, i + 2) == At(CloseTag, depth);
    Stays(s, i + 2, e, At(CloseTag, depth));
    if depth == 0 {
      NoSplitOnceBroken(s, e + 1);
    }
  }

  /** Inside of a comment in which no two dashes follow one another. */
  lemma {:induction false} InComment(s: string, i: nat, j: nat, depth: nat)
    requires i <= j <= |s| && Scan(s, i) == At(Comment, depth)
    requires forall k :: i < k < j ==> !(s[k - 1] == '-' && s[k] == '-')
    ensures Scan(s, j) == At(if j > i && s[j - 1] == '-' then CommentDash else Comment, depth)
    decreases j
  {
    if i < j {
      InComment(s, i, j - 1, depth);
    }
  }

  /** A comment is skipped whole: it ends at the first two dashes and bracket, and opens and closes nothing. */
  lemma CommentIsSkipped(s: string, i: nat, e: nat, depth: nat)
    requires i + 2 <= e && e + 3 <= |s| && s[i] == '<' && s[i + 1] == '!' && Scan(s, i) == At(InText, depth)
    requires s[e] == '-' && s[e + 1] == '-' && s[e + 2] == '>'
    requires forall k :: i + 2 < k <= e ==> !(s[k - 1] == '-' && s[k] == '-')
    ensures Scan(s, e + 3) == At(InText, depth) && NoSplit(s, i, e + 3)
  {
    assert Scan(s, i + 1) == At(TagStart, depth) && Scan(s, i + 2) == At(Comment, depth);
    InComment(s, i + 2, e, depth);
    forall k | i <= k < e + 3
      ensures !SplitsAt(s, k)
    {
      if i + 2 <= k <= e {
        InComment(s, i + 2, k, depth);
      }
    }
    assert Scan(s, e + 1) == At(CommentDash, depth) && Scan(s, e + 2) == At(CommentDashDash, depth);
  }
}
