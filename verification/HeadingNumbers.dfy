/** How the number of a heading follows from that of the heading in front of it. */
module HeadingNumbers {
  import opened HeadingLevels

  /**
   A heading goes below all headings around the last one that are of a lower level, whose numbers it takes over. Of what
   is left it comes next: with one more than the heading there, or with one if there is none.
   */
  lemma NumbersCountUp(headings: seq<nat>, n: nat)
    requires n < |headings|
    ensures var (p, q) := (After(headings, n), After(headings, n + 1));
            var m := |q.levels|;
            && 1 <= m == |q.counts| <= |p.levels| + 1 && q.levels[m - 1] == headings[n]
            && q.levels[..m - 1] == p.levels[..m - 1] && q.counts[..m - 1] == p.counts[..m - 1]
            && (forall i :: 0 <= i < m - 1 ==> q.levels[i] < headings[n])
            && (m <= |p.levels| ==> p.levels[m - 1] >= headings[n])
            && q.counts[m - 1] == if m <= |p.levels| then p.counts[m - 1] + 1 else 1
  {
    AllBelow(After(headings, n).levels, headings[n], 0);
  }
}
