/** Which of the lists that are open stay the same, from one line to the next. */
module BlockItems {
  import opened ListPrefix
  import opened Markup
  import opened BlockLevels

  lemma {:induction false} PopsAre(s: Spots, n: nat)
    requires n <= |s.begun|
    ensures s.Pops(n).begun == s.begun[..|s.begun| - n]
  {
    if n > 0 {
      PopsAre(s, n - 1);
    }
  }

  lemma {:induction false} PushesAre(s: Spots, n: nat)
    ensures s.begun <= s.Pushes(n).begun && |s.Pushes(n).begun| == |s.begun| + n
    ensures forall i :: |s.begun| <= i < |s.begun| + n ==> s.Pushes(n).begun[i] == s.opens + i - |s.begun|
    ensures s.Pushes(n).opens == s.opens + n
  {
    if n > 0 {
      PushesAre(s, n - 1);
    }
  }

  /** How many of the open lists and items a line with list characters leaves as they are. */
  function KeptTags(l: Lists, prefix: string): nat {
    var m := Common(prefix, l.prefix);
    if prefix != "" && Folded(prefix) == l.prefix then 2 * |prefix| - 1
    else if 0 < m == |prefix| then 2 * m - 1 else 2 * m
  }

  /** The lists that a line shares with the last one are the same lists; all others that it opens are new. */
  lemma SharedListsStay(l: Lists, section: Section, prefix: string, s: Spots)
    requires prefix != "" && |s.begun| == 2 * |l.prefix| + |SectionTags(section)|
    requires l.prefix != "" ==> section == NoSection
    ensures var (kept, r) := (KeptTags(l, prefix), ItemSpots(l, section, prefix, s));
            && kept <= |s.begun| && |r.begun| == 2 * |prefix| && r.begun[..kept] == s.begun[..kept]
            && forall i :: kept <= i < |r.begun| ==> r.begun[i] >= s.opens
  {
    var m := Common(prefix, l.prefix);
    if Folded(prefix) != l.prefix {
      var closed := s.Pops(2 * (|l.prefix| - m));
      PopsKeepOpens(s, 2 * (|l.prefix| - m));
      PopsAre(s, 2 * (|l.prefix| - m));
      if m < |prefix| {
        PushesAre(OutOf(section, SharedSpots(l, prefix, s)), 2 * (|prefix| - m));
      }
    }
  }
}
