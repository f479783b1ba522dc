/** The characters at the start of a line that stand for lists, as both parsers of wiki lists read them. */
module ListPrefix {
  predicate IsListChar(ch: char) { ch == '*' || ch == '#' || ch == ':' || ch == ';' }

  /** How far two prefixes agree. */
  function Common(a: string, b: string): (m: nat)
    ensures m <= |a| && m <= |b| && (forall i :: 0 <= i < m ==> a[i] == b[i])
    ensures m < |a| && m < |b| ==> a[m] != b[m]
  {
    CommonFrom(a, b, 0)
  }

  function CommonFrom(a: string, b: string, k: nat): (m: nat)
    requires k <= |a| && k <= |b| && forall i :: 0 <= i < k ==> a[i] == b[i]
    ensures k <= m <= |a| && m <= |b| && (forall i :: 0 <= i < m ==> a[i] == b[i])
    ensures m < |a| && m < |b| ==> a[m] != b[m]
    decreases |a| - k
  {
    if k < |a| && k < |b| && a[k] == b[k] then CommonFrom(a, b, k + 1) else k
  }

  /** There is no other such place. */
  lemma CommonIs(a: string, b: string, m: nat)
    requires m <= |a| && m <= |b| && (forall i :: 0 <= i < m ==> a[i] == b[i])
    requires m < |a| && m < |b| ==> a[m] != b[m]
    ensures Common(a, b) == m
  {
  }
}
