/** Numbers such as "2.1.3", and the order in which they come. */
module Dotted {

  function Digit(d: nat): (ch: char)
    requires d < 10
    ensures ch != '.' && ch as int == '0' as int + d
  {
    '0' + d as char
  }

  predicate IsNumber(s: string) { forall i :: 0 <= i < |s| ==> '0' <= s[i] <= '9' }

  function Decimal(n: nat): (s: string)
    ensures s != "" && IsNumber(s)
  {
    if n < 10 then [Digit(n)] else Decimal(n / 10) + [Digit(n % 10)]
  }

  function Value(s: string): nat
    requires IsNumber(s)
  {
    if s == "" then 0 else 10 * Value(s[..|s| - 1]) + (s[|s| - 1] as int - '0' as int)
  }

  lemma {:induction false} ValueOfDecimal(n: nat)
    ensures Value(Decimal(n)) == n
  {
    if n >= 10 {
      ValueOfDecimal(n / 10);
      assert Decimal(n)[..|Decimal(n)| - 1] == Decimal(n / 10);
    } else {
      assert Decimal(n)[..0] == "";
    }
  }

  /** The numbers with dots between them. */
  function Label(ns: seq<nat>): (s: string)
    requires ns != []
    ensures s != ""
  {
    if |ns| == 1 then Decimal(ns[0]) else Decimal(ns[0]) + "." + Label(ns[1..])
  }

  lemma {:induction false} LabelOfLonger(ns: seq<nat>, n: nat)
    requires ns != []
    ensures Label(ns + [n]) == Label(ns) + "." + Decimal(n)
  {
    assert (ns + [n])[1..] == ns[1..] + [n];
    if |ns| > 1 {
      LabelOfLonger(ns[1..], n);
    }
  }

  /** The first `n` numbers, each with a dot behind it. */
  function Dots(ns: seq<nat>, n: nat): string
    requires n <= |ns|
  {
    if n == 0 then "" else Dots(ns, n - 1) + Decimal(ns[n - 1]) + "."
  }

  lemma {:induction false} DotsOfLonger(ns: seq<nat>, more: seq<nat>, n: nat)
    requires n <= |ns| && ns <= more
    ensures Dots(ns, n) == Dots(more, n)
  {
    if n > 0 {
      DotsOfLonger(ns, more, n - 1);
    }
  }

  lemma {:induction false} LabelIsDots(ns: seq<nat>, last: nat)
    ensures Label(ns + [last]) == Dots(ns, |ns|) + Decimal(last)
  {
    if ns != [] {
      var n := |ns| - 1;
      LabelIsDots(ns[..n], ns[n]);
      assert ns[..n] + [ns[n]] == ns;
      DotsOfLonger(ns[..n], ns, n);
      LabelOfLonger(ns, last);
    }
  }

  /** Where the first number ends. */
  function FirstDot(s: string): (k: nat)
    ensures k <= |s| && (k < |s| ==> s[k] == '.') && forall i :: 0 <= i < k ==> s[i] != '.'
  {
    if s == "" || s[0] == '.' then 0 else 1 + FirstDot(s[1..])
  }

  lemma FirstDotBehind(s: string, rest: string)
    requires IsNumber(s)
    ensures rest == "" || rest[0] == '.' ==> FirstDot(s + rest) == |s|
  {
    assert forall i :: 0 <= i < |s| ==> (s + rest)[i] == s[i];
    assert rest != "" ==> (s + rest)[|s|] == rest[0];
  }

  /** What follows the first number. */
  function Rest(ns: seq<nat>): string
    requires ns != []
  {
    if |ns| == 1 then "" else "." + Label(ns[1..])
  }

  lemma LabelSplits(ns: seq<nat>)
    requires ns != []
    ensures var k := FirstDot(Label(ns)); Label(ns)[..k] == Decimal(ns[0]) && Label(ns)[k..] == Rest(ns)
  {
    assert Label(ns) == Decimal(ns[0]) + Rest(ns);
    FirstDotBehind(Decimal(ns[0]), Rest(ns));
  }

  /** Equal labels are of equal numbers. */
  lemma {:induction false} LabelsDiffer(a: seq<nat>, b: seq<nat>)
    requires a != [] && b != [] && Label(a) == Label(b)
    ensures a == b
  {
    LabelSplits(a);
    LabelSplits(b);
    ValueOfDecimal(a[0]);
    ValueOfDecimal(b[0]);
    if |a| > 1 {
      assert Label(a[1..]) == Rest(a)[1..] == Rest(b)[1..] == Label(b[1..]);
      LabelsDiffer(a[1..], b[1..]);
    }
  }

  // ---- the order

  /** They agree on the first `k` numbers, and then `a` ends or has the smaller number. */
  predicate BeforeAt(a: seq<nat>, b: seq<nat>, k: nat) {
    k <= |a| && k < |b| && a[..k] == b[..k] && (k < |a| ==> a[k] < b[k])
  }

  ghost predicate Before(a: seq<nat>, b: seq<nat>) { exists k: nat :: BeforeAt(a, b, k) }

  lemma BeforeIsTransitive(a: seq<nat>, b: seq<nat>, c: seq<nat>)
    requires Before(a, b) && Before(b, c)
    ensures Before(a, c)
  {
    var k: nat :| BeforeAt(a, b, k);
    var m: nat :| BeforeAt(b, c, m);
    var n := if k < m then k else m;
    assert a[..n] == a[..k][..n] == b[..k][..n] == b[..n] == b[..m][..n] == c[..m][..n] == c[..n];
    if k < m {
      assert b[k] == b[..m][k] == c[..m][k] == c[k];
    } else if m < k {
      assert a[m] == a[..k][m] == b[..k][m] == b[m];
    }
    assert BeforeAt(a, c, n);
  }

  lemma BeforeIsStrict(a: seq<nat>)
    ensures !Before(a, a)
  {
    forall k: nat ensures !BeforeAt(a, a, k) {}
  }

  /** In a list where each is before the next, they all are, and so are all different. */
  lemma {:induction false} AllBefore(list: seq<seq<nat>>, i: nat, j: nat)
    requires forall k :: 0 <= k < |list| - 1 ==> Before(list[k], list[k + 1])
    requires i < j < |list|
    ensures Before(list[i], list[j]) && list[i] != list[j]
    decreases j
  {
    if j > i + 1 {
      AllBefore(list, i, j - 1);
      BeforeIsTransitive(list[i], list[j - 1], list[j]);
    }
    BeforeIsStrict(list[i]);
  }
}
