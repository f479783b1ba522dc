/** Raw bytes, and the few facts about joining blocks of them that the other modules share. */
module Bytes {
  newtype byte = x: int | 0 <= x < 256

  const CR: byte := 13
  const LF: byte := 10

  function Min(a: int, b: int): int { if a < b then a else b }

  function Max(a: int, b: int): int { if a < b then b else a }

  function Join<T>(blocks: seq<seq<T>>): seq<T> {
    if blocks == [] then [] else blocks[0] + Join(blocks[1..])
  }

  lemma Associative<T>(a: seq<T>, b: seq<T>, c: seq<T>)
    ensures a + (b + c) == (a + b) + c
  {
  }

  lemma {:induction false} JoinAppend<T>(a: seq<seq<T>>, b: seq<seq<T>>)
    ensures Join(a + b) == Join(a) + Join(b)
  {
    if a == [] {
      assert a + b == b;
    } else {
      assert (a + b)[1..] == a[1..] + b;
      JoinAppend(a[1..], b);
    }
  }

  lemma JoinSnoc<T>(blocks: seq<seq<T>>, last: seq<T>)
    ensures Join(blocks + [last]) == Join(blocks) + last
  {
    JoinAppend(blocks, [last]);
    assert Join([last]) == last;
  }

  /** Where a block lies among the joined ones. */
  lemma {:induction false} JoinAt<T>(blocks: seq<seq<T>>, k: nat)
    requires k < |blocks|
    ensures var at := |Join(blocks[..k])|;
            && at + |blocks[k]| == |Join(blocks[..k + 1])| <= |Join(blocks)|
            && Join(blocks)[at..at + |blocks[k]|] == blocks[k]
  {
    assert blocks == blocks[..k] + ([blocks[k]] + blocks[k + 1..]);
    JoinAppend(blocks[..k], [blocks[k]] + blocks[k + 1..]);
    JoinAppend(blocks[..k], [blocks[k]]);
    assert blocks[..k + 1] == blocks[..k] + [blocks[k]];
    assert Join([blocks[k]]) == blocks[k];
    assert ([blocks[k]] + blocks[k + 1..])[1..] == blocks[k + 1..];
  }

  /** Position of the first `c`, or -1. */
  function FirstIndex(s: seq<byte>, c: byte): (i: int)
    ensures -1 <= i < |s|
    ensures i == -1 ==> c !in s
    ensures i >= 0 ==> s[i] == c && c !in s[..i]
  {
    if s == [] then -1
    else if s[0] == c then 0
    else
      var rest := FirstIndex(s[1..], c);
      assert rest >= 0 ==> s[..rest + 1] == [s[0]] + s[1..][..rest];
      if rest == -1 then -1 else rest + 1
  }
}
