/**
 QRingBuffer: a FIFO of bytes kept in a list of resizable blocks. A block is a QByteArray, which is
 a value, so the list is a sequence of byte sequences that the methods reassign.
 */
module RingBuffer {
  import opened Bytes

  /** `head` and `tail` point into the first and the last block. */
  predicate Fits(blocks: seq<seq<byte>>, head: int, tail: int) {
    && |blocks| >= 1
    && 0 <= head <= |blocks[0]|
    && 0 <= tail <= |blocks[|blocks| - 1]|
    && (|blocks| == 1 ==> head <= tail)
  }

  /** Where reading starts and stops in block `i`. */
  function Start(i: nat, head: int): int { if i == 0 then head else 0 }

  function End(blocks: seq<seq<byte>>, i: nat, tail: int): int
    requires i < |blocks|
  {
    if i == |blocks| - 1 then tail else |blocks[i]|
  }

  /** The live bytes from block `i` on. */
  function LiveFrom(blocks: seq<seq<byte>>, i: nat, head: int, tail: int): seq<byte>
    requires Fits(blocks, head, tail) && i <= |blocks|
    decreases |blocks| - i
  {
    if i == |blocks| then []
    else if i == |blocks| - 1 then blocks[i][Start(i, head)..tail]
    else blocks[i][Start(i, head)..] + LiveFrom(blocks, i + 1, head, tail)
  }

  lemma LiveFromStep(blocks: seq<seq<byte>>, i: nat, head: int, tail: int)
    requires Fits(blocks, head, tail) && i < |blocks|
    ensures 0 <= Start(i, head) <= End(blocks, i, tail) <= |blocks[i]|
    ensures LiveFrom(blocks, i, head, tail)
            == blocks[i][Start(i, head)..End(blocks, i, tail)] + LiveFrom(blocks, i + 1, head, tail)
  {
  }

  /** The bytes between `head` in the first block and `tail` in the last one. */
  function Live(blocks: seq<seq<byte>>, head: int, tail: int): seq<byte>
    requires Fits(blocks, head, tail)
  {
    LiveFrom(blocks, 0, head, tail)
  }

  lemma {:induction false} LiveFromSecondBlock(blocks: seq<seq<byte>>, head: int, tail: int, i: nat)
    requires Fits(blocks, head, tail) && i + 1 < |blocks|
    ensures Fits(blocks[1..], 0, tail)
    ensures LiveFrom(blocks, i + 1, head, tail) == LiveFrom(blocks[1..], i, 0, tail)
    decreases |blocks| - i
  {
    if i + 2 < |blocks| {
      LiveFromSecondBlock(blocks, head, tail, i + 1);
    }
  }

  /** Seen from the front: the rest of the first block, and then what a buffer without it would hold. */
  lemma LiveSplitsAtFirstBlock(blocks: seq<seq<byte>>, head: int, tail: int)
    requires Fits(blocks, head, tail) && |blocks| >= 2
    ensures Fits(blocks[1..], 0, tail)
    ensures Live(blocks, head, tail) == blocks[0][head..] + Live(blocks[1..], 0, tail)
  {
    LiveFromSecondBlock(blocks, head, tail, 0);
  }

  lemma FitsWithoutLastBlock(blocks: seq<seq<byte>>, head: int, tail: int)
    requires Fits(blocks, head, tail) && |blocks| >= 2
    ensures Fits(blocks[..|blocks| - 1], head, |blocks[|blocks| - 2]|)
  {
  }

  lemma {:induction false} LiveFromSplitsAtLastBlock(blocks: seq<seq<byte>>, head: int, tail: int, i: nat,
                                                     front: seq<seq<byte>>)
    requires Fits(blocks, head, tail) && i < |blocks| - 1
    requires front == blocks[..|blocks| - 1] && Fits(front, head, |blocks[|blocks| - 2]|)
    ensures LiveFrom(blocks, i, head, tail)
            == LiveFrom(front, i, head, |blocks[|blocks| - 2]|) + blocks[|blocks| - 1][..tail]
    decreases |blocks| - i
  {
    if i < |blocks| - 2 {
      LiveFromSplitsAtLastBlock(blocks, head, tail, i + 1, front);
      Associative(blocks[i][Start(i, head)..], LiveFrom(front, i + 1, head, |blocks[|blocks| - 2]|),
                  blocks[|blocks| - 1][..tail]);
    }
  }

  /** Seen from the back: all but the last block, read to its end, and then the start of the last block. */
  lemma LiveSplitsAtLastBlock(blocks: seq<seq<byte>>, head: int, tail: int)
    requires Fits(blocks, head, tail) && |blocks| >= 2
    ensures var front := blocks[..|blocks| - 1];
            && Fits(front, head, |front[|front| - 1]|)
            && Live(blocks, head, tail)
               == Live(front, head, |front[|front| - 1]|) + blocks[|blocks| - 1][..tail]
  {
    FitsWithoutLastBlock(blocks, head, tail);
    LiveFromSplitsAtLastBlock(blocks, head, tail, 0, blocks[..|blocks| - 1]);
  }

  /** Only the live part of the last block matters; what lies behind `tail` is free space. */
  lemma LiveIgnoresFreeSpace(blocks: seq<seq<byte>>, head: int, tail: int, last: seq<byte>, newTail: int)
    requires Fits(blocks, head, tail) && tail <= newTail <= |last|
    requires last[..tail] == blocks[|blocks| - 1][..tail]
    ensures var resized := blocks[|blocks| - 1 := last];
            && Fits(resized, head, newTail)
            && Live(resized, head, newTail) == Live(blocks, head, tail) + last[tail..newTail]
  {
    var resized := blocks[|blocks| - 1 := last];
    if |blocks| == 1 {
      assert last[head..newTail] == last[..tail][head..] + last[tail..newTail];
      assert blocks[0][head..tail] == blocks[0][..tail][head..];
    } else {
      LiveSplitsAtLastBlock(blocks, head, tail);
      LiveSplitsAtLastBlock(resized, head, newTail);
      assert resized[..|blocks| - 1] == blocks[..|blocks| - 1];
      assert last[..newTail] == last[..tail] + last[tail..newTail];
    }
  }

  /** A byte written just in front of the live part of the first block joins it. */
  lemma LiveGainsByte(blocks: seq<seq<byte>>, head: int, tail: int, c: byte)
    requires Fits(blocks, head + 1, tail) && 0 <= head
    ensures var written := blocks[0 := blocks[0][head := c]];
            && Fits(written, head, tail)
            && Live(written, head, tail) == [c] + Live(blocks, head + 1, tail)
  {
    var written := blocks[0 := blocks[0][head := c]];
    assert written[0][head + 1..] == blocks[0][head + 1..];
    if |blocks| > 1 {
      LiveSplitsAtFirstBlock(blocks, head + 1, tail);
      LiveSplitsAtFirstBlock(written, head, tail);
      assert written[1..] == blocks[1..];
      assert written[0][head..] == [c] + blocks[0][head + 1..];
    }
  }

  /** Moving `head` on inside the first block drops that many bytes. */
  lemma LiveLosesHead(blocks: seq<seq<byte>>, head: int, tail: int, n: nat)
    requires Fits(blocks, head, tail)
    requires head + n <= if |blocks| == 1 then tail else |blocks[0]|
    ensures Fits(blocks, head + n, tail) && n <= |Live(blocks, head, tail)|
    ensures Live(blocks, head + n, tail) == Live(blocks, head, tail)[n..]
  {
    if |blocks| > 1 {
      LiveSplitsAtFirstBlock(blocks, head, tail);
      LiveSplitsAtFirstBlock(blocks, head + n, tail);
    }
  }

  /** Moving `tail` back inside the last block drops that many bytes. */
  lemma LiveLosesTail(blocks: seq<seq<byte>>, head: int, tail: int, newTail: int)
    requires Fits(blocks, head, tail) && 0 <= newTail <= tail
    requires |blocks| == 1 ==> head <= newTail
    ensures var all := Live(blocks, head, tail);
            && tail - newTail <= |all|
            && Fits(blocks, head, newTail)
            && Live(blocks, head, newTail) == all[..|all| - (tail - newTail)]
  {
    var last := blocks[|blocks| - 1];
    LiveIgnoresFreeSpace(blocks, head, newTail, last, tail);
    assert blocks == blocks[|blocks| - 1 := last];
  }

  /** A new block behind the last one, which is cut to its live part first, adds its own start. */
  lemma LiveGrowsByBlock(blocks: seq<seq<byte>>, head: int, tail: int, cut: seq<byte>, next: seq<byte>, n: nat)
    requires Fits(blocks, head, tail) && n <= |next|
    requires cut == blocks[|blocks| - 1][..tail]
    ensures var grown := blocks[|blocks| - 1 := cut] + [next];
            && Fits(grown, head, n)
            && Live(grown, head, n) == Live(blocks, head, tail) + next[..n]
  {
    var resized := blocks[|blocks| - 1 := cut];
    var grown := resized + [next];
    LiveIgnoresFreeSpace(blocks, head, tail, cut, tail);
    LiveSplitsAtLastBlock(grown, head, n);
    assert grown[..|grown| - 1] == resized;
  }

  /** A position counted from `offset` on. */
  function Shifted(offset: int, at: int): int { if at == -1 then -1 else offset + at }

  lemma FirstIndexInTwo(a: seq<byte>, b: seq<byte>, c: byte)
    ensures FirstIndex(a + b, c)
            == if FirstIndex(a, c) != -1 then FirstIndex(a, c) else Shifted(|a|, FirstIndex(b, c))
  {
    if a == [] {
      assert a + b == b;
    } else {
      assert (a + b)[1..] == a[1..] + b;
      FirstIndexInTwo(a[1..], b, c);
    }
  }

  /** The first `want` bytes of one block's part and what follows: from the block, and from behind it. */
  lemma TakeFromTwo(block: seq<byte>, start: int, end: int, next: seq<byte>, want: nat)
    requires 0 <= start <= end <= |block| && want <= end - start + |next|
    ensures var stop := if want < end - start then start + want else end;
            (block[start..end] + next)[..want] == block[start..stop] + next[..want - (stop - start)]
  {
  }

  lemma FirstIndexInTake(block: seq<byte>, start: int, end: int, next: seq<byte>, want: nat, c: byte)
    requires 0 <= start <= end <= |block| && want <= end - start + |next|
    ensures var stop := if want < end - start then start + want else end;
            var inBlock := FirstIndex(block[start..stop], c);
            FirstIndex((block[start..end] + next)[..want], c)
            == if inBlock != -1 then inBlock
               else Shifted(stop - start, FirstIndex(next[..want - (stop - start)], c))
  {
    var stop := if want < end - start then start + want else end;
    TakeFromTwo(block, start, end, next, want);
    FirstIndexInTwo(block[start..stop], next[..want - (stop - start)], c);
  }

  /** The scan of one block between `start` and `end`, counting positions from `index` on. */
  method ScanBlock(block: seq<byte>, start: int, end: int, c: byte, index: nat) returns (found: bool, reached: nat)
    requires 0 <= start <= |block| && end <= |block|
    ensures var at := FirstIndex(block[start..Max(start, end)], c);
            && (found <==> at != -1)
            && reached == index + if found then at else Max(end - start, 0)
  {
    reached := index;
    ghost var part := block[start..Max(start, end)];
    var j := start;
    while j < end
      invariant start <= j <= Max(start, end)
      invariant reached == index + (j - start)
      invariant FirstIndex(part, c) == Shifted(j - start, FirstIndex(part[j - start..], c))
    {
      assert part[j - start] == block[j];
      if block[j] == c {
        return true, reached;
      }
      reached := reached + 1;
      assert part[j - start..][1..] == part[j + 1 - start..];
      j := j + 1;
    }
    return false, reached;
  }

  /** The same for the live part of block `i`. */
  method ScanLive(blocks: seq<seq<byte>>, i: nat, head: int, tail: int, c: byte, index: nat)
      returns (found: bool, reached: nat)
    requires Fits(blocks, head, tail) && i < |blocks|
    ensures index <= reached
    ensures FirstIndex(LiveFrom(blocks, i, head, tail), c)
            == if found then reached - index
               else Shifted(reached - index, FirstIndex(LiveFrom(blocks, i + 1, head, tail), c))
  {
    var start, end := Start(i, head), End(blocks, i, tail);
    LiveFromStep(blocks, i, head, tail);
    FirstIndexInTwo(blocks[i][start..end], LiveFrom(blocks, i + 1, head, tail), c);
    found, reached := ScanBlock(blocks[i], start, end, c, index);
  }

  /** The same, but looking at no more than `remain` bytes. */
  method ScanLimited(blocks: seq<seq<byte>>, i: nat, head: int, tail: int, remain: int, c: byte, index: nat)
      returns (found: bool, reached: nat, left: int)
    requires Fits(blocks, head, tail) && i < |blocks|
    requires remain <= |LiveFrom(blocks, i, head, tail)|
    ensures index <= reached && 0 <= left <= |LiveFrom(blocks, i + 1, head, tail)|
    ensures FirstIndex(LiveFrom(blocks, i, head, tail)[..Max(remain, 0)], c)
            == if found then reached - index
               else Shifted(reached - index, FirstIndex(LiveFrom(blocks, i + 1, head, tail)[..left], c))
  {
    var start, end := Start(i, head), End(blocks, i, tail);
    LiveFromStep(blocks, i, head, tail);
    FirstIndexInTake(blocks[i], start, end, LiveFrom(blocks, i + 1, head, tail), Max(remain, 0), c);
    if remain < end - start {
      end := start + remain;
      left := 0;
    } else {
      left := remain - (end - start);
    }
    found, reached := ScanBlock(blocks[i], start, end, c, index);
  }

  /** With the first `k` live bytes copied and block `i` coming up, what copying `len` bytes of it gives. */
  lemma CopyStep(blocks: seq<seq<byte>>, i: nat, head: int, tail: int, all: seq<byte>, k: nat, len: nat)
    requires Fits(blocks, head, tail) && i < |blocks|
    requires k <= |all| && all[k..] == LiveFrom(blocks, i, head, tail)
    requires len <= End(blocks, i, tail) - Start(i, head)
    ensures k + len <= |all| && Start(i, head) + len <= |blocks[i]|
    ensures all[..k] + blocks[i][Start(i, head)..Start(i, head) + len] == all[..k + len]
    ensures len == End(blocks, i, tail) - Start(i, head) ==> all[k + len..] == LiveFrom(blocks, i + 1, head, tail)
  {
    LiveFromStep(blocks, i, head, tail);
    var live := blocks[i][Start(i, head)..End(blocks, i, tail)];
    assert all[k..][..len] == live[..len] == blocks[i][Start(i, head)..Start(i, head) + len];
    assert all[k..][|live|..] == LiveFrom(blocks, i + 1, head, tail);
  }

  /** The copying loop of peek. */
  method CopyFront(blocks: seq<seq<byte>>, head: int, tail: int, bytesToRead: nat) returns (ret: seq<byte>)
    requires Fits(blocks, head, tail) && bytesToRead <= |Live(blocks, head, tail)|
    ensures ret == Live(blocks, head, tail)[..bytesToRead]
  {
    ret := [];
    ghost var all := Live(blocks, head, tail);
    var i := 0;
    while |ret| < bytesToRead && i < |blocks|
      invariant 0 <= i <= |blocks| && |ret| <= bytesToRead
      invariant ret == all[..|ret|]
      invariant |ret| < bytesToRead ==> all[|ret|..] == LiveFrom(blocks, i, head, tail)
      decreases |blocks| - i
    {
      LiveFromStep(blocks, i, head, tail);
      var start, end := Start(i, head), End(blocks, i, tail);
      var len := Min(bytesToRead - |ret|, end - start);
      ghost var k := |ret|;
      CopyStep(blocks, i, head, tail, all, k, len);
      ret := ret + blocks[i][start..start + len];
      assert ret == all[..k + len];
      assert |ret| == k + len;
      i := i + 1;
    }
    assert |ret| == bytesToRead;
  }

  /** Cutting the last `n` bytes, which all lie in the last block, off the first `k` bytes of `all`. */
  lemma CutInLastBlock(blocks: seq<seq<byte>>, head: int, tail: int, n: nat, all: seq<byte>, k: nat)
    requires Fits(blocks, head, tail) && k <= |all| && Live(blocks, head, tail) == all[..k]
    requires n <= tail && (|blocks| == 1 ==> head <= tail - n)
    ensures Fits(blocks, head, tail - n) && n <= k
    ensures Live(blocks, head, tail - n) == all[..k - n]
  {
    LiveLosesTail(blocks, head, tail, tail - n);
  }

  /** When there is but one block, what is left of it, or nothing. */
  method ChopOnly(blocks: seq<seq<byte>>, head: int, tail: int, left: nat, ghost all: seq<byte>, ghost k: nat)
      returns (newTail: int, newHead: int)
    requires Fits(blocks, head, tail) && |blocks| == 1 && k <= |all| && Live(blocks, head, tail) == all[..k]
    ensures Fits(blocks, newHead, newTail) && (newHead < newTail || newHead == newTail == 0)
    ensures Live(blocks, newHead, newTail) == all[..Max(k - left, 0)]
  {
    newTail, newHead := tail - left, head;
    if newTail <= newHead {
      newTail, newHead := 0, 0;
    } else {
      CutInLastBlock(blocks, head, tail, left, all, k);
    }
  }

  lemma CutLastBlock(blocks: seq<seq<byte>>, head: int, tail: int, all: seq<byte>, k: nat)
    requires Fits(blocks, head, tail) && k <= |all| && Live(blocks, head, tail) == all[..k]
    requires |blocks| > 1
    ensures var front := blocks[..|blocks| - 1];
            && tail <= k
            && Fits(front, head, |front[|front| - 1]|)
            && Live(front, head, |front[|front| - 1]|) == all[..k - tail]
  {
    LiveSplitsAtLastBlock(blocks, head, tail);
  }

  /** The place that follows what has moved already takes the next piece. */
  lemma MovedInto(there: seq<byte>, now: seq<byte>, at: nat, piece: seq<byte>, was: seq<byte>, before: seq<byte>)
    requires at + |piece| <= |there| == |before| && at + |piece| <= |was| && piece == was[at..][..|piece|]
    requires there[..at] == was[..at] && there[at..] == before[at..]
    requires now == there[..at] + piece + there[at + |piece|..]
    ensures |now| == |before|
    ensures now[..at + |piece|] == was[..at + |piece|] && now[at + |piece|..] == before[at + |piece|..]
  {
    SliceGrows(was, at, |piece|);
    assert now[..at + |piece|] == there[..at] + piece;
    assert there[at..][|piece|..] == there[at + |piece|..];
  }

  lemma SliceGrows(s: seq<byte>, n: nat, k: nat)
    requires n + k <= |s|
    ensures s[..n] + s[n..][..k] == s[..n + k]
    ensures s[n..][k..] == s[n + k..]
  {
  }

  /** QByteArray::resize: keeps what still fits; the bytes it adds are not initialised. */
  method Resize(block: seq<byte>, size: nat) returns (r: seq<byte>)
    ensures |r| == size
    ensures r[..Min(|block|, size)] == block[..Min(|block|, size)]
  {
    if size <= |block| {
      r := block[..size];
    } else {
      r := block + seq(size - |block|, _ => 0);
    }
  }

  /** memcpy(data + at, s, |s|) */
  method CopyInto(data: array<byte>, at: nat, s: seq<byte>)
    requires at + |s| <= data.Length
    modifies data
    ensures data[..] == old(data[..at]) + s + old(data[at + |s|..])
  {
    forall i | 0 <= i < |s| {
      data[at + i] := s[i];
    }
  }

  method PutZero(data: array<byte>, n: nat)
    requires n < data.Length
    modifies data
    ensures data[..n] == old(data[..n]) && data[n] == 0 && data[n + 1..] == old(data[n..])[1..]
  {
    data[n] := 0;
  }

  class QRingBuffer {
    var buffers: seq<seq<byte>>
    var head: int
    var tail: int
    var tailBuffer: int
    var bufferSize: int
    const basicBlockSize: nat

    /** `head`, `tail` and `tailBuffer` are in range and `bufferSize` counts the live bytes. */
    ghost predicate Layout()
      reads this
    {
      && Fits(buffers, head, tail)
      && tailBuffer == |buffers| - 1
      && bufferSize == |Live(buffers, head, tail)|
    }

    /** A buffer that holds no byte is reset, and any other starts with a block that has something to read. */
    ghost predicate Valid()
      reads this
    {
      && Layout()
      && (|buffers| == 1 ==> head < tail || head == tail == 0)
      && (|buffers| > 1 ==> head < |buffers[0]|)
    }

    ghost function Contents(): seq<byte>
      requires Fits(buffers, head, tail)
      reads this
    {
      Live(buffers, head, tail)
    }

    constructor (growth: nat := 4096)
      ensures Valid() && Contents() == [] && basicBlockSize == growth
    {
      basicBlockSize := growth;
      buffers := [[]];
      head, tail, tailBuffer, bufferSize := 0, 0, 0, 0;
    }

    function Size(): (n: int)
      requires Layout()
      reads this
      ensures n == |Contents()|
    {
      bufferSize
    }

    /** `isEmpty` looks at the tail only; on a valid buffer that is the same as `size() == 0`. */
    predicate IsEmpty()
      requires Valid()
      reads this
      ensures IsEmpty() <==> Contents() == []
      ensures IsEmpty() <==> bufferSize == 0
    {
      tailBuffer == 0 && tail == 0
    }

    /** How much can be read without leaving the first block. */
    function NextDataBlockSize(): (n: nat)
      requires Layout()
      reads this
      ensures n <= bufferSize && head + n <= |buffers[0]|
      ensures Contents()[..n] == buffers[0][head..head + n]
      ensures Valid() && bufferSize > 0 ==> n > 0
    {
      (if tailBuffer == 0 then tail else |buffers[0]|) - head
    }

    method Clear()
      requires Layout()
      modifies this
      ensures Valid() && Contents() == []
    {
      buffers := [[]];
      head, tail, tailBuffer, bufferSize := 0, 0, 0, 0;
    }

    /** Drops the first `bytes` bytes, or all of them when there are fewer. */
    method Free(bytes: nat)
      requires Layout()
      modifies this
      ensures Valid()
      ensures Contents() == old(Contents())[Min(bytes, old(bufferSize))..]
    {
      bufferSize := Max(bufferSize - bytes, 0);
      DropBlocks(bytes);
      if tailBuffer == 0 && tail == 0 {
        Clear();
      }
    }

    /** The loop of free: drops used-up blocks, then moves `head`; the last block is kept, but emptied. */
    method DropBlocks(bytes: nat)
      requires Fits(buffers, head, tail) && tailBuffer == |buffers| - 1
      requires bufferSize == Max(|Contents()| - bytes, 0)
      modifies this
      ensures Fits(buffers, head, tail) && bufferSize == old(bufferSize)
      ensures Contents() == old(Contents())[Min(bytes, |old(Contents())|)..]
      ensures Valid()
    {
      ghost var was := Contents();
      var left: int := bytes;
      while true
        invariant Fits(buffers, head, tail) && tailBuffer == |buffers| - 1
        invariant 0 <= left && 0 <= bytes - left <= |was|
        invariant Contents() == was[bytes - left..]
        invariant bufferSize == old(bufferSize)
        decreases |buffers|
      {
        ghost var here := Contents();
        var nextBlockSize := (if tailBuffer == 0 then tail else |buffers[0]|) - head;
        if left < nextBlockSize {
          // the source resets both when they meet, but a byte is left here, so they never do
          assert !(head + left == tail && tailBuffer == 0);
          LiveLosesHead(buffers, head, tail, left);
          head := head + left;
          return;
        }
        left := left - nextBlockSize;
        if |buffers| == 1 {
          if |buffers[0]| != basicBlockSize {
            var block := Resize(buffers[0], basicBlockSize);
            buffers := buffers[0 := block];
          }
          head, tail, tailBuffer := 0, 0, 0;
          return;
        }
        LiveSplitsAtFirstBlock(buffers, head, tail);
        assert here[nextBlockSize..] == Live(buffers[1..], 0, tail);
        buffers := buffers[1..];
        tailBuffer := tailBuffer - 1;
        head := 0;
      }
    }

    /**
     Makes room for `bytes` more bytes and returns where they start: the block, and the offset in it.
     The new bytes are the last `bytes` live ones; their values are whatever the memory holds.
     */
    method Reserve(bytes: nat) returns (block: nat, at: nat)
      requires Valid()
      modifies this
      ensures Valid()
      ensures block == tailBuffer && at + bytes == tail
      ensures bufferSize == old(bufferSize) + bytes && (old(bufferSize) == 0 ==> |buffers| == 1)
      ensures Contents()[..old(bufferSize)] == old(Contents())
    {
      if bufferSize == 0 {
        var first := Resize(buffers[0], Max(basicBlockSize, bytes));
        buffers := buffers[0 := first];
        bufferSize := bufferSize + bytes;
        tail := bytes;
        return tailBuffer, 0;
      }
      var last := buffers[tailBuffer];
      if tail + bytes <= |last| {
        GrowTail(last, bytes);
        return tailBuffer, tail - bytes;
      }
      if tail < |last| / 2 {
        var grown := Resize(last, tail + bytes);
        assert grown[..tail] == grown[..|last|][..tail];
        GrowTail(grown, bytes);
        return tailBuffer, tail - bytes;
      }
      var shrunk := Resize(last, tail);
      var next := Resize([], Max(basicBlockSize, bytes));
      AddBlock(shrunk, next, bytes);
      return tailBuffer, 0;
    }

    /** Puts `last`, which may be a longer version, in place of the last block and takes `bytes` more of it. */
    method GrowTail(last: seq<byte>, bytes: nat)
      requires Valid() && bufferSize > 0
      requires tail + bytes <= |last| && last[..tail] == buffers[tailBuffer][..tail]
      modifies this
      ensures Valid() && tailBuffer == old(tailBuffer) && tail == old(tail) + bytes
      ensures bufferSize == old(bufferSize) + bytes
      ensures Contents()[..old(bufferSize)] == old(Contents())
    {
      LiveIgnoresFreeSpace(buffers, head, tail, last, tail + bytes);
      buffers := buffers[tailBuffer := last];
      tail, bufferSize := tail + bytes, bufferSize + bytes;
    }

    /** Leaves the last block as it is, without free space, and goes on in a new one. */
    method AddBlock(shrunk: seq<byte>, next: seq<byte>, bytes: nat)
      requires Valid() && bufferSize > 0
      requires shrunk == buffers[tailBuffer][..tail] && bytes <= |next|
      modifies this
      ensures Valid() && tail == bytes && tailBuffer == |buffers| - 1 > 0
      ensures bufferSize == old(bufferSize) + bytes
      ensures Contents()[..old(bufferSize)] == old(Contents())
    {
      LiveGrowsByBlock(buffers, head, tail, shrunk, next, bytes);
      buffers := buffers[tailBuffer := shrunk] + [next];
      tailBuffer, tail, bufferSize := tailBuffer + 1, bytes, bufferSize + bytes;
    }

    /** memcpy to the pointer that Reserve returned. */
    method Fill(block: nat, at: nat, data: seq<byte>)
      requires Valid()
      requires block == tailBuffer && at + |data| == tail && |data| <= bufferSize
      requires tailBuffer == 0 ==> head <= at
      modifies this
      ensures Valid() && bufferSize == old(bufferSize) && |buffers| == |old(buffers)|
      ensures Contents() == old(Contents())[..bufferSize - |data|] + data
    {
      var last := buffers[block];
      var written := last[..at] + data + last[tail..];
      LiveIgnoresFreeSpace(buffers, head, at, last, tail);
      LiveIgnoresFreeSpace(buffers, head, at, written, tail);
      assert buffers == buffers[block := last];
      assert written[at..tail] == data;
      buffers := buffers[block := written];
    }

    method PutChar(c: byte)
      requires Valid()
      modifies this
      ensures Valid()
      ensures Contents() == old(Contents()) + [c] && (old(Contents()) == [] ==> |buffers| == 1)
    {
      var block, at := Reserve(1);
      Fill(block, at, [c]);
    }

    /** reserve and memcpy, as _q_slotReadyRead stores a decoded piece of body. */
    method Write(data: seq<byte>)
      requires Valid()
      modifies this
      ensures Valid()
      ensures Contents() == old(Contents()) + data
    {
      var block, at := Reserve(|data|);
      Fill(block, at, data);
    }

    /** Puts `c` in front; the source needs blocks of at least one byte for that. */
    method UngetChar(c: byte)
      requires Valid()
      requires head > 0 || basicBlockSize > 0
      modifies this
      ensures Valid()
      ensures Contents() == [c] + old(Contents())
    {
      ghost var was := Contents();
      head := head - 1;
      if head < 0 {
        var block := Resize([], basicBlockSize);
        buffers := [block] + buffers;
        head := basicBlockSize - 1;
        tailBuffer := tailBuffer + 1;
        assert buffers[1..] == old(buffers);
        LiveSplitsAtFirstBlock(buffers, head + 1, tail);
      }
      LiveGainsByte(buffers, head, tail, c);
      buffers := buffers[0 := buffers[0][head := c]];
      bufferSize := bufferSize + 1;
    }

    method GetChar() returns (r: int)
      requires Valid()
      modifies this
      ensures Valid()
      ensures old(Contents()) == [] ==> r == -1 && Contents() == []
      ensures old(Contents()) != [] ==> r == old(Contents())[0] as int && Contents() == old(Contents())[1..]
    {
      if IsEmpty() {
        return -1;
      }
      var c := buffers[0][head];
      assert c == Contents()[..NextDataBlockSize()][0];
      Free(1);
      return c as int;
    }

    /** Drops the last `bytes` bytes, or all of them when there are fewer. */
    method Chop(bytes: nat)
      requires Layout()
      modifies this
      ensures Layout() && (old(Valid()) ==> Valid())
      ensures Contents() == old(Contents())[..Max(old(bufferSize) - bytes, 0)]
    {
      ghost var was := Contents();
      bufferSize := Max(bufferSize - bytes, 0);
      var left: int := bytes;
      while true
        invariant Fits(buffers, head, tail) && tailBuffer == |buffers| - 1
        invariant 0 <= left && 0 <= bytes - left <= |was|
        invariant Contents() == was[..|was| - (bytes - left)]
        invariant bufferSize == Max(|was| - bytes, 0)
        invariant old(Valid()) ==> if |buffers| == 1 then head < tail || head == tail == 0 else head < |buffers[0]|
        decreases |buffers|
      {
        if tailBuffer == 0 {
          tail, head := ChopOnly(buffers, head, tail, left, was, |was| - (bytes - left));
          return;
        }
        if left <= tail {
          CutInLastBlock(buffers, head, tail, left, was, |was| - (bytes - left));
          tail := tail - left;
          return;
        }
        CutLastBlock(buffers, head, tail, was, |was| - (bytes - left));
        left := left - tail;
        buffers := buffers[..tailBuffer];
        tailBuffer := tailBuffer - 1;
        tail := |buffers[tailBuffer]|;
      }
    }

    /** Keeps the first `pos` bytes. */
    method Truncate(pos: int)
      requires Layout()
      modifies this
      ensures Layout() && (old(Valid()) ==> Valid())
      ensures Contents() == old(Contents())[..Min(Max(pos, 0), old(bufferSize))]
    {
      if pos < Size() {
        Chop(Size() - pos);
      }
    }

    /**
     Moves up to `maxLength` bytes to `data`, or just drops them when there is no `data`. A step that
     finds the first block used up moves nothing, but drops that block, so the loop still ends.
     */
    method Read(data: array?<byte>, maxLength: int) returns (n: nat)
      requires Layout()
      requires data != null ==> maxLength <= data.Length
      modifies this, if data == null then {} else {data}
      ensures Layout() && (old(Valid()) || n > 0 ==> Valid())
      ensures n == Min(old(bufferSize), Max(maxLength, 0))
      ensures Contents() == old(Contents())[n..]
      ensures data != null ==> data[..n] == old(Contents())[..n] && data[n..] == old(data[n..])
    {
      ghost var was, before := Contents(), if data == null then [] else data[..];
      var bytesToRead := Min(Size(), maxLength);
      n := 0;
      while n < bytesToRead
        invariant n <= Max(bytesToRead, 0)
        invariant Layout() && (old(Valid()) || n > 0 ==> Valid())
        invariant Moved(data, n, was, before)
        decreases bytesToRead - n, !Valid()
      {
        var fromThisBlock := Min(bytesToRead - n, NextDataBlockSize());
        MoveFirst(data, n, fromThisBlock, was, before);
        n := n + fromThisBlock;
      }
    }

    /** Of what the buffer held, `was`, the first `n` bytes have moved to the start of `data`. */
    ghost predicate Moved(data: array?<byte>, n: int, was: seq<byte>, before: seq<byte>)
      requires Fits(buffers, head, tail)
      reads this, data
    {
      && 0 <= n <= |was|
      && Contents() == was[n..]
      && (data != null ==> n <= data.Length == |before| && data[..n] == was[..n] && data[n..] == before[n..])
    }

    /** One step of the copying loops: moves `count` more bytes, all from the first block. */
    method MoveFirst(data: array?<byte>, at: nat, count: nat, ghost was: seq<byte>, ghost before: seq<byte>)
      requires Layout() && count <= NextDataBlockSize()
      requires data != null ==> at + count <= data.Length
      requires Moved(data, at, was, before)
      modifies this, if data == null then {} else {data}
      ensures Valid()
      ensures Moved(data, at + count, was, before)
    {
      var piece := buffers[0][head..head + count];
      assert piece == Contents()[..NextDataBlockSize()][..count];
      assert piece == Contents()[..count];
      if data != null {
        ghost var there := data[..];
        CopyInto(data, at, piece);
        MovedInto(there, data[..], at, piece, was, before);
      }
      SliceGrows(was, at, count);
      Free(count);
    }

    /** QByteArray read(int): the first bytes as a value of their own. */
    method ReadBytes(maxLength: int) returns (r: seq<byte>)
      requires Layout()
      modifies this
      ensures Layout() && (old(Valid()) ==> Valid())
      ensures r == old(Contents())[..Min(old(bufferSize), Max(maxLength, 0))]
      ensures Contents() == old(Contents())[|r|..]
    {
      var tmp := new byte[Max(Min(maxLength, Size()), 0)];
      var n := Read(tmp, tmp.Length);
      r := tmp[..n];
    }

    /**
     Up to and including the first newline, at most `maxLength - 1` bytes, and a zero byte behind them.
     Without a newline it is a plain `read`, which writes no zero byte.
     */
    method ReadLine(data: array<byte>, maxLength: int) returns (n: int)
      requires Layout() && maxLength <= data.Length
      modifies this, data
      ensures Layout() && (old(Valid()) ==> Valid())
      ensures n == LineLength(old(Contents()), maxLength)
      ensures n == -1 ==> Contents() == old(Contents()) && data[..] == old(data[..])
      ensures n >= 0 ==> Contents() == old(Contents())[n..] && data[..n] == old(Contents())[..n]
      ensures n >= 0 && LF in old(Contents()) ==> data[n] == 0 && data[n + 1..] == old(data[n + 1..])
      ensures LF !in old(Contents()) ==> data[n..] == old(data[n..])
    {
      var index := IndexOf(LF);
      if index == -1 {
        n := Read(data, maxLength);
        return;
      }
      if maxLength <= 0 {
        return -1;
      }
      n := MoveLine(data, index, maxLength);
      PutZero(data, n);
    }

    /** The loop of readLine: everything up to position `index`, but no more than `maxLength - 1` bytes. */
    method MoveLine(data: array<byte>, index: nat, maxLength: nat) returns (n: nat)
      requires Layout() && index < bufferSize
      requires 0 < maxLength <= data.Length
      modifies this, data
      ensures Layout() && (old(Valid()) ==> Valid())
      ensures n == Min(index + 1, maxLength - 1)
      ensures Contents() == old(Contents())[n..]
      ensures data[..n] == old(Contents())[..n] && data[n..] == old(data[n..])
    {
      ghost var was, before := Contents(), data[..];
      n := 0;
      while n < index + 1 && n < maxLength - 1
        invariant n <= Min(index + 1, maxLength - 1)
        invariant Layout() && (old(Valid()) || n > 0 ==> Valid())
        invariant Moved(data, n, was, before)
        decreases index + 1 - n, !Valid()
      {
        var bytesToRead := Min(index + 1 - n, NextDataBlockSize());
        bytesToRead := Min(bytesToRead, maxLength - 1 - n);
        MoveFirst(data, n, bytesToRead, was, before);
        n := n + bytesToRead;
      }
    }

    /** Position of the first `c` in the whole buffer. */
    method IndexOf(c: byte) returns (r: int)
      requires Layout()
      ensures r == FirstIndex(Contents(), c)
    {
      var index: nat := 0;
      for i := 0 to |buffers|
        invariant FirstIndex(Contents(), c) == Shifted(index, FirstIndex(LiveFrom(buffers, i, head, tail), c))
      {
        var found;
        found, index := ScanLive(buffers, i, head, tail, c, index);
        if found {
          return index;
        }
      }
      return -1;
    }

    /** Position of the first `c` among the first `maxLength` bytes. */
    method IndexOfWithin(c: byte, maxLength: int) returns (r: int)
      requires Layout()
      ensures r == FirstIndex(Contents()[..Min(bufferSize, Max(maxLength, 0))], c)
    {
      var index: nat := 0;
      var remain := Min(Size(), maxLength);
      ghost var all := Contents()[..Max(remain, 0)];
      var i := 0;
      while remain != 0 && i < |buffers|
        invariant 0 <= i <= |buffers|
        invariant remain <= |LiveFrom(buffers, i, head, tail)|
        invariant FirstIndex(all, c)
                  == Shifted(index, FirstIndex(LiveFrom(buffers, i, head, tail)[..Max(remain, 0)], c))
        decreases |buffers| - i
      {
        var found;
        found, index, remain := ScanLimited(buffers, i, head, tail, remain, c, index);
        if found {
          return index;
        }
        i := i + 1;
      }
      assert LiveFrom(buffers, i, head, tail)[..Max(remain, 0)] == [];
      return -1;
    }

    /** The first bytes, left in place. */
    method Peek(maxLength: int) returns (ret: seq<byte>)
      requires Layout()
      ensures ret == Contents()[..Min(bufferSize, Max(maxLength, 0))]
    {
      var bytesToRead := Min(Size(), maxLength);
      if maxLength <= 0 {
        return [];
      }
      ret := CopyFront(buffers, head, tail, bytesToRead);
    }

    /**
     Adds `qba` as a block of its own. On an empty buffer the emptied first block stays in front, which
     is the state the other operations do not expect: it is avoided exactly when something was stored.
     */
    method Append(qba: seq<byte>)
      requires Valid()
      modifies this
      ensures Layout()
      ensures Contents() == old(Contents()) + qba
      ensures |buffers| == |old(buffers)| + 1 && buffers[tailBuffer] == qba && head == old(head)
      ensures forall i :: 0 <= i < old(tailBuffer) ==> buffers[i] == old(buffers)[i]
      ensures buffers[old(tailBuffer)] == old(buffers[tailBuffer][..tail])
      ensures Valid() <==> old(Contents()) != []
    {
      var cut := buffers[tailBuffer][..tail];
      LiveGrowsByBlock(buffers, head, tail, cut, qba, |qba|);
      buffers := buffers[tailBuffer := cut] + [qba];
      tailBuffer := tailBuffer + 1;
      tail := |qba|;
      bufferSize := bufferSize + |qba|;
    }

    /**
     `read()` without a length hands over the rest of the first block. It leaves the buffer as the other
     operations expect it exactly when the second block is the last one or is not empty.
     */
    method TakeBlock() returns (qba: seq<byte>)
      requires Valid()
      modifies this
      ensures Layout()
      ensures old(Contents()) == qba + Contents() && |qba| == old(NextDataBlockSize())
      ensures old(Contents()) != [] ==> qba != []
      ensures Valid() <==> !(|old(buffers)| > 2 && old(buffers)[1] == [])
    {
      if bufferSize == 0 {
        return [];
      }
      if tailBuffer != 0 {
        LiveSplitsAtFirstBlock(buffers, head, tail);
      }
      if head == 0 && tailBuffer != 0 {
        qba := buffers[0];
        buffers := buffers[1..];
        tailBuffer := tailBuffer - 1;
        bufferSize := bufferSize - |qba|;
        return;
      }
      if head == 0 && tailBuffer == 0 {
        qba := buffers[0][..tail];
        buffers := [[]];
        bufferSize, tail := 0, 0;
        return;
      }
      qba := buffers[0][head..head + NextDataBlockSize()];
      buffers := buffers[1..];
      head := 0;
      if tailBuffer == 0 {
        buffers := buffers + [[]];
        tail := 0;
      } else {
        tailBuffer := tailBuffer - 1;
      }
      bufferSize := bufferSize - |qba|;
    }

    /** Such a block gets there when nothing is appended, and then one byte. */
    method TakeBeforeEmptyBlock(a: byte, b: byte) returns (qba: seq<byte>)
      requires Valid() && Contents() == []
      modifies this
      ensures Layout() && qba == [a] && Contents() == [b] && !Valid()
    {
      PutChar(a);
      assert NextDataBlockSize() == 1;
      Append([]);
      Append([b]);
      ghost var was := Contents();
      assert was[0] == a && was[1..] == [b];
      qba := TakeBlock();
      assert was[..1] == qba && was[1..] == Contents();
    }

    /** One operation, as it acts on a plain sequence. */
    method Perform(op: Operation) returns (output: seq<byte>)
      requires Valid() && (op.Unget? ==> basicBlockSize > 0)
      modifies this
      ensures Valid()
      ensures Outcome(output, Contents()) == ApplyTo(op, old(Contents()))
    {
      output := [];
      match op
      case Put(c) => PutChar(c);
      case Store(data) => Write(data);
      case Unget(c) => UngetChar(c);
      case Drop(n) => Free(n);
      case CutEnd(n) => Chop(n);
      case KeepFirst(pos) => Truncate(pos);
      case Fetch(n) => output := ReadBytes(n);
      case FetchChar => output := TakeChar();
      case FetchLine(n) => output := TakeLine(n);
      case Look(n) => output := Peek(n);
      case Reset => Clear();
    }

    method TakeChar() returns (output: seq<byte>)
      requires Valid()
      modifies this
      ensures Valid() && Outcome(output, Contents()) == Take(old(Contents()), 1)
    {
      var c := GetChar();
      output := if c == -1 then [] else [c as byte];
    }

    /** Of what readLine writes, the bytes it counts. */
    method TakeLine(maxLength: int) returns (output: seq<byte>)
      requires Valid()
      modifies this
      ensures Valid()
      ensures Outcome(output, Contents()) == Take(old(Contents()), LineLength(old(Contents()), maxLength))
    {
      var data := new byte[Max(maxLength, 0)];
      var n := ReadLine(data, maxLength);
      output := data[..Max(n, 0)];
    }

    /** Every run of the operations does to the buffer what it does to one plain sequence of bytes. */
    method Run(ops: seq<Operation>) returns (output: seq<byte>)
      requires Valid() && forall i :: 0 <= i < |ops| && ops[i].Unget? ==> basicBlockSize > 0
      modifies this
      ensures Valid()
      ensures Outcome(output, Contents()) == RunOn(ops, old(Contents()))
    {
      output := [];
      if ops != [] {
        output := Perform(ops[0]);
        var rest := Run(ops[1..]);
        output := output + rest;
      }
    }
  }

  datatype Operation =
    | Put(c: byte)
    | Store(data: seq<byte>)
    | Unget(c: byte)
    | Drop(count: nat)
    | CutEnd(count: nat)
    | KeepFirst(pos: int)
    | Fetch(length: int)
    | FetchChar
    | FetchLine(length: int)
    | Look(length: int)
    | Reset

  /** The bytes handed out and the bytes still stored. */
  datatype Outcome = Outcome(output: seq<byte>, left: seq<byte>)

  /** Hands out the first `n` bytes, or all of them when there are fewer. */
  function Take(s: seq<byte>, n: int): Outcome {
    var k := Min(|s|, Max(n, 0));
    Outcome(s[..k], s[k..])
  }

  /** How much readLine takes: up to the first newline, with room for a zero; without a newline, what read takes. */
  function LineLength(s: seq<byte>, maxLength: int): int {
    var newline := FirstIndex(s, LF);
    if newline == -1 then Min(|s|, Max(maxLength, 0))
    else if maxLength <= 0 then -1
    else Min(newline + 1, maxLength - 1)
  }

  /** The operations on a plain sequence. */
  function ApplyTo(op: Operation, s: seq<byte>): Outcome {
    match op
    case Put(c) => Outcome([], s + [c])
    case Store(data) => Outcome([], s + data)
    case Unget(c) => Outcome([], [c] + s)
    case Drop(n) => Outcome([], s[Min(n, |s|)..])
    case CutEnd(n) => Outcome([], s[..Max(|s| - n, 0)])
    case KeepFirst(pos) => Outcome([], s[..Min(Max(pos, 0), |s|)])
    case Fetch(n) => Take(s, n)
    case FetchChar => Take(s, 1)
    case FetchLine(n) => Take(s, LineLength(s, n))
    case Look(n) => Outcome(Take(s, n).output, s)
    case Reset => Outcome([], [])
  }

  function RunOn(ops: seq<Operation>, s: seq<byte>): Outcome {
    if ops == [] then Outcome([], s)
    else
      var first := ApplyTo(ops[0], s);
      var rest := RunOn(ops[1..], first.left);
      Outcome(first.output + rest.output, rest.left)
  }
}
