/** What a line is to the ring buffer. */
module BufferLines {
  import opened Bytes
  import opened RingBuffer

  lemma LineEndIs(line: seq<byte>, rest: seq<byte>)
    requires LF !in line
    ensures FirstIndex(line + [LF] + rest, LF) == |line|
  {
    var s := line + [LF] + rest;
    assert s[|line|] == LF && forall i :: 0 <= i < |line| ==> s[i] == line[i];
  }

  /** With room for it and a zero, a line is handed out with its newline; else as much as there is room for. */
  lemma LineIsTaken(line: seq<byte>, rest: seq<byte>, room: nat)
    requires LF !in line
    ensures var s := line + [LF] + rest;
            && (room >= |line| + 2 ==> Take(s, LineLength(s, room)) == Outcome(line + [LF], rest))
            && (0 < room < |line| + 2 ==>
                  Take(s, LineLength(s, room)) == Outcome(line[..room - 1], line[room - 1..] + [LF] + rest))
            && (room == 0 ==> LineLength(s, room) == -1)
  {
    var s := line + [LF] + rest;
    LineEndIs(line, rest);
    assert s[..|line| + 1] == line + [LF] && s[|line| + 1..] == rest;
    if 0 < room < |line| + 2 {
      assert s[..room - 1] == line[..room - 1] && s[room - 1..] == line[room - 1..] + [LF] + rest;
    }
  }

  /** Without a newline all is handed out that there is room for, and no room is kept for a zero. */
  lemma RestIsTaken(s: seq<byte>, room: nat)
    requires LF !in s
    ensures Take(s, LineLength(s, room)) == if room >= |s| then Outcome(s, []) else Outcome(s[..room], s[room..])
  {
  }
}
