/**
 The chunked branch of QHttpPrivate::_q_slotReadyRead: an incremental decoder for the chunked transfer
 coding (section 3.6.1 of RFC 2616), called each time bytes have arrived on the socket.
 */
module ChunkedBody {
  import opened Wrappers
  import opened Bytes
  import RingBuffer

  // ---- QString::toInt in base 16, which the repository takes from Qt

  function DigitValue(c: byte): (v: Option<int>)
    ensures v.Some? ==> 0 <= v.value < 16
  {
    if '0' as int <= c as int <= '9' as int then Some(c as int - '0' as int)
    else if 'a' as int <= c as int <= 'f' as int then Some(c as int - 'a' as int + 10)
    else if 'A' as int <= c as int <= 'F' as int then Some(c as int - 'A' as int + 10)
    else None
  }

  predicate IsSpace(c: byte) { c == 32 || 9 <= c <= 13 }

  function TrimLeft(s: seq<byte>): seq<byte> {
    if s != [] && IsSpace(s[0]) then TrimLeft(s[1..]) else s
  }

  function TrimRight(s: seq<byte>): seq<byte> {
    if s != [] && IsSpace(s[|s| - 1]) then TrimRight(s[..|s| - 1]) else s
  }

  /** The value of a string of hexadecimal digits. */
  function Numeral(s: seq<byte>): (v: Option<int>)
    ensures v.Some? ==> v.value >= 0
  {
    if s == [] then Some(0)
    else
      match (Numeral(s[..|s| - 1]), DigitValue(s[|s| - 1]))
      case (Some(high), Some(low)) => Some(16 * high + low)
      case _ => None
  }

  const MAX_INT := 0x7fff_ffff

  /** A number in 32 bits, with spaces around it, a sign or the prefix 0x allowed. */
  function ToInt(text: seq<byte>): Option<int> {
    var s := TrimRight(TrimLeft(text));
    var negative := s != [] && s[0] == '-' as int as byte;
    var unsigned := if s != [] && (negative || s[0] == '+' as int as byte) then s[1..] else s;
    var digits := if |unsigned| > 2 && unsigned[0] == 48 && (unsigned[1] == 120 || unsigned[1] == 88)
                  then unsigned[2..] else unsigned;
    match Numeral(digits)
    case None => None
    case Some(v) =>
      var value: int := if negative then -v else v;
      if digits == [] || value < -MAX_INT - 1 || value > MAX_INT then None else Some(value)
  }

  const SEMICOLON: byte := 59

  /** What a chunk-size line announces: the number in front of the chunk extension. */
  function SizeOf(line: seq<byte>): Option<int> {
    var at := FirstIndex(line, SEMICOLON);
    ToInt(if at == -1 then line else line[..at])
  }

  // ---- the decoder

  /** canReadLine() holds when there is a newline; readLine() takes everything up to it. */
  function LineLength(input: seq<byte>): (n: nat)
    requires LF in input
    ensures 0 < n <= |input|
  {
    FirstIndex(input, LF) + 1
  }

  predicate IsBlank(line: seq<byte>) { line == [CR, LF] || line == [LF] }

  /** Reads trailer lines as long as there are whole ones; a blank line ends the message. */
  function SkipTrailer(chunkedSize: int, input: seq<byte>): (r: (int, seq<byte>))
    ensures |r.1| <= |input|
    ensures chunkedSize == -2 && LF in input ==> |r.1| < |input|
    ensures chunkedSize != -2 ==> r == (chunkedSize, input)
    ensures chunkedSize == -2 ==> r.0 == -1 || (r.0 == -2 && LF !in r.1)
    decreases |input|
  {
    if chunkedSize != -2 || LF !in input then (chunkedSize, input)
    else
      var n := LineLength(input);
      SkipTrailer(if IsBlank(input[..n]) then -1 else -2, input[n..])
  }

  /** What one turn of the loop comes to. */
  datatype Turn =
    | Wait(chunkedSize: int, input: seq<byte>)
    | More(chunkedSize: int, input: seq<byte>, data: seq<byte>)
    | Complete(input: seq<byte>)
    | Malformed

  function ReadSize(chunkedSize: int, input: seq<byte>): (r: Option<(int, seq<byte>)>)
    requires chunkedSize == 0 ==> LF in input
    ensures r.Some? ==> r.value.0 != 0 && |r.value.1| <= |input|
  {
    if chunkedSize != 0 then Some((chunkedSize, input))
    else
      var n := LineLength(input);
      match SizeOf(input[..n])
      case None => None
      case Some(size) => Some((if size == 0 then -2 else size, input[n..]))
  }

  function ReadData(chunkedSize: int, input: seq<byte>): (t: Turn)
    requires chunkedSize != 0 && chunkedSize != -1
    ensures t.More? ==> |t.input| < |input|
  {
    var n := if |input| == chunkedSize || |input| == chunkedSize + 1 then chunkedSize - 1 else |input|;
    if n == 0 then Wait(chunkedSize, input)
    else
      var toRead := if chunkedSize < 0 then n else Min(n, chunkedSize);
      var (data, rest) := (input[..toRead], input[toRead..]);
      if chunkedSize == toRead && n - toRead >= 2 then
        if rest[..2] == [CR, LF] then More(0, rest[2..], data) else Malformed
      else More(chunkedSize - toRead, rest, data)
  }

  function AfterSize(chunkedSize: int, input: seq<byte>): (t: Turn)
    requires chunkedSize != 0
    ensures t.More? ==> |t.input| < |input|
  {
    var (left, rest) := SkipTrailer(chunkedSize, input);
    if left == -1 then Complete(rest) else ReadData(left, rest)
  }

  function TakeTurn(chunkedSize: int, input: seq<byte>): (t: Turn)
    ensures t.More? ==> |t.input| < |input|
  {
    if chunkedSize == 0 && LF !in input then Wait(chunkedSize, input)
    else
      match ReadSize(chunkedSize, input)
      case None => Malformed
      case Some((size, afterSize)) =>
        AfterSize(size, afterSize)
  }

  /** A run of the loop: the new chunk state, what is left on the socket, and the decoded bytes. */
  datatype Outcome =
    | Waiting(chunkedSize: int, input: seq<byte>, data: seq<byte>)
    | Finished(input: seq<byte>, data: seq<byte>)
    | Failed

  function Decode(chunkedSize: int, input: seq<byte>): Outcome
    decreases |input|
  {
    match TakeTurn(chunkedSize, input)
    case Wait(size, rest) => Waiting(size, rest, [])
    case Complete(rest) => Finished(rest, [])
    case Malformed => Failed
    case More(size, rest, data) => Prepend(data, Decode(size, rest))
  }

  function Prepend(data: seq<byte>, o: Outcome): Outcome {
    match o
    case Waiting(size, rest, more) => Waiting(size, rest, data + more)
    case Finished(rest, more) => Finished(rest, data + more)
    case Failed => Failed
  }

  // ---- messages

  /** A line ends with its only newline. */
  predicate IsLine(line: seq<byte>) { FirstIndex(line, LF) == |line| - 1 && line != [] }

  /** A chunk as it is sent: the size line, with or without an extension, and the data. */
  datatype Chunk = Chunk(line: seq<byte>, data: seq<byte>) {
    predicate Valid() {
      IsLine(line) && data != [] && SizeOf(line) == Some(|data|)
    }
  }

  /** What follows the chunks: the last-chunk line, the trailer lines, and a blank line. */
  datatype Ending = Ending(last: seq<byte>, trailer: seq<seq<byte>>, blank: seq<byte>) {
    predicate Valid() {
      IsLine(last) && SizeOf(last) == Some(0) && ValidTrailer(trailer, blank)
    }
  }

  predicate ValidTrailer(trailer: seq<seq<byte>>, blank: seq<byte>) {
    IsBlank(blank) && forall i :: 0 <= i < |trailer| ==> IsLine(trailer[i]) && !IsBlank(trailer[i])
  }

  /**
     What is still to come of a message. `InChunk` is inside the data of a chunk, `AtSize` in front of
     a size line, `InTrailer` behind the last-chunk line.
   */
  datatype Rest =
    | InChunk(data: seq<byte>, chunks: seq<Chunk>, ending: Ending)
    | AtSize(chunks: seq<Chunk>, ending: Ending)
    | InTrailer(trailer: seq<seq<byte>>, blank: seq<byte>)
  {
    predicate Valid() {
      match this
      case InChunk(data, chunks, ending) =>
        data != [] && (forall i :: 0 <= i < |chunks| ==> chunks[i].Valid()) && ending.Valid()
      case AtSize(chunks, ending) => (forall i :: 0 <= i < |chunks| ==> chunks[i].Valid()) && ending.Valid()
      case InTrailer(trailer, blank) => ValidTrailer(trailer, blank)
    }

    /** The value of `chunkedSize` that stands for this place. */
    function Size(): int {
      match this
      case InChunk(data, _, _) => |data|
      case AtSize(_, _) => 0
      case InTrailer(_, _) => -2
    }

    function Body(): seq<byte> {
      match this
      case InChunk(data, chunks, _) => data + Bodies(chunks)
      case AtSize(chunks, _) => Bodies(chunks)
      case InTrailer(_, _) => []
    }

    /** How many turns are left until the trailer. */
    function Turns(): nat {
      match this
      case InChunk(_, chunks, _) => 2 * |chunks| + 2
      case AtSize(chunks, _) => 2 * |chunks| + 1
      case InTrailer(_, _) => 0
    }

    /** The bytes still to come, with `extra` behind the end of the message. */
    function Encode(extra: seq<byte>): seq<byte>
      decreases Turns()
    {
      match this
      case InChunk(data, chunks, ending) => data + ([CR, LF] + AtSize(chunks, ending).Encode(extra))
      case AtSize(chunks, ending) =>
        if chunks == [] then ending.last + InTrailer(ending.trailer, ending.blank).Encode(extra)
        else chunks[0].line + InChunk(chunks[0].data, chunks[1..], ending).Encode(extra)
      case InTrailer(trailer, blank) => Join(trailer + [blank]) + extra
    }

    /** The lines of the trailer section, the blank one last. */
    function Lines(): seq<seq<byte>> {
      match this
      case InChunk(_, _, ending) => ending.trailer + [ending.blank]
      case AtSize(_, ending) => ending.trailer + [ending.blank]
      case InTrailer(trailer, blank) => trailer + [blank]
    }
  }

  function Bodies(chunks: seq<Chunk>): seq<byte> {
    if chunks == [] then [] else chunks[0].data + Bodies(chunks[1..])
  }

  /** With `missing` bytes of the message still to come, does what has come end inside one of `lines`? */
  predicate EndsInLine(lines: seq<seq<byte>>, missing: int) {
    lines != [] &&
    if missing > |Join(lines[1..])| then missing < |Join(lines)| else EndsInLine(lines[1..], missing)
  }

  /** Only the lines that are not complete yet matter. */
  lemma {:induction false} EndsInSuffix(lines: seq<seq<byte>>, k: nat, missing: int)
    requires k <= |lines| && missing <= |Join(lines[k..])|
    ensures EndsInLine(lines, missing) == EndsInLine(lines[k..], missing)
  {
    if k > 0 {
      JoinAppend(lines[1..k], lines[k..]);
      assert lines[1..] == lines[1..k] + lines[k..];
      EndsInSuffix(lines[1..], k - 1, missing);
      assert lines[1..][k - 1..] == lines[k..];
    }
  }

  // ---- one turn of the loop on a well-formed message

  /** A line at the front of what arrives is read exactly when its newline is there. */
  lemma LineArrives(line: seq<byte>, more: seq<byte>, input: seq<byte>, future: seq<byte>)
    requires IsLine(line) && input + future == line + more
    ensures LF in input <==> |input| >= |line|
    ensures LF in input ==>
              LineLength(input) == |line| && input[..|line|] == line && input[|line|..] + future == more
    ensures LF !in input ==> future != []
  {
    if |input| >= |line| {
      assert input[..|line|] == (input + future)[..|line|] == line;
      assert input[|line| - 1] == LF;
      assert input[|line|..] + future == (input + future)[|line|..] == more;
    } else {
      assert input == (input + future)[..|input|] == line[..|input|];
      assert LF !in line[..|line| - 1];
      assert line[..|input|] == line[..|line| - 1][..|input|];
    }
  }

  /** Whole trailer lines are taken; what stays is the start of the next line, cut off by the arrival. */
  lemma {:induction false} SkipTrailerFollows(trailer: seq<seq<byte>>, blank: seq<byte>, input: seq<byte>,
                                              future: seq<byte>, extra: seq<byte>)
      returns (k: nat)
    requires ValidTrailer(trailer, blank)
    requires input + future == Join(trailer + [blank]) + extra
    ensures k <= |trailer| && ValidTrailer(trailer[k..], blank)
    ensures var (size, rest) := SkipTrailer(-2, input);
            if size == -1 then rest + future == extra
            else
              && future != []
              && rest + future == Join(trailer[k..] + [blank]) + extra
              && |future| > |extra|
              && (EndsInLine(trailer[k..] + [blank], |future| - |extra|) <==> rest != [])
    decreases |trailer|
  {
    k := 0;
    var all := trailer + [blank];
    var line, others := all[0], all[1..];
    assert IsLine(line);
    assert Join(all) + extra == line + (Join(others) + extra);
    LineArrives(line, Join(others) + extra, input, future);
    if LF !in input {
      assert |input| + |future| == |line| + |Join(others)| + |extra|;
      assert trailer[0..] == trailer;
    } else if trailer == [] {
      assert others == [];
      assert SkipTrailer(-1, input[|line|..]) == (-1, input[|line|..]);
    } else {
      assert others == trailer[1..] + [blank];
      k := SkipTrailerFollows(trailer[1..], blank, input[|line|..], future, extra);
      assert trailer[1..][k..] == trailer[k + 1..];
      k := k + 1;
    }
  }

  /** Reading the size line, if there is one to read, moves to the next place in the message. */
  lemma ReadSizeFollows(left: Rest, input: seq<byte>, future: seq<byte>, extra: seq<byte>) returns (next: Rest)
    requires left.Valid() && !left.InTrailer? && input + future == left.Encode(extra)
    requires left.AtSize? ==> LF in input
    ensures !next.AtSize? && next.Valid() && next.Body() == left.Body()
    ensures var turn := ReadSize(left.Size(), input);
            && turn.Some? && turn.value.0 == next.Size()
            && |turn.value.1| <= |input|
            && next.Lines() == left.Lines()
            && turn.value.1 + future == next.Encode(extra)
  {
    next := left;
    if left.AtSize? {
      if left.chunks == [] {
        next := InTrailer(left.ending.trailer, left.ending.blank);
        LineArrives(left.ending.last, next.Encode(extra), input, future);
      } else {
        next := InChunk(left.chunks[0].data, left.chunks[1..], left.ending);
        LineArrives(left.chunks[0].line, next.Encode(extra), input, future);
      }
    }
  }

  lemma TakeFromFront(input: seq<byte>, future: seq<byte>, a: seq<byte>, b: seq<byte>, k: nat)
    requires input + future == a + b && k <= |input| && k <= |a|
    ensures input[..k] == a[..k] && input[k..] + future == a[k..] + b
  {
    assert input[..k] == (input + future)[..k];
    assert input[k..] + future == (input + future)[k..];
  }

  lemma TakeAllOfFront(input: seq<byte>, future: seq<byte>, a: seq<byte>, b: seq<byte>)
    requires input + future == a + b && |a| <= |input|
    ensures input[..|a|] == a && input[|a|..] + future == b
  {
    TakeFromFront(input, future, a, b, |a|);
  }

  /** With the CRLF behind the data at hand, the whole of the data is taken, and the CRLF with it. */
  lemma ReadDataWhole(left: Rest, input: seq<byte>, future: seq<byte>, extra: seq<byte>)
    requires left.Valid() && left.InChunk? && input + future == left.Encode(extra)
    requires |input| >= |left.data| + 2
    ensures var rest := input[|left.data| + 2..];
            && ReadData(left.Size(), input) == More(0, rest, left.data)
            && rest + future == AtSize(left.chunks, left.ending).Encode(extra)
  {
    var (data, behind) := (left.data, AtSize(left.chunks, left.ending));
    TakeAllOfFront(input, future, data, [CR, LF] + behind.Encode(extra));
    TakeAllOfFront(input[|data|..], future, [CR, LF], behind.Encode(extra));
    assert input[|data|..][2..] == input[|data| + 2..];
  }

  /** Otherwise part of the data is taken, and its last byte is left until the CRLF comes. */
  lemma ReadDataPart(left: Rest, input: seq<byte>, future: seq<byte>, extra: seq<byte>)
    requires left.Valid() && left.InChunk? && input + future == left.Encode(extra)
    requires |input| < |left.data| + 2
    ensures future != []
    ensures var k := Min(|input|, |left.data| - 1);
            if k == 0 then ReadData(left.Size(), input) == Wait(left.Size(), input)
            else
              && ReadData(left.Size(), input) == More(|left.data| - k, input[k..], left.data[..k])
              && input[k..] + future == InChunk(left.data[k..], left.chunks, left.ending).Encode(extra)
  {
    var (data, behind) := (left.data, AtSize(left.chunks, left.ending));
    TakeFromFront(input, future, data, [CR, LF] + behind.Encode(extra), Min(|input|, |data| - 1));
  }

  /** Reading data inside a chunk: never past its end, and past its last byte only with the CRLF. */
  lemma ReadDataFollows(left: Rest, input: seq<byte>, future: seq<byte>, extra: seq<byte>) returns (next: Rest)
    requires left.Valid() && left.InChunk? && input + future == left.Encode(extra)
    ensures match ReadData(left.Size(), input)
            case Wait(size, rest) => next == left && size == left.Size() && rest == input && future != []
            case More(size, rest, data) =>
              && next.Valid() && next.Lines() == left.Lines()
              && size == next.Size() && data + next.Body() == left.Body()
              && rest + future == next.Encode(extra)
            case _ => false
  {
    next := left;
    if |input| >= |left.data| + 2 {
      ReadDataWhole(left, input, future, extra);
      next := AtSize(left.chunks, left.ending);
    } else {
      ReadDataPart(left, input, future, extra);
      var k := Min(|input|, |left.data| - 1);
      if k > 0 {
        next := InChunk(left.data[k..], left.chunks, left.ending);
        Associative(left.data[..k], left.data[k..], Bodies(left.chunks));
        assert left.data == left.data[..k] + left.data[k..];
      }
    }
  }

  // ---- a whole call

  /** Of the trailer `lines`, a message at `next` has the last ones left, and all that is `missing` of them. */
  ghost predicate Behind(lines: seq<seq<byte>>, next: Rest, missing: int) {
    && next.Valid()
    && |next.Lines()| <= |lines|
    && next.Lines() == lines[|lines| - |next.Lines()|..]
    && (next.Lines() == lines || missing <= |Join(next.Lines())|)
  }

  lemma TurnInTrailer(left: Rest, input: seq<byte>, future: seq<byte>, extra: seq<byte>) returns (next: Rest)
    requires left.Valid() && left.InTrailer? && input + future == left.Encode(extra)
    ensures next.InTrailer?
    ensures var (size, rest) := SkipTrailer(-2, input);
            if size == -1 then rest + future == extra
            else
              && |future| > |extra| && Behind(left.Lines(), next, |future| - |extra|)
              && rest + future == next.Encode(extra)
              && (EndsInLine(left.Lines(), |future| - |extra|) <==> rest != [])
  {
    var k := SkipTrailerFollows(left.trailer, left.blank, input, future, extra);
    next := InTrailer(left.trailer[k..], left.blank);
    assert next.Lines() == left.Lines()[k..];
    var (size, rest) := SkipTrailer(-2, input);
    if size != -1 {
      EndsInSuffix(left.Lines(), k, |future| - |extra|);
    }
  }

  /** Do the bytes that have come end inside a trailer line, when `future` is what has not come? */
  predicate Cut(lines: seq<seq<byte>>, future: seq<byte>, extra: seq<byte>) {
    |future| > |extra| && EndsInLine(lines, |future| - |extra|)
  }

  lemma {:induction false} NothingMissingIsNoCut(lines: seq<seq<byte>>, missing: int)
    requires missing <= 0 || missing >= |Join(lines)|
    ensures !EndsInLine(lines, missing)
  {
    if lines != [] {
      NothingMissingIsNoCut(lines[1..], missing);
    }
  }

  lemma {:induction false} EncodeIsLong(left: Rest, extra: seq<byte>)
    requires left.Valid()
    ensures |left.Encode(extra)| >= |Join(left.Lines())| + |extra|
    decreases left.Turns()
  {
    match left
    case InChunk(data, chunks, ending) => EncodeIsLong(AtSize(chunks, ending), extra);
    case AtSize(chunks, ending) =>
      if chunks != [] {
        EncodeIsLong(InChunk(chunks[0].data, chunks[1..], ending), extra);
      }
    case InTrailer(_, _) =>
  }

  /** In front of a size line without a newline there is more to come than the trailer. */
  lemma WaitForSize(left: Rest, input: seq<byte>, future: seq<byte>, extra: seq<byte>)
    requires left.Valid() && left.AtSize? && input + future == left.Encode(extra)
    requires LF !in input
    ensures |future| > |extra| && !Cut(left.Lines(), future, extra)
  {
    var line := if left.chunks == [] then left.ending.last else left.chunks[0].line;
    var next := if left.chunks == [] then InTrailer(left.ending.trailer, left.ending.blank)
                else InChunk(left.chunks[0].data, left.chunks[1..], left.ending);
    LineArrives(line, next.Encode(extra), input, future);
    EncodeIsLong(next, extra);
    assert |input| + |future| == |line| + |next.Encode(extra)|;
    NothingMissingIsNoCut(left.Lines(), |future| - |extra|);
  }

  lemma WaitForData(left: Rest, input: seq<byte>, future: seq<byte>, extra: seq<byte>)
    requires left.Valid() && left.InChunk? && input + future == left.Encode(extra)
    requires |input| < |left.data| + 2
    ensures |future| > |extra| && !Cut(left.Lines(), future, extra)
  {
    EncodeIsLong(AtSize(left.chunks, left.ending), extra);
    assert |input| + |future| == |left.data| + 2 + |AtSize(left.chunks, left.ending).Encode(extra)|;
    NothingMissingIsNoCut(left.Lines(), |future| - |extra|);
  }

  /**
     What a turn does to a message of which `body` and the trailer `lines` are still to come: it moves
     on, or it takes the start of a cut trailer line for data.
   */
  ghost predicate Follows(lines: seq<seq<byte>>, body: seq<byte>, turn: Turn, future: seq<byte>, extra: seq<byte>,
                          next: Rest) {
    match turn
    case Malformed => false
    case Complete(rest) => body == [] && rest + future == extra
    case Wait(size, rest) =>
      && |future| > |extra| && !Cut(lines, future, extra)
      && Behind(lines, next, |future| - |extra|) && size == next.Size() && next.Body() == body
      && rest + future == next.Encode(extra)
    case More(size, rest, data) =>
      if size < -2 then Cut(lines, future, extra) && rest == [] && data != [] && body == []
      else
        && Behind(lines, next, |future| - |extra|) && (Cut(lines, future, extra) <==> Cut(next.Lines(), future, extra))
        && size == next.Size() && data + next.Body() == body
        && rest + future == next.Encode(extra)
  }

  lemma TurnInChunk(left: Rest, input: seq<byte>, future: seq<byte>, extra: seq<byte>) returns (next: Rest)
    requires left.Valid() && left.InChunk? && input + future == left.Encode(extra)
    ensures Follows(left.Lines(), left.Body(), AfterSize(left.Size(), input), future, extra, next)
  {
    if |input| < |left.data| + 2 {
      WaitForData(left, input, future, extra);
    }
    next := ReadDataFollows(left, input, future, extra);
  }

  lemma TurnBehindChunks(left: Rest, input: seq<byte>, future: seq<byte>, extra: seq<byte>) returns (next: Rest)
    requires left.Valid() && left.InTrailer? && input + future == left.Encode(extra)
    ensures Follows(left.Lines(), left.Body(), AfterSize(left.Size(), input), future, extra, next)
  {
    next := TurnInTrailer(left, input, future, extra);
  }

  lemma TurnFollows(left: Rest, input: seq<byte>, future: seq<byte>, extra: seq<byte>) returns (next: Rest)
    requires left.Valid() && input + future == left.Encode(extra)
    ensures Follows(left.Lines(), left.Body(), TakeTurn(left.Size(), input), future, extra, next)
  {
    if left.AtSize? && LF !in input {
      WaitForSize(left, input, future, extra);
      return left;
    }
    var place, rest := left, input;
    if left.AtSize? {
      place := ReadSizeFollows(left, input, future, extra);
      rest := ReadSize(left.Size(), input).value.1;
    }
    if place.InTrailer? {
      next := TurnBehindChunks(place, rest, future, extra);
    } else {
      next := TurnInChunk(place, rest, future, extra);
    }
  }

  /** What a whole call does to it. */
  ghost predicate Decodes(lines: seq<seq<byte>>, body: seq<byte>, o: Outcome, future: seq<byte>, extra: seq<byte>,
                          next: Rest) {
    if Cut(lines, future, extra) then o.Waiting? && |o.data| > |body|
    else
      match o
      case Failed => false
      case Finished(rest, data) => data == body && rest + future == extra
      case Waiting(size, rest, data) =>
        && |future| > |extra| && Behind(lines, next, |future| - |extra|)
        && size == next.Size() && data + next.Body() == body
        && rest + future == next.Encode(extra)
  }

  lemma BehindInTwo(lines: seq<seq<byte>>, next: Rest, later: Rest, missing: int)
    requires Behind(lines, next, missing) && Behind(next.Lines(), later, missing)
    ensures Behind(lines, later, missing)
  {
  }

  lemma DecodesInTwo(lines: seq<seq<byte>>, body: seq<byte>, data: seq<byte>, next: Rest, o: Outcome,
                     future: seq<byte>, extra: seq<byte>, later: Rest)
    requires Behind(lines, next, |future| - |extra|) && data + next.Body() == body
    requires Cut(lines, future, extra) <==> Cut(next.Lines(), future, extra)
    requires Decodes(next.Lines(), next.Body(), o, future, extra, later)
    ensures Decodes(lines, body, Prepend(data, o), future, extra, later)
  {
    if o.Waiting? {
      Associative(data, o.data, later.Body());
      if Behind(next.Lines(), later, |future| - |extra|) {
        BehindInTwo(lines, next, later, |future| - |extra|);
      }
    }
  }

  /** A turn that ends the call, or takes the start of a cut trailer line for data. */
  lemma LastTurnDecodes(lines: seq<seq<byte>>, body: seq<byte>, turn: Turn, o: Outcome, future: seq<byte>,
                        extra: seq<byte>, next: Rest)
    requires Follows(lines, body, turn, future, extra, next)
    requires match turn
             case Wait(size, rest) => o == Waiting(size, rest, [])
             case Complete(rest) => o == Finished(rest, [])
             case Malformed => false
             case More(size, rest, data) => size < -2 && o == Waiting(size, [], data)
    ensures Decodes(lines, body, o, future, extra, next)
  {
    match turn
    case Complete(rest) => NothingMissingIsNoCut(lines, |future| - |extra|);
    case Wait(_, _) => assert [] + next.Body() == body;
    case _ =>
  }

  lemma DecodeUnfolds(chunkedSize: int, input: seq<byte>, turn: Turn)
    requires turn == TakeTurn(chunkedSize, input)
    ensures Decode(chunkedSize, input)
            == match turn
               case Wait(size, rest) => Waiting(size, rest, [])
               case Complete(rest) => Finished(rest, [])
               case Malformed => Failed
               case More(size, rest, data) => Prepend(data, Decode(size, rest))
  {
  }

  lemma DecodeNothing(chunkedSize: int, data: seq<byte>)
    requires chunkedSize < -2
    ensures Prepend(data, Decode(chunkedSize, [])) == Waiting(chunkedSize, [], data)
  {
    assert Decode(chunkedSize, []) == Waiting(chunkedSize, [], []);
  }

  lemma {:induction false} DecodeFollows(left: Rest, input: seq<byte>, future: seq<byte>, extra: seq<byte>)
      returns (next: Rest)
    requires left.Valid() && input + future == left.Encode(extra)
    ensures Decodes(left.Lines(), left.Body(), Decode(left.Size(), input), future, extra, next)
    decreases |input|
  {
    next := TurnFollows(left, input, future, extra);
    var turn := TakeTurn(left.Size(), input);
    DecodeUnfolds(left.Size(), input, turn);
    if turn.More? && turn.chunkedSize >= -2 {
      var later := DecodeFollows(next, turn.input, future, extra);
      DecodesInTwo(left.Lines(), left.Body(), turn.data, next, Decode(turn.chunkedSize, turn.input), future, extra,
                   later);
      next := later;
    } else {
      if turn.More? {
        DecodeNothing(turn.chunkedSize, turn.data);
      }
      LastTurnDecodes(left.Lines(), left.Body(), turn, Decode(left.Size(), input), future, extra, next);
    }
  }

  // ---- all arrivals

  datatype Status = Reading | Done | Broken

  /** The state between two calls: the fields, the bytes not taken for this message, and the body delivered so far. */
  datatype Reader = Reader(chunkedSize: int, socket: seq<byte>, body: seq<byte>, status: Status)

  const START := Reader(0, [], [], Reading)

  /** `bytes` arrive. Behind the end of the message they belong to the next one, of which the slot reads the header. */
  function Arrive(r: Reader, bytes: seq<byte>): Reader {
    if r.status != Reading then r.(socket := r.socket + bytes)
    else
      match Decode(r.chunkedSize, r.socket + bytes)
      case Waiting(size, rest, data) => Reader(size, rest, r.body + data, Reading)
      case Finished(rest, data) => Reader(-1, rest, r.body + data, Done)
      case Failed => Reader(0, [], r.body, Broken)
  }

  function Receive(r: Reader, arrivals: seq<seq<byte>>): Reader
    decreases |arrivals|
  {
    if arrivals == [] then r else Receive(Arrive(r, arrivals[0]), arrivals[1..])
  }

  lemma {:induction false} BodyOnlyGrows(r: Reader, arrivals: seq<seq<byte>>)
    ensures r.body <= Receive(r, arrivals).body
    decreases |arrivals|
  {
    if arrivals != [] {
      BodyOnlyGrows(Arrive(r, arrivals[0]), arrivals[1..]);
    }
  }

  /** What arrives behind the end of a message is not taken for it. */
  lemma {:induction false} NothingIsReadOnceDone(r: Reader, arrivals: seq<seq<byte>>)
    requires r.status != Reading
    ensures Receive(r, arrivals) == r.(socket := r.socket + Join(arrivals))
    decreases |arrivals|
  {
    if arrivals != [] {
      NothingIsReadOnceDone(Arrive(r, arrivals[0]), arrivals[1..]);
      Associative(r.socket, arrivals[0], Join(arrivals[1..]));
    } else {
      assert r.socket + [] == r.socket;
    }
  }

  lemma {:induction false} ReceiveOneMore(r: Reader, arrivals: seq<seq<byte>>, bytes: seq<byte>)
    ensures Receive(r, arrivals + [bytes]) == Arrive(Receive(r, arrivals), bytes)
    decreases |arrivals|
  {
    if arrivals == [] {
      assert arrivals + [bytes] == [bytes] && [bytes][1..] == [];
      assert Receive(Arrive(r, bytes), []) == Arrive(r, bytes);
    } else {
      assert (arrivals + [bytes])[1..] == arrivals[1..] + [bytes];
      ReceiveOneMore(Arrive(r, arrivals[0]), arrivals[1..], bytes);
    }
  }

  /** While more of the body is awaited, the size is not the one that stands for a body without chunks. */
  lemma {:induction false} WaitingIsChunked(chunkedSize: int, input: seq<byte>)
    requires chunkedSize != -1
    ensures var o := Decode(chunkedSize, input); o.Waiting? ==> o.chunkedSize != -1
    decreases |input|
  {
    match TakeTurn(chunkedSize, input)
    case More(size, rest, data) => WaitingIsChunked(size, rest);
    case _ =>
  }

  /** Further on in a message, the same later arrivals cut a trailer line. */
  lemma CutFurtherOn(lines: seq<seq<byte>>, next: Rest, future: seq<byte>, later: seq<byte>, extra: seq<byte>)
    requires Behind(lines, next, |future| - |extra|) && |later| <= |future|
    ensures Cut(lines, later, extra) == Cut(next.Lines(), later, extra)
  {
    if next.Lines() != lines {
      EndsInSuffix(lines, |lines| - |next.Lines()|, |later| - |extra|);
    }
  }

  /** Some arrival ends inside a trailer line: the first one, or one behind it. */
  predicate SomeArrivalCuts(lines: seq<seq<byte>>, arrivals: seq<seq<byte>>, extra: seq<byte>) {
    arrivals != [] &&
    (Cut(lines, Join(arrivals[1..]), extra) || SomeArrivalCuts(lines, arrivals[1..], extra))
  }

  lemma {:induction false} NoCutOnceAllIsThere(lines: seq<seq<byte>>, arrivals: seq<seq<byte>>, extra: seq<byte>)
    requires |Join(arrivals)| <= |extra|
    ensures !SomeArrivalCuts(lines, arrivals, extra)
  {
    if arrivals != [] {
      NoCutOnceAllIsThere(lines, arrivals[1..], extra);
    }
  }

  lemma {:induction false} CutsFurtherOn(lines: seq<seq<byte>>, next: Rest, arrivals: seq<seq<byte>>, extra: seq<byte>)
    requires Behind(lines, next, |Join(arrivals)| - |extra|)
    ensures SomeArrivalCuts(lines, arrivals, extra) == SomeArrivalCuts(next.Lines(), arrivals, extra)
  {
    if arrivals != [] {
      CutFurtherOn(lines, next, Join(arrivals), Join(arrivals[1..]), extra);
      CutsFurtherOn(lines, next, arrivals[1..], extra);
    }
  }

  /** The same from any place in a message on. */
  lemma {:induction false} ReceiveFollows(left: Rest, r: Reader, arrivals: seq<seq<byte>>, extra: seq<byte>)
    requires left.Valid() && r.status == Reading && r.chunkedSize == left.Size()
    requires r.socket + Join(arrivals) == left.Encode(extra)
    requires |Join(arrivals)| > |extra|
    ensures Receive(r, arrivals) == Reader(-1, extra, r.body + left.Body(), Done)
            <==> !SomeArrivalCuts(left.Lines(), arrivals, extra)
    decreases |arrivals|
  {
    var input, others := r.socket + arrivals[0], arrivals[1..];
    var future := Join(others);
    Associative(r.socket, arrivals[0], future);
    var next := DecodeFollows(left, input, future, extra);
    var o, now := Decode(left.Size(), input), Arrive(r, arrivals[0]);
    if Cut(left.Lines(), future, extra) {
      BodyOnlyGrows(now, others);
    } else if o.Finished? {
      NothingIsReadOnceDone(now, others);
      NoCutOnceAllIsThere(left.Lines(), others, extra);
    } else {
      ReceiveFollows(next, now, others, extra);
      CutsFurtherOn(left.Lines(), next, others, extra);
      Associative(r.body, o.data, next.Body());
    }
  }

  /**
     However the bytes of a message are split into arrivals: the body comes out whole and exactly the
     message is taken from the socket, if and only if no arrival ends inside a trailer line.
   */
  lemma BodyArrives(chunks: seq<Chunk>, ending: Ending, arrivals: seq<seq<byte>>, extra: seq<byte>)
    requires AtSize(chunks, ending).Valid()
    requires Join(arrivals) == AtSize(chunks, ending).Encode(extra)
    ensures Receive(START, arrivals) == Reader(-1, extra, Bodies(chunks), Done)
            <==> !SomeArrivalCuts(ending.trailer + [ending.blank], arrivals, extra)
  {
    var message := AtSize(chunks, ending);
    EncodeIsLong(message, extra);
    JoinAppend(ending.trailer, [ending.blank]);
    assert [] + Join(arrivals) == Join(arrivals);
    ReceiveFollows(message, START, arrivals, extra);
    assert [] + Bodies(chunks) == Bodies(chunks);
  }

  /** After data, the size goes back to zero only together with the CRLF: there is no state between the two. */
  lemma ZeroOnlyBehindCrlf(chunkedSize: int, input: seq<byte>)
    requires chunkedSize > 0
    ensures var t := ReadData(chunkedSize, input);
            t.More? && t.chunkedSize == 0 ==> input == t.data + [CR, LF] + t.input && |t.data| == chunkedSize
  {
    var t := ReadData(chunkedSize, input);
    if t.More? && t.chunkedSize == 0 {
      var rest := input[chunkedSize..];
      assert rest == rest[..2] + rest[2..];
      assert input == t.data + rest;
    }
  }

  // ---- size lines

  /** The hexadecimal digits of a number, in upper or lower case. */
  function Hex(n: nat, upper: bool): (s: seq<byte>)
    ensures s != []
  {
    var low := n % 16;
    var digit: byte := if low < 10 then (48 + low) as byte else if upper then (55 + low) as byte
        else (87 + low) as byte;
    if n < 16 then [digit] else Hex(n / 16, upper) + [digit]
  }

  lemma {:induction false} NumeralOfHex(n: nat, upper: bool)
    ensures Numeral(Hex(n, upper)) == Some(n)
    ensures forall i :: 0 <= i < |Hex(n, upper)| ==> DigitValue(Hex(n, upper)[i]).Some?
  {
    var s := Hex(n, upper);
    if n >= 16 {
      NumeralOfHex(n / 16, upper);
      assert s[..|s| - 1] == Hex(n / 16, upper);
    } else {
      assert s[..0] == [];
    }
  }

  lemma TrimOfDigits(digits: seq<byte>)
    requires digits != [] && !IsSpace(digits[0]) && !IsSpace(digits[|digits| - 1])
    ensures TrimLeft(digits) == TrimRight(digits) == digits
    ensures TrimRight(digits + [CR, LF]) == digits && TrimLeft(digits + [CR, LF]) == digits + [CR, LF]
  {
    assert (digits + [CR, LF])[..|digits| + 1] == digits + [CR];
    assert (digits + [CR])[..|digits|] == digits;
    assert TrimRight(digits + [CR, LF]) == TrimRight(digits + [CR]) == TrimRight(digits);
  }

  lemma ToIntOfDigits(text: seq<byte>, digits: seq<byte>, n: nat)
    requires TrimRight(TrimLeft(text)) == digits && digits != [] && Numeral(digits) == Some(n) && n <= MAX_INT
    requires DigitValue(digits[0]).Some? && (|digits| > 1 ==> DigitValue(digits[1]).Some?)
    ensures ToInt(text) == Some(n)
  {
  }

  lemma ToIntOfHex(n: nat, upper: bool)
    requires n <= MAX_INT
    ensures ToInt(Hex(n, upper)) == ToInt(Hex(n, upper) + [CR, LF]) == Some(n)
  {
    var digits := Hex(n, upper);
    NumeralOfHex(n, upper);
    assert DigitValue(digits[0]).Some? && DigitValue(digits[|digits| - 1]).Some?;
    TrimOfDigits(digits);
    ToIntOfDigits(digits, digits, n);
    ToIntOfDigits(digits + [CR, LF], digits, n);
  }

  /** Nothing in front of position `i` is `c`, so `i` is the first. */
  lemma FirstIndexIs(s: seq<byte>, c: byte, i: nat)
    requires i < |s| && s[i] == c && c !in s[..i]
    ensures FirstIndex(s, c) == i
  {
  }

  lemma LineWithNewline(text: seq<byte>)
    requires LF !in text
    ensures IsLine(text + [LF])
  {
    assert (text + [LF])[..|text|] == text;
    FirstIndexIs(text + [LF], LF, |text|);
  }

  lemma SizeInFrontOfExtension(n: nat, upper: bool, extension: seq<byte>)
    requires n <= MAX_INT && (extension != [] ==> extension[0] == SEMICOLON)
    ensures SizeOf(Hex(n, upper) + if extension == [] then [CR, LF] else extension) == Some(n)
  {
    var digits := Hex(n, upper);
    var line := digits + if extension == [] then [CR, LF] else extension;
    NumeralOfHex(n, upper);
    ToIntOfHex(n, upper);
    assert SEMICOLON !in digits;
    if extension != [] {
      assert line[..|digits|] == digits;
      FirstIndexIs(line, SEMICOLON, |digits|);
    }
  }

  /** A size line as section 3.6.1 of RFC 2616 has it, with or without an extension, announces its number. */
  lemma SizeLineAnnounces(n: nat, upper: bool, extension: seq<byte>)
    requires n <= MAX_INT
    requires LF !in extension && (extension != [] ==> extension[0] == SEMICOLON)
    ensures var line := Hex(n, upper) + extension + [CR, LF];
            IsLine(line) && SizeOf(line) == Some(n)
  {
    var digits := Hex(n, upper);
    NumeralOfHex(n, upper);
    assert LF !in digits;
    LineWithNewline(digits + extension + [CR]);
    SizeInFrontOfExtension(n, upper, if extension == [] then [] else extension + [CR, LF]);
    LineInTwo(digits, extension);
  }

  lemma LineInTwo(digits: seq<byte>, extension: seq<byte>)
    ensures digits + extension + [CR] + [LF] == digits + extension + [CR, LF]
    ensures digits + extension + [CR, LF] == digits + if extension == [] then [CR, LF] else extension + [CR, LF]
  {
  }

  lemma ReceiveTwo(r: Reader, a: seq<byte>, b: seq<byte>)
    ensures Receive(r, [a, b]) == Arrive(Arrive(r, a), b)
  {
    assert [a, b][1..] == [b] && [b][1..] == [];
    assert Receive(Arrive(r, a), [b]) == Receive(Arrive(Arrive(r, a), b), []);
  }

  lemma ZeroLine()
    ensures SizeOf([48, LF]) == Some(0)
  {
    assert TrimRight([48, LF]) == TrimRight([48]) == [48];
    assert Numeral([48]) == Some(0);
  }

  lemma StartOfTrailerLineBecomesBody()
    ensures Arrive(START, [48, LF, 97]) == Reader(-3, [], [97], Reading)
  {
    var input: seq<byte> := [48, LF, 97];
    ZeroLine();
    assert LineLength(input) == 2 && input[..2] == [48, LF] && input[2..] == [97];
    assert ReadSize(0, input) == Some((-2, [97]));
    assert SkipTrailer(-2, [97]) == (-2, [97]);
    assert AfterSize(-2, [97]) == More(-3, [], [97]);
    DecodeUnfolds(0, input, More(-3, [], [97]));
    DecodeNothing(-3, [97]);
    assert [] + input == input;
  }

  /**
     The trailer line "a" cut in front of its newline: though the message has no body, the rest of it,
     from there on, comes out as body.
   */
  lemma CutTrailerLineBecomesBody()
    ensures Receive(START, [[48, LF, 97], [LF, LF]]).body == [97, LF, LF]
  {
    ReceiveTwo(START, [48, LF, 97], [LF, LF]);
    StartOfTrailerLineBecomesBody();
    assert TakeTurn(-3, [LF, LF]) == More(-5, [], [LF, LF]);
    assert Decode(-5, []) == Waiting(-5, [], []);
    assert [] + [LF, LF] == [LF, LF];
  }

  // ---- the slot

  lemma PrependInTwo(a: seq<byte>, b: seq<byte>, o: Outcome)
    ensures Prepend(a + b, o) == Prepend(a, Prepend(b, o))
  {
    if !o.Failed? {
      Associative(a, b, o.data);
    }
  }

  /** Bytes arrive on the socket, or the application reads. */
  datatype Happening = Arrives(bytes: seq<byte>) | Reads(maxlen: int)

  function ArrivalsAmong(events: seq<Happening>, n: nat): seq<seq<byte>>
    requires n <= |events|
  {
    if n == 0 then []
    else ArrivalsAmong(events, n - 1) + if events[n - 1].Arrives? then [events[n - 1].bytes] else []
  }

  class ChunkedReply {
    var chunkedSize: int
    var socket: seq<byte>
    /** Decoded bytes that the application has not read yet. */
    const rba: RingBuffer.QRingBuffer
    var everythingRead: bool
    var failed: bool
    /** How many bytes the application has taken. */
    var bytesDone: int

    /** The response header has announced a chunked body. */
    constructor ()
      ensures Valid() && fresh(rba)
      ensures chunkedSize == 0 && socket == [] && rba.Contents() == [] && !everythingRead && !failed && bytesDone == 0
    {
      chunkedSize, socket, everythingRead, failed, bytesDone := 0, [], false, false, 0;
      rba := new RingBuffer.QRingBuffer();
    }

    ghost predicate Valid()
      reads this, rba
    {
      rba.Valid()
    }

    /** The body that `r` has delivered is what the application has taken and what it still can; the rest agrees. */
    ghost predicate Follows(r: Reader, taken: seq<byte>)
      reads this, rba
    {
      && rba.Valid() && taken + rba.Contents() == r.body
      && everythingRead == (r.status == Done) && failed == (r.status == Broken)
      && (r.status == Reading ==> chunkedSize == r.chunkedSize != -1)
      && (r.status != Broken ==> socket == r.socket)
    }

    /** One turn of the loop: reads a size line if one is due, trailer lines, and data. */
    method ReadTurn() returns (data: seq<byte>, stop: bool)
      requires !everythingRead && !failed
      modifies this
      ensures bytesDone == old(bytesDone)
      ensures match TakeTurn(old(chunkedSize), old(socket))
              case Wait(size, rest) =>
                stop && data == [] && !everythingRead && !failed && chunkedSize == size && socket == rest
              case Complete(rest) =>
                stop && data == [] && everythingRead && !failed && chunkedSize == -1 && socket == rest
              case Malformed => stop && failed && !everythingRead
              case More(size, rest, some) =>
                !stop && data == some && !everythingRead && !failed && chunkedSize == size && socket == rest
    {
      data, stop := [], true;
      if chunkedSize == 0 {
        if LF !in socket {
          return;
        }
        var n := LineLength(socket);
        var sizeString := socket[..n];
        socket := socket[n..];
        var size := SizeOf(sizeString);
        if size == None {
          failed := true;
          return;
        }
        chunkedSize := if size.value == 0 then -2 else size.value;
      }
      ghost var skipped := SkipTrailer(chunkedSize, socket);
      while chunkedSize == -2 && LF in socket
        invariant SkipTrailer(chunkedSize, socket) == skipped
        invariant !everythingRead && !failed && bytesDone == old(bytesDone)
        decreases |socket|
      {
        var n := LineLength(socket);
        var line := socket[..n];
        socket := socket[n..];
        if IsBlank(line) {
          chunkedSize := -1;
        }
      }
      if chunkedSize == -1 {
        everythingRead := true;
        return;
      }
      var n: int := |socket|;
      if n == 0 {
        return;
      }
      if n == chunkedSize || n == chunkedSize + 1 {
        n := chunkedSize - 1;
        if n == 0 {
          return;
        }
      }
      var toRead := if chunkedSize < 0 then n else Min(n, chunkedSize);
      var some := socket[..toRead];
      socket := socket[toRead..];
      chunkedSize := chunkedSize - toRead;
      if chunkedSize == 0 && n - toRead >= 2 {
        var tmp := socket[..2];
        socket := socket[2..];
        if tmp[0] != CR || tmp[1] != LF {
          failed := true;
          return;
        }
      }
      return some, false;
    }

    /** The chunked branch of the slot, and what it does with the bytes it has decoded. */
    method SlotReadyRead()
      requires Valid() && chunkedSize != -1 && !everythingRead && !failed
      modifies this, rba
      ensures Valid() && bytesDone == old(bytesDone)
      ensures match Decode(old(chunkedSize), old(socket))
              case Waiting(size, rest, data) =>
                && !failed && !everythingRead && chunkedSize == size && socket == rest
                && rba.Contents() == old(rba.Contents()) + data
              case Finished(rest, data) =>
                && !failed && everythingRead && chunkedSize == -1 && socket == rest
                && rba.Contents() == old(rba.Contents()) + data
              case Failed => failed && !everythingRead && rba.Contents() == old(rba.Contents())
    {
      ghost var was := Decode(chunkedSize, socket);
      var arr: seq<byte> := [];
      while true
        invariant was == Prepend(arr, Decode(chunkedSize, socket))
        invariant !everythingRead && !failed && bytesDone == old(bytesDone)
        modifies this
        decreases |socket|
      {
        var data, stop := ReadTurn();
        if stop {
          break;
        }
        PrependInTwo(arr, data, Decode(chunkedSize, socket));
        arr := arr + data;
      }
      if !failed {
        assert was.data == arr;
        rba.Write(arr);
      }
    }

    /**
     QHttp::read. What the application has taken and what is still stored stays the same in sum. (A
     negative `maxlen` takes nothing but is still added to the count.)
     */
    method Read(data: array<byte>, maxlen: int) returns (n: int)
      requires Valid() && maxlen <= data.Length
      modifies this, rba, data
      ensures Valid() && chunkedSize == old(chunkedSize) && socket == old(socket)
      ensures everythingRead == old(everythingRead) && failed == old(failed)
      ensures n == Min(maxlen, |old(rba.Contents())|) && bytesDone == old(bytesDone) + n
      ensures maxlen >= 0 ==> data[..n] == old(rba.Contents())[..n] && data[n..] == old(data[n..])
      ensures rba.Contents() == old(rba.Contents())[Max(n, 0)..]
      ensures maxlen >= 0 ==> bytesDone + |rba.Contents()| == old(bytesDone) + |old(rba.Contents())|
    {
      n := if maxlen >= rba.Size() then rba.Size() else maxlen;
      MoveOut(data, Max(n, 0));
      bytesDone := bytesDone + n;
    }

    /** The loop of QHttp::read, one block of the buffer at a time. */
    method MoveOut(data: array<byte>, wanted: nat)
      requires Valid() && wanted <= data.Length && wanted <= rba.Size()
      modifies rba, data
      ensures Valid()
      ensures data[..wanted] == old(rba.Contents())[..wanted] && data[wanted..] == old(data[wanted..])
      ensures rba.Contents() == old(rba.Contents())[wanted..]
    {
      ghost var was, before := rba.Contents(), data[..];
      var readSoFar := 0;
      while !rba.IsEmpty() && readSoFar < wanted
        invariant Valid() && 0 <= readSoFar <= wanted
        invariant rba.Moved(data, readSoFar, was, before)
        decreases wanted - readSoFar
      {
        var bytesToRead := Min(wanted - readSoFar, rba.NextDataBlockSize());
        rba.MoveFirst(data, readSoFar, bytesToRead, was, before);
        readSoFar := readSoFar + bytesToRead;
      }
    }

    method BytesArrive(bytes: seq<byte>, ghost r: Reader, ghost taken: seq<byte>)
      requires Follows(r, taken)
      modifies this, rba
      ensures Follows(Arrive(r, bytes), taken)
    {
      socket := socket + bytes;
      if !everythingRead && !failed {
        WaitingIsChunked(chunkedSize, socket);
        ghost var (o, before) := (Decode(chunkedSize, socket), rba.Contents());
        SlotReadyRead();
        if !o.Failed? {
          Associative(taken, before, o.data);
        }
      }
    }

    method Take(maxlen: int, ghost r: Reader, ghost taken: seq<byte>) returns (some: seq<byte>)
      requires Follows(r, taken)
      modifies this, rba
      ensures Follows(r, taken + some)
    {
      ghost var before := rba.Contents();
      var data := new byte[Max(maxlen, 0)];
      var n := Read(data, maxlen);
      some := data[..Max(n, 0)];
      TakenAndLeft(taken, before, Max(n, 0));
    }

    /** Whatever arrives and is read in turn, the bytes taken and those that can be read make up the body. */
    method Run(events: seq<Happening>, ghost r: Reader) returns (taken: seq<byte>)
      requires Follows(r, [])
      modifies this, rba
      ensures Follows(Receive(r, ArrivalsAmong(events, |events|)), taken)
    {
      taken := [];
      var i := 0;
      while i < |events|
        invariant i <= |events| && Follows(Receive(r, ArrivalsAmong(events, i)), taken)
      {
        ghost var now := Receive(r, ArrivalsAmong(events, i));
        match events[i] {
          case Arrives(bytes) =>
            ReceiveOneMore(r, ArrivalsAmong(events, i), bytes);
            BytesArrive(bytes, now, taken);
          case Reads(maxlen) =>
            assert ArrivalsAmong(events, i) + [] == ArrivalsAmong(events, i);
            var some := Take(maxlen, now, taken);
            taken := taken + some;
        }
        i := i + 1;
      }
    }

    /**
     A whole message: the application gets just its body, in whatever portions it reads, and all behind it stays on the
     socket, if and only if no arrival ends inside a trailer line.
     */
    method ReadMessage(events: seq<Happening>, ghost chunks: seq<Chunk>, ghost ending: Ending, ghost extra: seq<byte>)
        returns (taken: seq<byte>)
      requires Follows(START, []) && AtSize(chunks, ending).Valid()
      requires Join(ArrivalsAmong(events, |events|)) == AtSize(chunks, ending).Encode(extra)
      modifies this, rba
      ensures Valid()
      ensures everythingRead && socket == extra && taken + rba.Contents() == Bodies(chunks)
              <==> !SomeArrivalCuts(ending.trailer + [ending.blank], ArrivalsAmong(events, |events|), extra)
    {
      BodyArrives(chunks, ending, ArrivalsAmong(events, |events|), extra);
      DoneIsDone(START, ArrivalsAmong(events, |events|));
      taken := Run(events, START);
    }
  }

  lemma TakenAndLeft(taken: seq<byte>, before: seq<byte>, n: nat)
    requires n <= |before|
    ensures taken + before[..n] + before[n..] == taken + before
  {
    Associative(taken, before[..n], before[n..]);
    assert before[..n] + before[n..] == before;
  }

  lemma {:induction false} DoneIsDone(r: Reader, arrivals: seq<seq<byte>>)
    requires r.status == Done ==> r.chunkedSize == -1
    ensures Receive(r, arrivals).status == Done ==> Receive(r, arrivals).chunkedSize == -1
    decreases |arrivals|
  {
    if arrivals != [] {
      DoneIsDone(Arrive(r, arrivals[0]), arrivals[1..]);
    }
  }
}
