/** CCharStream: a position in a text, which may get one behind the end, and an offset for looking around. */
module CharStream {

  /** What is behind the end of the text is not known; at the end there is a zero. */
  function CharAt(data: string, position: nat, beyond: char): char {
    if position < |data| then data[position] else if position == |data| then '\0' else beyond
  }

  predicate Matches(data: string, position: nat, s: string) {
    position + |s| <= |data| && forall i :: 0 <= i < |s| ==> data[position + i] == s[i]
  }

  class CCharStream {
    const data: string
    const beyond: char
    var position: nat
    var peek: int

    ghost predicate Valid() reads this { position <= |data| + 1 }

    constructor (data: string, beyond: char)
      ensures Valid() && this.data == data && this.beyond == beyond && position == 0 && peek == 0
    {
      this.data, this.beyond := data, beyond;
      position, peek := 0, 0;
    }

    predicate AtEnd() reads this { position >= |data| }

    /** The character here, as it reads while nothing is peeked at. */
    function Current(): char reads this { CharAt(data, position, beyond) }

    predicate Looks(s: string) reads this { Matches(data, position, s) }

    /** The character here, or the one peeked at; looking at it ends the peek. */
    method Read() returns (c: char)
      requires Valid()
      modifies this`peek
      ensures peek == 0
      ensures old(peek) == 0 ==> c == Current()
      ensures old(peek) != 0 ==>
                var at := position + old(peek);
                c == if at < 0 then '\n' else if at >= |data| then '\0' else data[at]
    {
      if peek != 0 {
        var at := position + peek;
        peek := 0;
        return if at < 0 then '\n' else if at >= |data| then '\0' else data[at];
      }
      c := CharAt(data, position, beyond);
    }

    method Next()
      modifies this`peek
      ensures peek == old(peek) + 1
    {
      peek := peek + 1;
    }

    /** One further; it fails only behind the end. */
    method Increment() returns (ok: bool)
      requires Valid()
      modifies this`position
      ensures Valid() && ok == (old(position) <= |data|)
      ensures position == old(position) + if ok then 1 else 0
    {
      if position > |data| {
        return false;
      }
      position := position + 1;
      ok := true;
    }

    method Decrement() returns (ok: bool)
      requires Valid()
      modifies this`position
      ensures Valid() && ok == (old(position) > 0)
      ensures position == old(position) - if ok then 1 else 0
    {
      if position == 0 {
        return false;
      }
      position := position - 1;
      ok := true;
    }

    /** Further by some characters, all of which must be there. */
    method Advance(length: nat) returns (ok: bool)
      requires Valid()
      modifies this`position
      ensures Valid() && ok == (old(position) + length <= |data|)
      ensures position == old(position) + if ok then length else 0
    {
      if position + length > |data| {
        return false;
      }
      position := position + length;
      ok := true;
    }

    method Seek(to: nat)
      requires to <= |data| + 1
      modifies this`position, this`peek
      ensures Valid() && position == to && peek == 0
    {
      peek := 0;
      position := to;
    }

    /** Where the character is on this line, or where the line or the text ends. */
    method IndexInLine(target: char) returns (at: nat)
      requires Valid()
      ensures at >= position && (position <= |data| ==> at <= |data|)
      ensures forall i :: position <= i < at && i < |data| ==> data[i] != target && data[i] != '\n'
      ensures at < |data| ==> data[at] == target || data[at] == '\n'
    {
      at := position;
      while at < |data| && data[at] != target && data[at] != '\n'
        invariant at >= position && (position <= |data| ==> at <= |data|)
        invariant forall i :: position <= i < at ==> i < |data| && data[i] != target && data[i] != '\n'
      {
        at := at + 1;
      }
    }
  }
}
