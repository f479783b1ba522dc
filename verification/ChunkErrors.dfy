/** What is no chunk: a size line without a number, and data that the line break does not follow. */
module ChunkErrors {
  import opened Wrappers
  import opened Bytes
  import RingBuffer
  import opened ChunkedBody

  lemma {:induction false} NoNumeral(s: seq<byte>, k: nat)
    requires k < |s| && DigitValue(s[k]).None?
    ensures Numeral(s).None?
  {
    if k < |s| - 1 {
      assert s[..|s| - 1][k] == s[k];
      NoNumeral(s[..|s| - 1], k);
    }
  }

  const MINUS: byte := 45
  const PLUS: byte := 43

  /** A word in which the k-th character is no digit, nor the x of a prefix. */
  predicate IsNoNumber(word: seq<byte>, k: nat) {
    && k < |word| && DigitValue(word[k]).None? && (k == 1 ==> word[1] != 120 && word[1] != 88)
    && word[0] != MINUS && word[0] != PLUS && !IsSpace(word[0]) && !IsSpace(word[|word| - 1])
  }

  lemma WordIsNoNumber(text: seq<byte>, word: seq<byte>, k: nat)
    requires IsNoNumber(word, k) && TrimRight(TrimLeft(text)) == word
    ensures ToInt(text) == None
  {
    var prefixed := |word| > 2 && word[0] == 48 && (word[1] == 120 || word[1] == 88);
    var digits := if prefixed then word[2..] else word;
    if prefixed {
      assert k >= 2 && digits[k - 2] == word[k];
      NoNumeral(digits, k - 2);
    } else {
      NoNumeral(digits, k);
    }
  }

  lemma NoSizeInLine(word: seq<byte>, k: nat, extension: seq<byte>)
    requires IsNoNumber(word, k) && SEMICOLON !in word && (extension != [] ==> extension[0] == SEMICOLON)
    ensures SizeOf(word + if extension == [] then [CR, LF] else extension) == None
  {
    var line := word + if extension == [] then [CR, LF] else extension;
    TrimOfDigits(word);
    if extension == [] {
      WordIsNoNumber(line, word, k);
    } else {
      assert line[..|word|] == word;
      FirstIndexIs(line, SEMICOLON, |word|);
      WordIsNoNumber(word, word, k);
    }
  }

  /** A size line that does not begin with a number fails, whatever follows. */
  lemma BadSizeLineFails(word: seq<byte>, k: nat, extension: seq<byte>, more: seq<byte>)
    requires IsNoNumber(word, k) && SEMICOLON !in word && LF !in word && LF !in extension
    requires extension != [] ==> extension[0] == SEMICOLON
    ensures Decode(0, word + extension + [CR, LF] + more) == Failed
  {
    var line := word + extension + [CR, LF];
    LineInTwo(word, extension);
    LineWithNewline(word + extension + [CR]);
    NoSizeInLine(word, k, if extension == [] then [] else extension + [CR, LF]);
    assert SizeOf(line) == None;
    assert (line + more)[..|line|] == line;
    assert line[|line| - 1] == LF;
    LineInFront(line, more);
  }

  lemma LineInFront(line: seq<byte>, more: seq<byte>)
    requires IsLine(line)
    ensures LF in line + more && LineLength(line + more) == |line|
  {
    RingBuffer.FirstIndexInTwo(line, more, LF);
    assert (line + more)[|line| - 1] == line[|line| - 1];
  }

  /** The data of a chunk must have a line break behind it. */
  lemma UnterminatedChunkFails(data: seq<byte>, tail: seq<byte>)
    requires data != [] && |tail| >= 2 && tail[..2] != [CR, LF]
    ensures Decode(|data|, data + tail) == Failed
  {
    assert (data + tail)[..|data|] == data && (data + tail)[|data|..] == tail;
  }
}
