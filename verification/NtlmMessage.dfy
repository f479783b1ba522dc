/**
 The NTLM authenticate message (section 2.2.1.3 of MS-NLMP) as qNtlmPhase3 lays it out: a header with one
 descriptor per field, and the fields behind it.
 */
module NtlmMessage {
  import opened Bytes

  newtype unit = x: int | 0 <= x < 65536
  type Text = seq<unit>

  // ---- little-endian numbers, as QDataStream writes and reads them

  function Le16(n: nat): (s: seq<byte>)
    ensures |s| == 2
  {
    [(n % 256) as byte, (n / 256 % 256) as byte]
  }

  function Le32(n: nat): (s: seq<byte>)
    ensures |s| == 4
  {
    Le16(n % 65536) + Le16(n / 65536)
  }

  function Read16(s: seq<byte>, at: nat): nat
    requires at + 2 <= |s|
  {
    s[at] as int + 256 * s[at + 1] as int
  }

  function Read32(s: seq<byte>, at: nat): nat
    requires at + 4 <= |s|
  {
    Read16(s, at) + 65536 * Read16(s, at + 2)
  }

  lemma Read16OfLe16(s: seq<byte>, at: nat, n: nat)
    requires at + 2 <= |s| && s[at..at + 2] == Le16(n) && n < 65536
    ensures Read16(s, at) == n
  {
    assert s[at] == s[at..at + 2][0] && s[at + 1] == s[at..at + 2][1];
  }

  lemma Read32OfLe32(s: seq<byte>, at: nat, n: nat)
    requires at + 4 <= |s| && s[at..at + 4] == Le32(n) && n < 0x1_0000_0000
    ensures Read32(s, at) == n
  {
    assert s[at..at + 2] == s[at..at + 4][..2] == Le16(n % 65536);
    assert s[at + 2..at + 4] == s[at..at + 4][2..] == Le16(n / 65536);
    Read16OfLe16(s, at, n % 65536);
    Read16OfLe16(s, at + 2, n / 65536);
  }

  // ---- descriptors

  /** QNtlmBuffer: two 16-bit numbers and a 32-bit one. */
  datatype Descriptor = Descriptor(len: nat, maxLen: nat, offset: nat) {
    predicate Fits() { len < 65536 && maxLen < 65536 && offset < 0x1_0000_0000 }

    function Encode(): (s: seq<byte>)
      ensures |s| == 8
    {
      Le16(len) + Le16(maxLen) + Le32(offset)
    }
  }

  /** The descriptor of a field of `size` bytes, with the running offset rounded up to an even number. */
  function Describe(offset: nat, size: nat): (d: Descriptor)
    ensures d.Fits()
  {
    Descriptor(size % 65536, size % 65536, (offset + offset % 2) % 0x1_0000_0000)
  }

  /** One descriptor after the other, from a running offset on. */
  function Layout(sizes: seq<nat>, offset: nat): (ds: seq<Descriptor>)
    ensures |ds| == |sizes| && forall d <- ds :: d.Fits()
  {
    if sizes == [] then []
    else
      var d := Describe(offset, sizes[0]);
      [d] + Layout(sizes[1..], d.offset + d.len)
  }

  function Sum(sizes: seq<nat>): nat {
    if sizes == [] then 0 else sizes[0] + Sum(sizes[1..])
  }

  /** Each descriptor gives the size of its field and the place where it starts when the fields are packed. */
  predicate Faithful(ds: seq<Descriptor>, sizes: seq<nat>, offset: nat)
    requires |ds| == |sizes|
  {
    ds == [] ||
    (ds[0].len == ds[0].maxLen == sizes[0] && ds[0].offset == offset &&
     Faithful(ds[1..], sizes[1..], offset + sizes[0]))
  }

  /** No field is too long for its descriptor, and none but the last has an odd number of bytes. */
  predicate Packable(sizes: seq<nat>) {
    forall i :: 0 <= i < |sizes| ==> sizes[i] < 65536 && (i < |sizes| - 1 ==> sizes[i] % 2 == 0)
  }

  lemma PackableInTwo(sizes: seq<nat>)
    requires sizes != []
    ensures Packable(sizes)
            <==> sizes[0] < 65536 && (|sizes| > 1 ==> sizes[0] % 2 == 0) && Packable(sizes[1..])
  {
    if sizes[0] < 65536 && (|sizes| > 1 ==> sizes[0] % 2 == 0) && Packable(sizes[1..]) {
      assert forall i :: 1 <= i < |sizes| ==> sizes[i] == sizes[1..][i - 1];
    }
  }

  lemma DescribeIs(offset: nat, size: nat)
    requires offset + 1 < 0x1_0000_0000
    ensures Describe(offset, size).offset == offset + offset % 2
    ensures size < 65536 ==> Describe(offset, size).len == Describe(offset, size).maxLen == size
    ensures size >= 65536 ==> Describe(offset, size).len != size
  {
  }

  lemma FaithfulInTwo(sizes: seq<nat>, offset: nat, d: Descriptor)
    requires sizes != [] && d == Describe(offset, sizes[0])
    ensures Faithful(Layout(sizes, offset), sizes, offset)
            <==> d.len == d.maxLen == sizes[0] && d.offset == offset
                 && Faithful(Layout(sizes[1..], d.offset + d.len), sizes[1..], offset + sizes[0])
  {
    assert Layout(sizes, offset)[0] == d && Layout(sizes, offset)[1..] == Layout(sizes[1..], d.offset + d.len);
  }

  /**
     The offsets are rounded up but no padding is written, so the descriptors point at the fields if and
     only if nothing is rounded.
   */
  lemma {:induction false} FaithfulIffPackable(sizes: seq<nat>, offset: nat)
    requires offset % 2 == 0 && offset + 65536 * |sizes| < 0x1_0000_0000
    ensures Faithful(Layout(sizes, offset), sizes, offset) <==> Packable(sizes)
  {
    if sizes != [] {
      var d, rest := Describe(offset, sizes[0]), sizes[1..];
      DescribeIs(offset, sizes[0]);
      FaithfulInTwo(sizes, offset, d);
      PackableInTwo(sizes);
      if sizes[0] < 65536 && sizes[0] % 2 == 0 {
        FaithfulIffPackable(rest, offset + sizes[0]);
      } else if sizes[0] < 65536 && rest != [] {
        RoundedIsNotFaithful(rest, offset + sizes[0]);
      }
    }
  }

  lemma RoundedIsNotFaithful(sizes: seq<nat>, offset: nat)
    requires sizes != [] && offset % 2 == 1 && offset + 1 < 0x1_0000_0000
    ensures !Faithful(Layout(sizes, offset), sizes, offset)
  {
    DescribeIs(offset, sizes[0]);
    FaithfulInTwo(sizes, offset, Describe(offset, sizes[0]));
  }

  /** Where the descriptors of a faithful layout point, and where the fields end. */
  lemma {:induction false} FaithfulAt(ds: seq<Descriptor>, sizes: seq<nat>, offset: nat, k: nat)
    requires |ds| == |sizes| && Faithful(ds, sizes, offset) && k < |ds|
    ensures ds[k].len == sizes[k] && ds[k].offset == offset + Sum(sizes[..k])
  {
    if k > 0 {
      FaithfulAt(ds[1..], sizes[1..], offset + sizes[0], k - 1);
      assert sizes[..k][1..] == sizes[1..][..k - 1];
    }
  }

  // ---- the message

  const SIGNATURE: seq<byte> := [78, 84, 76, 77, 83, 83, 80, 0]
  const HEADER_SIZE := 64

  const NEGOTIATE_UNICODE := 0x001
  const NEGOTIATE_OEM := 0x002
  const NEGOTIATE_NTLM := 0x200

  /** The fields as bytes, in the order in which they are written. */
  datatype Fields = Fields(domain: seq<byte>, user: seq<byte>, workstation: seq<byte>, lm: seq<byte>, ntlm: seq<byte>) {
    function All(): seq<seq<byte>> { [domain, user, workstation, lm, ntlm] }

    function Sizes(): seq<nat> { [|domain|, |user|, |workstation|, |lm|, |ntlm|] }

    function Descriptors(): (ds: seq<Descriptor>)
      ensures |ds| == 5 && forall d <- ds :: d.Fits()
    {
      Layout(Sizes(), HEADER_SIZE)
    }
  }

  /** The header names the responses first; the session key is never set. */
  function HeaderParts(ds: seq<Descriptor>, flags: nat): seq<seq<byte>>
    requires |ds| == 5
  {
    [SIGNATURE, Le32(3),
     ds[3].Encode(), ds[4].Encode(), ds[0].Encode(), ds[1].Encode(), ds[2].Encode(), Descriptor(0, 0, 0).Encode(),
     Le32(flags)]
  }

  function Message(f: Fields, flags: nat): seq<byte> {
    Join(HeaderParts(f.Descriptors(), flags)) + Join(f.All())
  }

  /** What a receiver takes for a field: the bytes that the descriptor at `at` in the header points at. */
  function FieldAt(message: seq<byte>, at: nat): seq<byte>
    requires at + 8 <= |message|
  {
    var (len, offset) := (Read16(message, at), Read32(message, at + 4));
    if offset + len <= |message| then message[offset..offset + len] else []
  }

  /** Where part `k` of the header starts: eight bytes each, but four for the message type and the flags. */
  function HeaderOffset(k: nat): nat {
    if k == 0 then 0 else if k == 9 then HEADER_SIZE else if k == 1 then 8 else 8 * k - 4
  }

  lemma {:induction false} HeaderIsLaidOut(parts: seq<seq<byte>>, k: nat)
    requires k <= |parts| == 9
    requires forall i :: 0 <= i < 9 ==> |parts[i]| == if i == 1 || i == 8 then 4 else 8
    ensures |Join(parts[..k])| == HeaderOffset(k)
  {
    if k > 0 {
      HeaderIsLaidOut(parts, k - 1);
      JoinAt(parts, k - 1);
    }
  }

  /** Part `k` of the header is at its place in the message. */
  lemma HeaderPartAt(f: Fields, flags: nat, k: nat)
    requires k < 9
    ensures |Join(HeaderParts(f.Descriptors(), flags))| == HEADER_SIZE
    ensures var part := HeaderParts(f.Descriptors(), flags)[k];
            && HeaderOffset(k) + |part| <= HEADER_SIZE <= |Message(f, flags)|
            && Message(f, flags)[HeaderOffset(k)..HeaderOffset(k) + |part|] == part
  {
    var parts := HeaderParts(f.Descriptors(), flags);
    HeaderIsLaidOut(parts, k);
    HeaderIsLaidOut(parts, 9);
    assert parts[..9] == parts;
    JoinAt(parts, k);
    var (header, at) := (Join(parts), HeaderOffset(k));
    assert Message(f, flags)[at..at + |parts[k]|] == header[at..at + |parts[k]|];
  }

  /** A receiver finds the numbers of a descriptor. */
  lemma DescriptorReadBack(m: seq<byte>, at: nat, d: Descriptor)
    requires at + 8 <= |m| && m[at..at + 8] == d.Encode() && d.Fits()
    ensures Read16(m, at) == d.len && Read32(m, at + 4) == d.offset
  {
    assert m[at..at + 2] == m[at..at + 8][..2] == Le16(d.len);
    assert m[at + 4..at + 8] == m[at..at + 8][4..] == Le32(d.offset);
    Read16OfLe16(m, at, d.len);
    Read32OfLe32(m, at + 4, d.offset);
  }

  lemma SumOfTake(f: Fields, k: nat)
    requires k <= 5
    ensures Sum(f.Sizes()[..k]) == |Join(f.All()[..k])|
  {
    SumIsJoined(f.All()[..k], f.Sizes()[..k]);
  }

  lemma {:induction false} SumIsJoined(blocks: seq<seq<byte>>, sizes: seq<nat>)
    requires |sizes| == |blocks| && forall i :: 0 <= i < |blocks| ==> sizes[i] == |blocks[i]|
    ensures Sum(sizes) == |Join(blocks)|
  {
    if blocks != [] {
      SumIsJoined(blocks[1..], sizes[1..]);
    }
  }

  /** Field `j` is where its descriptor points. */
  lemma FieldIsThere(f: Fields, flags: nat, j: nat)
    requires Packable(f.Sizes()) && j < 5
    ensures var (m, d) := (Message(f, flags), f.Descriptors()[j]);
            && d.len == |f.All()[j]| && d.offset + d.len <= |m|
            && m[d.offset..d.offset + d.len] == f.All()[j]
  {
    var (m, header) := (Message(f, flags), Join(HeaderParts(f.Descriptors(), flags)));
    HeaderPartAt(f, flags, 0);
    FaithfulIffPackable(f.Sizes(), HEADER_SIZE);
    FaithfulAt(f.Descriptors(), f.Sizes(), HEADER_SIZE, j);
    SumOfTake(f, j);
    BehindHeader(header, f.All(), j);
    assert |f.All()[j]| == f.Sizes()[j];
  }

  lemma BehindHeader(header: seq<byte>, blocks: seq<seq<byte>>, j: nat)
    requires j < |blocks|
    ensures var (m, at) := (header + Join(blocks), |header| + |Join(blocks[..j])|);
            at + |blocks[j]| <= |m| && m[at..at + |blocks[j]|] == blocks[j]
  {
    JoinAt(blocks, j);
    var (m, at) := (header + Join(blocks), |Join(blocks[..j])|);
    assert m[|header| + at..|header| + at + |blocks[j]|] == Join(blocks)[at..at + |blocks[j]|];
  }

  /** Field `j`, whose descriptor is part `k` of the header, is read back as it was. */
  lemma FieldReadBack(f: Fields, flags: nat, k: nat, j: nat)
    requires Packable(f.Sizes())
    requires 2 <= k < 8 && j < 5 && HeaderParts(f.Descriptors(), flags)[k] == f.Descriptors()[j].Encode()
    ensures |Message(f, flags)| >= HEADER_SIZE && FieldAt(Message(f, flags), 8 * k - 4) == f.All()[j]
  {
    HeaderPartAt(f, flags, k);
    FieldIsThere(f, flags, j);
    FieldFound(Message(f, flags), 8 * k - 4, f.Descriptors()[j], f.All()[j]);
  }

  lemma FieldFound(m: seq<byte>, at: nat, d: Descriptor, field: seq<byte>)
    requires at + 8 <= |m| && m[at..at + 8] == d.Encode() && d.Fits()
    requires d.offset + d.len <= |m| && m[d.offset..d.offset + d.len] == field
    ensures FieldAt(m, at) == field
  {
    DescriptorReadBack(m, at, d);
  }

  /** Every field of a message is read back, and they fill it up to its end. */
  lemma FieldsReadBack(f: Fields, flags: nat)
    requires Packable(f.Sizes())
    ensures var m := Message(f, flags);
            && |m| == HEADER_SIZE + Sum(f.Sizes())
            && FieldAt(m, 12) == f.lm && FieldAt(m, 20) == f.ntlm
            && FieldAt(m, 28) == f.domain && FieldAt(m, 36) == f.user && FieldAt(m, 44) == f.workstation
  {
    FieldReadBack(f, flags, 2, 3);
    FieldReadBack(f, flags, 3, 4);
    FieldReadBack(f, flags, 4, 0);
    FieldReadBack(f, flags, 5, 1);
    FieldReadBack(f, flags, 6, 2);
    HeaderPartAt(f, flags, 0);
    SumIsJoined(f.All(), f.Sizes());
  }

  // ---- text

  function Utf16(t: Text): (s: seq<byte>)
    ensures |s| == 2 * |t|
  {
    seq(2 * |t|, i requires 0 <= i < 2 * |t| => Le16(t[i / 2] as int)[i % 2])
  }

  /** One byte a character; what Latin-1 does not have becomes a question mark. */
  function Latin1(t: Text): (s: seq<byte>)
    ensures |s| == |t|
  {
    seq(|t|, i requires 0 <= i < |t| => if t[i] < 256 then t[i] as byte else 63)
  }

  function Encoded(t: Text, unicode: bool): seq<byte> {
    if unicode then Utf16(t) else Latin1(t)
  }

  lemma EvenIsPackable(sizes: seq<nat>)
    requires |sizes| == 5
    requires sizes[0] % 2 == 0 && sizes[1] % 2 == 0 && sizes[2] % 2 == 0 && sizes[3] % 2 == 0
    ensures Packable(sizes)
            <==> sizes[0] < 65536 && sizes[1] < 65536 && sizes[2] < 65536 && sizes[3] < 65536 && sizes[4] < 65536
  {
  }

  /** In Unicode mode nothing is ever rounded: only the length of a field can be too much. */
  lemma UnicodeIsPackable(domain: Text, user: Text, workstation: Text, lm: seq<byte>, ntlm: seq<byte>)
    requires |lm| == 0 || |lm| == 24
    ensures Packable(Fields(Utf16(domain), Utf16(user), Utf16(workstation), lm, ntlm).Sizes())
            <==> |domain| < 32768 && |user| < 32768 && |workstation| < 32768 && |ntlm| < 65536
  {
    EvenIsPackable(Fields(Utf16(domain), Utf16(user), Utf16(workstation), lm, ntlm).Sizes());
  }

  /** In OEM mode a domain of one letter moves all that follows: for the user, a receiver takes what is behind it. */
  lemma OddDomainMovesUser(domain: Text, user: Text, lm: seq<byte>, ntlm: seq<byte>, flags: nat)
    requires |domain| == 1 && |user| == 1 && |lm| == 24
    ensures var m := Message(Fields(Encoded(domain, false), Encoded(user, false), Encoded([], false), lm, ntlm), flags);
            |m| >= HEADER_SIZE && FieldAt(m, 36) == [lm[0]]
  {
    var f := Fields(Latin1(domain), Latin1(user), Latin1([]), lm, ntlm);
    var (m, header) := (Message(f, flags), Join(HeaderParts(f.Descriptors(), flags)));
    OddThenOne(f.Sizes());
    HeaderPartAt(f, flags, 5);
    DescriptorReadBack(m, 36, f.Descriptors()[1]);
    BehindHeader(header, f.All(), 3);
    SumOfTake(f, 3);
    assert f.Sizes()[..3] == [1, 1, 0] && Sum([1, 1, 0]) == 2;
    assert m[66] == m[66..90][0] == lm[0];
  }

  lemma OddThenOne(sizes: seq<nat>)
    requires |sizes| > 1 && sizes[0] == sizes[1] == 1
    ensures Layout(sizes, HEADER_SIZE)[1] == Descriptor(1, 1, 66)
  {
    assert Describe(65, 1) == Descriptor(1, 1, 66);
  }

  /** A user B is not read back where the response starts with another letter. */
  lemma UserIsNotReadBack(lm: seq<byte>, ntlm: seq<byte>, flags: nat)
    requires |lm| == 24 && lm[0] != 66
    ensures var f := Fields(Encoded([65], false), Encoded([66], false), Encoded([], false), lm, ntlm);
            |Message(f, flags)| >= HEADER_SIZE && FieldAt(Message(f, flags), 36) != f.user
  {
    OddDomainMovesUser([65], [66], lm, ntlm, flags);
    assert Latin1([66]) == [66];
  }

  // ---- writing it

  /** qEncodeNtlmBuffer and qEncodeNtlmString: fills in a descriptor and moves the running offset on. */
  method EncodeField(offset: nat, size: nat) returns (buf: Descriptor, next: nat)
    ensures buf == Describe(offset, size) && next == buf.offset + buf.len
  {
    buf := Descriptor(size % 65536, size % 65536, (offset + offset % 2) % 0x1_0000_0000);
    next := buf.offset + buf.len;
  }

  /** What qNtlmPhase3 puts in the fields. With a target information block there is no LM response. */
  function Phase3Fields(unicode: bool, userDomain: Text, extractedUser: Text, workstation: Text, targetName: Text,
                        hasTargetInfo: bool, lmv2: seq<byte>, ntlmv2: seq<byte>): Fields {
    var domain := if userDomain == [] && 64 !in extractedUser then targetName else userDomain;
    Fields(Encoded(domain, unicode), Encoded(extractedUser, unicode), Encoded(workstation, unicode),
           if hasTargetInfo then [] else lmv2, ntlmv2)
  }

  /** The responses `lmv2` and `ntlmv2` are computed elsewhere. */
  method Phase3(unicode: bool, userDomain: Text, extractedUser: Text, workstation: Text, targetName: Text,
                hasTargetInfo: bool, lmv2: seq<byte>, ntlmv2: seq<byte>) returns (rc: seq<byte>)
    ensures rc == Message(Phase3Fields(unicode, userDomain, extractedUser, workstation, targetName,
                                       hasTargetInfo, lmv2, ntlmv2),
                          NEGOTIATE_NTLM + if unicode then NEGOTIATE_UNICODE else NEGOTIATE_OEM)
  {
    var flags := NEGOTIATE_NTLM + if unicode then NEGOTIATE_UNICODE else NEGOTIATE_OEM;
    var domainStr := userDomain;
    // for user@domain logins the domain is left empty
    if userDomain == [] && 64 !in extractedUser {
      domainStr := targetName;
    }
    var lmResponseBuf := if hasTargetInfo then [] else lmv2;
    rc := PutMessage(Fields(Encoded(domainStr, unicode), Encoded(extractedUser, unicode), Encoded(workstation, unicode),
                            lmResponseBuf, ntlmv2), flags);
  }

  method PutMessage(f: Fields, flags: nat) returns (rc: seq<byte>)
    ensures rc == Message(f, flags)
  {
    var offset: nat := HEADER_SIZE;
    var domain, user, work, lm, ntlm;
    domain, offset := EncodeField(offset, |f.domain|);
    user, offset := EncodeField(offset, |f.user|);
    work, offset := EncodeField(offset, |f.workstation|);
    lm, offset := EncodeField(offset, |f.lm|);
    ntlm, offset := EncodeField(offset, |f.ntlm|);
    LayoutOfFive(f.Sizes(), domain, user, work, lm, ntlm);
    rc := PutHeader(domain, user, work, lm, ntlm, flags);
    rc := PutFields(rc, f);
  }

  /** An empty domain or workstation is not written in the source, which makes no difference. */
  method PutFields(header: seq<byte>, f: Fields) returns (rc: seq<byte>)
    ensures rc == header + Join(f.All())
  {
    ghost var parts: seq<seq<byte>> := [];
    rc := header;
    rc, parts := Put(rc, f.domain, header, parts);
    rc, parts := Put(rc, f.user, header, parts);
    rc, parts := Put(rc, f.workstation, header, parts);
    rc, parts := Put(rc, f.lm, header, parts);
    rc, parts := Put(rc, f.ntlm, header, parts);
    assert parts == f.All();
  }

  method PutHeader(domain: Descriptor, user: Descriptor, work: Descriptor, lm: Descriptor, ntlm: Descriptor, flags: nat)
      returns (rc: seq<byte>)
    ensures rc == Join(HeaderParts([domain, user, work, lm, ntlm], flags))
  {
    ghost var parts: seq<seq<byte>> := [];
    rc := [];
    rc, parts := Put(rc, SIGNATURE, [], parts);
    rc, parts := Put(rc, Le32(3), [], parts);
    rc, parts := Put(rc, lm.Encode(), [], parts);
    rc, parts := Put(rc, ntlm.Encode(), [], parts);
    rc, parts := Put(rc, domain.Encode(), [], parts);
    rc, parts := Put(rc, user.Encode(), [], parts);
    rc, parts := Put(rc, work.Encode(), [], parts);
    rc, parts := Put(rc, Descriptor(0, 0, 0).Encode(), [], parts);
    rc, parts := Put(rc, Le32(flags), [], parts);
    assert parts == HeaderParts([domain, user, work, lm, ntlm], flags);
  }

  /** Writes to the stream, on which `parts` have been written behind `front`. */
  method Put(rc: seq<byte>, data: seq<byte>, ghost front: seq<byte>, ghost parts: seq<seq<byte>>)
      returns (r: seq<byte>, ghost next: seq<seq<byte>>)
    requires rc == front + Join(parts)
    ensures next == parts + [data] && r == front + Join(next)
  {
    JoinSnoc(parts, data);
    Associative(front, Join(parts), data);
    r, next := rc + data, parts + [data];
  }

  lemma LayoutOfFive(sizes: seq<nat>, a: Descriptor, b: Descriptor, c: Descriptor, d: Descriptor, e: Descriptor)
    requires |sizes| == 5
    requires a == Describe(HEADER_SIZE, sizes[0])
    requires b == Describe(a.offset + a.len, sizes[1])
    requires c == Describe(b.offset + b.len, sizes[2])
    requires d == Describe(c.offset + c.len, sizes[3])
    requires e == Describe(d.offset + d.len, sizes[4])
    ensures Layout(sizes, HEADER_SIZE) == [a, b, c, d, e]
  {
    assert sizes[3..][1..] == sizes[4..] && sizes[2..][1..] == sizes[3..] && sizes[1..][1..] == sizes[2..];
    assert Layout(sizes[4..], d.offset + d.len) == [e];
    assert Layout(sizes[3..], c.offset + c.len) == [d] + [e];
    assert Layout(sizes[2..], b.offset + b.len) == [c] + ([d] + [e]);
    assert Layout(sizes[1..], a.offset + a.len) == [b] + ([c] + ([d] + [e]));
  }
}
