/** What the receiver of an authenticate message finds in its fields, where these are in Unicode. */
module NtlmAnswer {
  import opened Bytes
  import opened NtlmMessage

  /** The characters of a field, read back from two bytes each. */
  function FromUtf16(s: seq<byte>): (t: seq<int>)
    ensures |t| == |s| / 2
  {
    seq(|s| / 2, i requires 0 <= i < |s| / 2 => Read16(s, 2 * i))
  }

  predicate Reads(s: seq<byte>, t: Text) {
    |s| == 2 * |t| && forall i :: 0 <= i < |t| ==> FromUtf16(s)[i] == t[i] as int
  }

  lemma Utf16IsRead(t: Text)
    ensures Reads(Utf16(t), t)
  {
    forall i | 0 <= i < |t|
      ensures FromUtf16(Utf16(t))[i] == t[i] as int
    {
      assert Utf16(t)[2 * i] == Le16(t[i] as int)[0] && Utf16(t)[2 * i + 1] == Le16(t[i] as int)[1];
    }
  }

  const AT_SIGN: nat := 64

  /**
   The user and the workstation are those of the login, and the domain is its own; where it has none, it is the target
   that the server named, unless the user brings one behind an at sign. The LM response is there if and only if the
   server sent no target information.
   */
  lemma ReceiverReads(userDomain: Text, user: Text, workstation: Text, target: Text, hasTargetInfo: bool,
                      lmv2: seq<byte>, ntlmv2: seq<byte>, flags: nat)
    requires |userDomain| < 32768 && |user| < 32768 && |workstation| < 32768 && |target| < 32768
    requires |lmv2| == 24 && |ntlmv2| < 65536
    ensures var f := Phase3Fields(true, userDomain, user, workstation, target, hasTargetInfo, lmv2, ntlmv2);
            var m := Message(f, flags);
            && |m| >= HEADER_SIZE && Reads(FieldAt(m, 36), user) && Reads(FieldAt(m, 44), workstation)
            && Reads(FieldAt(m, 28), if userDomain != [] then userDomain else if HasAt(user) then [] else target)
            && FieldAt(m, 12) == (if hasTargetInfo then [] else lmv2) && FieldAt(m, 20) == ntlmv2
  {
    var f := Phase3Fields(true, userDomain, user, workstation, target, hasTargetInfo, lmv2, ntlmv2);
    var domain := if userDomain != [] then userDomain else if HasAt(user) then [] else target;
    assert HasAt(user) <==> 64 in user;
    assert f.domain == Utf16(domain);
    UnicodeIsPackable(domain, user, workstation, f.lm, ntlmv2);
    FieldsReadBack(f, flags);
    Utf16IsRead(domain);
    Utf16IsRead(user);
    Utf16IsRead(workstation);
  }

  predicate HasAt(user: Text) { exists i :: 0 <= i < |user| && user[i] as int == AT_SIGN }
}
