/**
 QHttpAuthenticatorPrivate::parseDigestAuthenticationChallenge: the comma-separated key=value pairs of
 a digest challenge (section 3.2.1 of RFC 2617), where a value may be a quoted-string (section 2.2 of
 RFC 2616).
 */
module DigestChallenge {
  import opened Wrappers
  import opened Bytes

  type Text = seq<byte>

  const QUOTE: byte := 34
  const COMMA: byte := 44
  const EQUALS: byte := 61
  const BACKSLASH: byte := 92

  const QOP: Text := [113, 111, 112]
  const AUTH: Text := [97, 117, 116, 104]

  datatype Item = Item(key: Text, value: Text)

  predicate IsBlank(c: byte) { c == 32 || c == LF || c == CR }

  // ---- what the parser reads

  function SkipBlanks(s: Text): (r: Text)
    ensures |r| <= |s|
  {
    if s != [] && IsBlank(s[0]) then SkipBlanks(s[1..]) else s
  }

  /** How far it is to the first `c`, or to the end. */
  function UpTo(s: Text, c: byte): (n: nat)
    ensures n <= |s| && (n < |s| ==> s[n] == c)
  {
    if s == [] || s[0] == c then 0 else 1 + UpTo(s[1..], c)
  }

  lemma {:induction false} NoneUpTo(s: Text, c: byte)
    ensures c !in s[..UpTo(s, c)]
  {
    if s != [] && s[0] != c {
      NoneUpTo(s[1..], c);
      assert s[..UpTo(s, c)] == [s[0]] + s[1..][..UpTo(s[1..], c)];
    }
  }

  /** A value up to the quote, or the comma, that ends it. Behind a backslash any character is itself. */
  function ReadValue(s: Text, quote: bool): (r: (Text, Text))
    ensures |r.1| <= |s|
  {
    if s == [] then ([], [])
    else if s[0] == BACKSLASH && |s| > 1 then
      var (value, rest) := ReadValue(s[2..], quote);
      ([s[1]] + value, rest)
    else if s[0] == (if quote then QUOTE else COMMA) then ([], s)
    else
      var (value, rest) := ReadValue(s[1..], quote);
      ([s[0]] + value, rest)
  }

  function BehindComma(s: Text): (r: Text)
    ensures |r| <= |s|
  {
    var n := UpTo(s, COMMA);
    if n < |s| then s[n + 1..] else []
  }

  /** What stands behind the equals sign: the value, quoted or not, and where the next item starts. */
  function ReadAssigned(u: Text): (r: Option<(Text, Text)>)
    ensures r.Some? ==> |r.value.1| <= |u|
  {
    if u == [] then None
    else
      var quote := u[0] == QUOTE;
      var v := if quote then u[1..] else u;
      if v == [] then None
      else
        var (value, rest) := ReadValue(v, quote);
        Some((value, BehindComma(rest)))
  }

  /** One item; nothing when the text ends before a value starts. */
  function ReadItem(s: Text): (r: Option<(Item, Text)>)
    ensures r.Some? ==> |r.value.1| < |s|
  {
    var t := SkipBlanks(s);
    var n := UpTo(t, EQUALS);
    if n == |t| then None
    else
      match ReadAssigned(t[n + 1..])
      case None => None
      case Some((value, rest)) => Some((Item(t[..n], value), rest))
  }

  function ReadItems(s: Text): seq<Item>
    decreases |s|
  {
    match ReadItem(s)
    case None => []
    case Some((item, rest)) => [item] + ReadItems(rest)
  }

  /** Later items replace earlier ones with the same key. */
  function Collect(options: map<Text, Text>, items: seq<Item>): map<Text, Text>
    decreases |items|
  {
    if items == [] then options else Collect(options[items[0].key := items[0].value], items[1..])
  }

  function SplitAtCommas(s: Text): seq<Text>
    decreases |s|
  {
    var n := UpTo(s, COMMA);
    if n == |s| then [s] else [s[..n]] + SplitAtCommas(s[n + 1..])
  }

  /** Of the protections offered only "auth" is supported; without it there is no answer to the challenge. */
  function WithQop(options: map<Text, Text>): map<Text, Text> {
    if QOP !in options || options[QOP] == [] then options
    else if AUTH !in SplitAtCommas(options[QOP]) then map[]
    else options[QOP := AUTH]
  }

  function Parsed(challenge: Text): map<Text, Text> {
    WithQop(Collect(map[], ReadItems(challenge)))
  }

  // ---- the parser

  method SkipBlanksFrom(challenge: Text, start: nat) returns (d: nat)
    requires start <= |challenge|
    ensures start <= d <= |challenge| && challenge[d..] == SkipBlanks(challenge[start..])
  {
    d := start;
    while d < |challenge| && IsBlank(challenge[d])
      invariant start <= d <= |challenge| && SkipBlanks(challenge[d..]) == SkipBlanks(challenge[start..])
    {
      d := d + 1;
    }
  }

  method Find(challenge: Text, start: nat, c: byte) returns (d: nat)
    requires start <= |challenge|
    ensures d == start + UpTo(challenge[start..], c)
  {
    d := start;
    while d < |challenge| && challenge[d] != c
      invariant start <= d <= |challenge| && d + UpTo(challenge[d..], c) == start + UpTo(challenge[start..], c)
    {
      d := d + 1;
    }
  }

  /** The loop over the characters of one value. */
  method ScanValue(challenge: Text, start: nat, quote: bool) returns (value: Text, d: nat)
    requires start < |challenge|
    ensures start <= d <= |challenge|
    ensures (value, challenge[d..]) == ReadValue(challenge[start..], quote)
  {
    d := start;
    value := [];
    var end := |challenge|;
    ghost var all := ReadValue(challenge[start..], quote);
    assert [] + all.0 == all.0;
    while d < end
      invariant start <= d <= end
      invariant all.0 == value + ReadValue(challenge[d..], quote).0
      invariant all.1 == ReadValue(challenge[d..], quote).1
    {
      ghost var before := challenge[d..];
      var backslash := false;
      if challenge[d] == BACKSLASH && d < end - 1 {
        d := d + 1;
        backslash := true;
      }
      if !backslash && challenge[d] == (if quote then QUOTE else COMMA) {
        break;
      }
      assert ReadValue(before, quote).0 == [challenge[d]] + ReadValue(challenge[d + 1..], quote).0;
      Associative(value, [challenge[d]], ReadValue(challenge[d + 1..], quote).0);
      value := value + [challenge[d]];
      d := d + 1;
    }
    assert value + [] == value;
  }

  lemma AssignedIs(u: Text, v: Text, value: Text, rest: Text)
    requires u != [] && v == (if u[0] == QUOTE then u[1..] else u)
    requires v != [] ==> (value, rest) == ReadValue(v, u[0] == QUOTE)
    ensures ReadAssigned(u) == if v == [] then None else Some((value, BehindComma(rest)))
  {
  }

  lemma SuffixInTwo(s: Text, d: nat, n: nat)
    requires d + n <= |s|
    ensures s[d..][n..] == s[d + n..] && s[d..][..n] == s[d..d + n]
  {
  }

  lemma BehindCommaIs(s: Text, d: nat, e: nat)
    requires d <= |s| && e == d + UpTo(s[d..], COMMA)
    ensures BehindComma(s[d..]) == if e + 1 < |s| then s[e + 1..] else []
  {
    if e < |s| {
      SuffixInTwo(s, d, e + 1 - d);
    }
  }

  lemma ItemIs(s: Text, t: Text, key: Text, u: Text)
    requires t == SkipBlanks(s) && UpTo(t, EQUALS) < |t|
    requires key == t[..UpTo(t, EQUALS)] && u == t[UpTo(t, EQUALS) + 1..]
    ensures ReadItem(s) == ItemOf(key, u)
  {
  }

  lemma NoItem(s: Text, t: Text)
    requires t == SkipBlanks(s) && UpTo(t, EQUALS) + 1 >= |t|
    ensures ReadItem(s) == None
  {
    if UpTo(t, EQUALS) < |t| {
      assert t[UpTo(t, EQUALS) + 1..] == [];
    }
  }

  lemma ItemsIs(s: Text, item: Item, rest: Text)
    requires ReadItem(s) == Some((item, rest))
    ensures ReadItems(s) == [item] + ReadItems(rest)
  {
  }

  /** The value that starts at `start`. */
  method ScanAssigned(challenge: Text, start: nat) returns (none: bool, value: Text, d: nat)
    requires start < |challenge|
    ensures start <= d
    ensures ReadAssigned(challenge[start..])
            == if none then None else Some((value, if d < |challenge| then challenge[d..] else []))
  {
    var end := |challenge|;
    none, value, d := true, [], start;
    var quote := challenge[d] == QUOTE;
    if quote {
      d := d + 1;
    }
    ghost var (u, v) := (challenge[start..], challenge[d..]);
    SuffixInTwo(challenge, start, d - start);
    if d >= end {
      AssignedIs(u, v, [], []);
      return;
    }
    value, d := ScanValue(challenge, d, quote);
    AssignedIs(u, v, value, challenge[d..]);
    ghost var behind := d;
    d := Find(challenge, d, COMMA);
    BehindCommaIs(challenge, behind, d);
    d := d + 1;
    none := false;
  }

  /** What comes of an item with this key and this text behind the equals sign. */
  function ItemOf(key: Text, u: Text): Option<(Item, Text)> {
    match ReadAssigned(u)
    case None => None
    case Some((value, rest)) => Some((Item(key, value), rest))
  }

  /** The key of the item at `start`, and where its value starts. */
  method ScanKey(challenge: Text, start: nat) returns (none: bool, key: Text, d: nat)
    requires start < |challenge|
    ensures start < d && (none ==> ReadItem(challenge[start..]) == None)
    ensures !none ==> d < |challenge| && ReadItem(challenge[start..]) == ItemOf(key, challenge[d..])
  {
    d := SkipBlanksFrom(challenge, start);
    ghost var t := challenge[d..];
    var begin := d;
    d := Find(challenge, d, EQUALS);
    key := challenge[begin..d];
    d := d + 1;
    none := d >= |challenge|;
    if none {
      NoItem(challenge[start..], t);
    } else {
      SuffixInTwo(challenge, begin, d - begin - 1);
      SuffixInTwo(challenge, begin, d - begin);
      ItemIs(challenge[start..], t, key, challenge[d..]);
    }
  }

  /** One turn of the loop over the items. */
  method ScanItem(challenge: Text, start: nat) returns (none: bool, key: Text, value: Text, d: nat)
    requires start < |challenge|
    ensures start < d
    ensures ReadItem(challenge[start..])
            == if none then None else Some((Item(key, value), if d < |challenge| then challenge[d..] else []))
  {
    value := [];
    none, key, d := ScanKey(challenge, start);
    if !none {
      none, value, d := ScanAssigned(challenge, d);
    }
  }

  method ParseChallenge(challenge: Text) returns (options: map<Text, Text>)
    ensures options == Parsed(challenge)
  {
    options := map[];
    var d, end := 0, |challenge|;
    assert challenge[0..] == challenge;
    while d < end
      invariant Collect(map[], ReadItems(challenge))
                == Collect(options, ReadItems(if d < end then challenge[d..] else []))
      decreases end - d
    {
      ghost var items, was := ReadItems(challenge[d..]), options;
      var none, key, value;
      none, key, value, d := ScanItem(challenge, d);
      if none {
        assert items == [];
        break;
      }
      assert items[1..] == ReadItems(if d < end then challenge[d..] else []);
      options := options[key := value];
    }
    var qop := if QOP in options then options[QOP] else [];
    if qop != [] {
      if AUTH !in SplitAtCommas(qop) {
        return map[];
      }
      options := options[QOP := AUTH];
    }
  }

  // ---- challenges as servers write them

  predicate MustEscape(c: byte) { c == QUOTE || c == BACKSLASH }

  /** The contents of a quoted-string; a server may escape more than it must. */
  function Escaped(value: Text, also: set<byte>): Text {
    if value == [] then []
    else EscapedOne(value[0], also) + Escaped(value[1..], also)
  }

  /** An item as a server chooses to write it. */
  datatype Entry = Entry(item: Item, quoted: bool, also: set<byte>)

  function PrintValue(entry: Entry): Text {
    if entry.quoted then [QUOTE] + Escaped(entry.item.value, entry.also) + [QUOTE] else entry.item.value
  }

  function PrintEntry(entry: Entry): Text { entry.item.key + [EQUALS] + PrintValue(entry) }

  /** The entries one after the other, with a comma, and blanks if one likes, in between. */
  function Print(entries: seq<Entry>, gap: Text): Text {
    if entries == [] then []
    else PrintEntry(entries[0]) + if |entries| == 1 then [] else [COMMA] + (gap + Print(entries[1..], gap))
  }

  function ItemsOf(entries: seq<Entry>): (items: seq<Item>)
    ensures |items| == |entries| && forall i :: 0 <= i < |items| ==> items[i] == entries[i].item
  {
    seq(|entries|, i requires 0 <= i < |entries| => entries[i].item)
  }

  /** What may go without quotes; an empty value may not at the end, where nothing ends it. */
  predicate MayStandBare(value: Text, last: bool) {
    COMMA !in value && BACKSLASH !in value && if value == [] then !last else value[0] != QUOTE
  }

  predicate Quotable(entries: seq<Entry>) {
    forall i :: 0 <= i < |entries| ==>
      entries[i].quoted || MayStandBare(entries[i].item.value, i == |entries| - 1)
  }

  predicate CleanKey(key: Text) {
    EQUALS !in key && (key != [] ==> !IsBlank(key[0]))
  }

  predicate AllBlank(gap: Text) { forall i :: 0 <= i < |gap| ==> IsBlank(gap[i]) }

  predicate CleanKeys(items: seq<Item>) { forall i :: 0 <= i < |items| ==> CleanKey(items[i].key) }

  function KeysOf(items: seq<Item>): set<Text> { set i | 0 <= i < |items| :: items[i].key }

  /** A character as it is printed in quotes. */
  function EscapedOne(c: byte, also: set<byte>): Text { if MustEscape(c) || c in also then [BACKSLASH, c] else [c] }

  lemma ReadOne(c: byte, also: set<byte>, more: Text, value: Text, rest: Text)
    requires ReadValue(more, true) == (value, rest)
    ensures ReadValue(EscapedOne(c, also) + more, true) == ([c] + value, rest)
  {
    var s := EscapedOne(c, also) + more;
    if MustEscape(c) || c in also {
      assert s[0] == BACKSLASH && s[1] == c && s[2..] == more;
    } else {
      assert s[0] == c && s[1..] == more;
    }
  }

  lemma EscapedInTwo(one: Text, escaped: Text, rest: Text)
    ensures one + escaped + [QUOTE] + rest == one + (escaped + [QUOTE] + rest)
  {
    Associative(one, escaped, [QUOTE]);
    Associative(one, escaped + [QUOTE], rest);
  }

  lemma {:induction false} ReadEscaped(value: Text, also: set<byte>, rest: Text)
    ensures ReadValue(Escaped(value, also) + [QUOTE] + rest, true) == (value, [QUOTE] + rest)
  {
    if value == [] {
      assert [] + [QUOTE] + rest == [QUOTE] + rest;
    } else {
      var escaped := Escaped(value[1..], also);
      ReadEscaped(value[1..], also, rest);
      ReadOne(value[0], also, escaped + [QUOTE] + rest, value[1..], [QUOTE] + rest);
      EscapedInTwo(EscapedOne(value[0], also), escaped, rest);
      assert value == [value[0]] + value[1..];
    }
  }

  lemma {:induction false} UpToIs(a: Text, c: byte, rest: Text)
    requires c !in a && (rest == [] || rest[0] == c)
    ensures UpTo(a + rest, c) == |a|
  {
    if a == [] {
      assert a + rest == rest;
    } else {
      assert (a + rest)[1..] == a[1..] + rest;
      UpToIs(a[1..], c, rest);
    }
  }

  lemma {:induction false} SkipGap(gap: Text, rest: Text)
    requires AllBlank(gap) && (rest != [] ==> !IsBlank(rest[0]))
    ensures SkipBlanks(gap + rest) == rest
  {
    if gap == [] {
      assert gap + rest == rest;
    } else {
      assert (gap + rest)[1..] == gap[1..] + rest;
      SkipGap(gap[1..], rest);
    }
  }

  lemma {:induction false} ReadBare(value: Text, more: Text)
    requires COMMA !in value && BACKSLASH !in value && (more == [] || more[0] == COMMA)
    ensures ReadValue(value + more, false) == (value, more)
  {
    if value == [] {
      assert value + more == more;
    } else {
      assert (value + more)[0] == value[0] && (value + more)[1..] == value[1..] + more;
      ReadBare(value[1..], more);
      assert value == [value[0]] + value[1..];
    }
  }

  lemma ReadPrintedValue(entry: Entry, more: Text)
    requires entry.quoted || MayStandBare(entry.item.value, more == [])
    requires more == [] || more[0] == COMMA
    ensures ReadAssigned(PrintValue(entry) + more) == Some((entry.item.value, if more == [] then [] else more[1..]))
  {
    var value := entry.item.value;
    if entry.quoted {
      var v := Escaped(value, entry.also) + [QUOTE] + more;
      assert PrintValue(entry) + more == [QUOTE] + v && ([QUOTE] + v)[1..] == v;
      ReadEscaped(value, entry.also, more);
      UpToIs([QUOTE], COMMA, more);
    } else {
      ReadBare(value, more);
      assert value != [] ==> (value + more)[0] == value[0];
      assert [] + more == more;
      UpToIs([], COMMA, more);
    }
  }

  lemma PrintedEntrySplits(key: Text, value: Text, more: Text)
    ensures var t := key + ([EQUALS] + (value + more));
            key + [EQUALS] + value + more == t && t[..|key|] == key && t[|key| + 1..] == value + more
  {
  }

  /** A printed item with a clean key, and blanks in front, is read back; what follows is read next. */
  lemma ReadPrintedItem(gap: Text, entry: Entry, more: Text)
    requires AllBlank(gap) && CleanKey(entry.item.key)
    requires entry.quoted || MayStandBare(entry.item.value, more == [])
    requires more == [] || more[0] == COMMA
    ensures ReadItem(gap + PrintEntry(entry) + more) == Some((entry.item, if more == [] then [] else more[1..]))
  {
    var key := entry.item.key;
    var v := PrintValue(entry) + more;
    var t := key + ([EQUALS] + v);
    PrintedEntrySplits(key, PrintValue(entry), more);
    Associative(gap, PrintEntry(entry), more);
    SkipGap(gap, t);
    UpToIs(key, EQUALS, [EQUALS] + v);
    ReadPrintedValue(entry, more);
    ItemIs(gap + PrintEntry(entry) + more, t, key, v);
  }

  lemma RestIsPrintable(entries: seq<Entry>)
    requires entries != [] && CleanKeys(ItemsOf(entries)) && Quotable(entries)
    ensures ItemsOf(entries) == [entries[0].item] + ItemsOf(entries[1..])
    ensures CleanKeys(ItemsOf(entries[1..])) && Quotable(entries[1..])
  {
    var rest := entries[1..];
    forall i | 0 <= i < |rest|
      ensures CleanKey(ItemsOf(rest)[i].key)
      ensures rest[i].quoted || MayStandBare(rest[i].item.value, i == |rest| - 1)
    {
      assert rest[i] == entries[i + 1] && ItemsOf(entries)[i + 1] == ItemsOf(rest)[i];
    }
  }

  lemma {:induction false} ReadPrinted(entries: seq<Entry>, gap: Text, front: Text)
    requires AllBlank(gap) && AllBlank(front)
    requires CleanKeys(ItemsOf(entries)) && Quotable(entries)
    ensures ReadItems(front + Print(entries, gap)) == ItemsOf(entries)
  {
    if entries == [] {
      SkipGap(front, []);
    } else {
      var (first, rest) := (entries[0], entries[1..]);
      var next := gap + Print(rest, gap);
      var more := if rest == [] then [] else [COMMA] + next;
      Associative(front, PrintEntry(first), more);
      assert first.item == ItemsOf(entries)[0];
      ReadPrintedItem(front, first, more);
      ItemsIs(front + PrintEntry(first) + more, first.item, if more == [] then [] else more[1..]);
      RestIsPrintable(entries);
      if rest == [] {
        assert ReadItems([]) == [] && ItemsOf(rest) == [];
      } else {
        assert more[1..] == next;
        ReadPrinted(rest, gap, gap);
      }
    }
  }

  /** Whatever the text: a key that is read has no equals sign and no blank in front. */
  lemma {:induction false} ReadKeysAreClean(s: Text)
    ensures CleanKeys(ReadItems(s))
    decreases |s|
  {
    match ReadItem(s)
    case None =>
    case Some((item, rest)) =>
      SkippedIsNotBlank(s);
      NoneUpTo(SkipBlanks(s), EQUALS);
      ReadKeysAreClean(rest);
  }

  lemma {:induction false} SkippedIsNotBlank(s: Text)
    ensures SkipBlanks(s) != [] ==> !IsBlank(SkipBlanks(s)[0])
  {
    if s != [] && IsBlank(s[0]) {
      SkippedIsNotBlank(s[1..]);
    }
  }

  lemma KeysOfMore(items: seq<Item>)
    requires items != []
    ensures KeysOf(items) == {items[0].key} + KeysOf(items[1..])
  {
    assert forall i :: 0 < i < |items| ==> items[i] == items[1..][i - 1];
  }

  lemma {:induction false} CollectKeys(options: map<Text, Text>, items: seq<Item>)
    ensures Collect(options, items).Keys == options.Keys + KeysOf(items)
    decreases |items|
  {
    if items != [] {
      CollectKeys(options[items[0].key := items[0].value], items[1..]);
      KeysOfMore(items);
    }
  }

  /**
   A printed challenge is read back as the same options, with the choice of a protection applied, if its keys are
   clean, whichever of the values that may stand without quotes do so.
   */
  lemma RoundTrip(entries: seq<Entry>, gap: Text)
    requires AllBlank(gap) && Quotable(entries)
    requires CleanKeys(ItemsOf(entries))
    ensures Parsed(Print(entries, gap)) == WithQop(Collect(map[], ItemsOf(entries)))
  {
    ReadPrinted(entries, gap, []);
    assert [] + Print(entries, gap) == Print(entries, gap);
  }

  /** The protections that a server offers, as it writes them. */
  function Offer(parts: seq<Text>): Text {
    if parts == [] then [] else parts[0] + if |parts| == 1 then [] else [COMMA] + Offer(parts[1..])
  }

  lemma {:induction false} OfferSplits(parts: seq<Text>)
    requires parts != [] && forall i :: 0 <= i < |parts| ==> COMMA !in parts[i]
    ensures SplitAtCommas(Offer(parts)) == parts
  {
    var rest := if |parts| == 1 then [] else [COMMA] + Offer(parts[1..]);
    UpToIs(parts[0], COMMA, rest);
    if |parts| == 1 {
      assert parts[0] + rest == parts[0] && parts == [parts[0]];
    } else {
      var s := parts[0] + rest;
      assert s[..|parts[0]|] == parts[0] && s[|parts[0]| + 1..] == Offer(parts[1..]);
      OfferSplits(parts[1..]);
      assert parts == [parts[0]] + parts[1..];
    }
  }

  /** Of what is offered "auth" is chosen, in whatever place it stands; where it is not there, no options are left. */
  lemma AuthIsChosen(options: map<Text, Text>, parts: seq<Text>)
    requires parts != [] && forall i :: 0 <= i < |parts| ==> COMMA !in parts[i]
    requires QOP in options && options[QOP] == Offer(parts) != []
    ensures WithQop(options) == if AUTH in parts then options[QOP := AUTH] else map[]
  {
    OfferSplits(parts);
  }

  /** No protections are offered, or "auth" alone. */
  predicate OffersAuthOnly(options: map<Text, Text>) {
    QOP !in options || options[QOP] == [] || options[QOP] == AUTH
  }

  lemma QopKept(options: map<Text, Text>)
    ensures WithQop(options) == options <==> OffersAuthOnly(options)
  {
    assert UpTo(AUTH, COMMA) == 4 && SplitAtCommas(AUTH) == [AUTH] by {
      UpToIs(AUTH, COMMA, []);
      assert AUTH + [] == AUTH;
    }
    assert AUTH in SplitAtCommas(AUTH);
    if QOP in options && options[QOP] == AUTH {
      assert options[QOP := AUTH] == options;
    }
  }

  /** The same options come back exactly when their keys are clean and no more than "auth" is offered. */
  lemma RoundTripExactly(entries: seq<Entry>, gap: Text)
    requires AllBlank(gap) && Quotable(entries)
    ensures Parsed(Print(entries, gap)) == Collect(map[], ItemsOf(entries))
            <==> CleanKeys(ItemsOf(entries)) && OffersAuthOnly(Collect(map[], ItemsOf(entries)))
  {
    var items := ItemsOf(entries);
    var options := Collect(map[], items);
    if CleanKeys(items) {
      RoundTrip(entries, gap);
      QopKept(options);
    } else {
      var i :| 0 <= i < |items| && !CleanKey(items[i].key);
      var read := ReadItems(Print(entries, gap));
      CollectKeys(map[], items);
      CollectKeys(map[], read);
      ReadKeysAreClean(Print(entries, gap));
      assert items[i].key in options && items[i].key !in Collect(map[], read);
      assert CleanKey(QOP);
    }
  }
}
