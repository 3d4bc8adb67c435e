/** What decoding gives, in terms of the bytes of the wire and the texts of the keys alone. */
module MsgPackLaws {
  import opened Options
  import opened Utf8Text
  import opened MsgPackFormat
  import opened MsgPackParser
  import opened MsgPackRoundTrip
  import Decimal

  // ---- the names of fields ----

  /** The code units of `__proto__`. */
  const PROTO: Str := [0x5F, 0x5F, 0x70, 0x72, 0x6F, 0x74, 0x6F, 0x5F, 0x5F]

  /** The property name that a key is in JavaScript. */
  function KeyName(key: Message, platform: Platform): Str {
    match key
    case Nil => [0x6E, 0x75, 0x6C, 0x6C]
    case Boolean(flag) => if flag then [0x74, 0x72, 0x75, 0x65] else [0x66, 0x61, 0x6C, 0x73, 0x65]
    case FixInt(n) => Codes(Decimal.Text(n))
    case UInt(_, n) => Codes(Decimal.Text(n))
    case SInt(_, n) => Codes(Decimal.Text(n))
    case FloatBytes(payload) => platform.floatName(payload)
    case FixStr(text) => Utf16(text)
    case Str16(text) => if |Utf8(text)| > 64 && text[0] == 0xFEFF then Utf16(text[1..]) else Utf16(text)
    case _ => []
  }

  function Codes(s: string): Str
    requires forall i :: 0 <= i < |s| ==> s[i] < '\U{0080}'
  {
    seq(|s|, i requires 0 <= i < |s| => s[i] as int)
  }

  /** The name under which the value of a key is found: `__proto__` loses its last character. */
  function StoredName(key: Message, platform: Platform): Str {
    if KeyName(key, platform) == PROTO then PROTO[..8] else KeyName(key, platform)
  }

  lemma ProtoUnits()
    ensures Units("__proto__") == PROTO && Units("__proto_") == PROTO[..8]
  {}

  lemma LiteralUnits()
    ensures Units("null") == [0x6E, 0x75, 0x6C, 0x6C] && Units("true") == [0x74, 0x72, 0x75, 0x65]
    ensures Units("false") == [0x66, 0x61, 0x6C, 0x73, 0x65]
  {}

  lemma NumberUnits(n: int)
    ensures Units(Decimal.Text(n)) == Codes(Decimal.Text(n))
  {
    hide Decimal.Text;
  }

  lemma {:induction false} FieldHasStoredName(e: Entry, platform: Platform)
    requires EncodableEntry(e)
    ensures FieldOf(e, platform) == (StoredName(e.key, platform), Meaning(e.value, platform))
  {
    hide Decimal.Text, Units, Codes, Utf16, Utf8;
    ProtoUnits();
    LiteralUnits();
    match e.key
    case FixInt(n) => NumberUnits(n);
    case UInt(_, n) => NumberUnits(n);
    case SInt(_, n) => NumberUnits(n);
    case Str16(text) => StrippedText(text);
    case _ =>
  }

  lemma StrippedText(text: seq<Scalar>)
    ensures Str16Text(text) == if |Utf8(text)| > 64 && text[0] == 0xFEFF then Utf16(text[1..]) else Utf16(text)
  {}

  predicate IsMapOf(m: Message, entries: seq<Entry>) {
    m == FixMap(entries) || m == Map16(entries) || m == Map32(entries)
  }

  /** No later entry has the name of this one. */
  ghost predicate IsLast(entries: seq<Entry>, i: nat, platform: Platform)
    requires i < |entries|
  {
    forall j :: i < j < |entries| ==> StoredName(entries[j].key, platform) != StoredName(entries[i].key, platform)
  }

  /** A decoded map has exactly the stored names of its keys as fields, and under each the value of the last
    * entry with that name.
    */
  lemma MapFields(m: Message, entries: seq<Entry>, platform: Platform) returns (fields: map<Str, Value>)
    requires Encodable(m) && IsMapOf(m, entries)
    ensures ParseAll(Encode(m), platform) == Decoded(Object(fields))
    ensures forall name :: name in fields <==> exists i :: 0 <= i < |entries| && StoredName(entries[i].key, platform) == name
    ensures forall i :: 0 <= i < |entries| && IsLast(entries, i, platform) ==>
              && StoredName(entries[i].key, platform) in fields
              && fields[StoredName(entries[i].key, platform)] == Meaning(entries[i].value, platform)
  {
    hide FieldOf, FieldsOf, StoredName, Encode, ParseAll;
    RoundTrip(m, platform);
    fields := FieldsOf(entries, map[], platform);
    FieldsAreEntries(entries, map[], platform);
    forall i | 0 <= i < |entries|
      ensures FieldOf(entries[i], platform) == (StoredName(entries[i].key, platform), Meaning(entries[i].value, platform))
    {
      assert EncodableEntry(entries[i]);
      FieldHasStoredName(entries[i], platform);
    }
    forall i | 0 <= i < |entries| && IsLast(entries, i, platform)
      ensures !HasName(entries[i + 1..], FieldOf(entries[i], platform).0, platform)
    {
    }
    forall i | 0 <= i < |entries| ensures StoredName(entries[i].key, platform) in fields {
      assert HasName(entries, FieldOf(entries[i], platform).0, platform);
    }
    forall name ensures HasName(entries, name, platform) <==> exists i :: 0 <= i < |entries| && StoredName(entries[i].key, platform) == name {
    }
  }

  /** A map with short texts as keys, all different and none `__proto__`: its fields are exactly these texts,
    * each with the value of its entry.
    */
  lemma TextMapFields(m: Message, entries: seq<Entry>, platform: Platform) returns (fields: map<Str, Value>)
    requires Encodable(m) && IsMapOf(m, entries)
    requires forall i :: 0 <= i < |entries| ==> entries[i].key.FixStr? && Utf16(entries[i].key.text) != PROTO
    requires forall i, j :: 0 <= i < j < |entries| ==> entries[i].key.text != entries[j].key.text
    ensures ParseAll(Encode(m), platform) == Decoded(Object(fields))
    ensures forall name :: name in fields <==> exists i :: 0 <= i < |entries| && Utf16(entries[i].key.text) == name
    ensures forall i :: 0 <= i < |entries| ==>
              && Utf16(entries[i].key.text) in fields
              && fields[Utf16(entries[i].key.text)] == Meaning(entries[i].value, platform)
  {
    hide Utf16, Encode, ParseAll, Meaning, Utf8, Codes, Decimal.Text;
    fields := MapFields(m, entries, platform);
    forall i | 0 <= i < |entries| ensures StoredName(entries[i].key, platform) == Utf16(entries[i].key.text) {
    }
    forall i, j | 0 <= i < j < |entries| ensures Utf16(entries[j].key.text) != Utf16(entries[i].key.text) {
      if Utf16(entries[j].key.text) == Utf16(entries[i].key.text) {
        Utf16IsInjective(entries[i].key.text, entries[j].key.text);
      }
    }
  }

  /** The texts of a UTF-16 form: it determines the text. */
  lemma {:induction false} Utf16IsInjective(a: seq<Scalar>, b: seq<Scalar>)
    requires Utf16(a) == Utf16(b)
    ensures a == b
  {
    hide ScalarUnits;
    if a != [] && b != [] {
      UnitsOfFirst(a[0], Utf16(a[1..]), b[0], Utf16(b[1..]));
      Utf16IsInjective(a[1..], b[1..]);
      assert a == [a[0]] + a[1..] && b == [b[0]] + b[1..];
    } else if a != [] {
      SomeUnits(a[0]);
    } else if b != [] {
      SomeUnits(b[0]);
    }
  }

  lemma SomeUnits(s: Scalar)
    ensures ScalarUnits(s) != []
  {}

  lemma UnitsOfFirst(s: Scalar, rest: Str, t: Scalar, rest': Str)
    requires ScalarUnits(s) + rest == ScalarUnits(t) + rest'
    ensures s == t && rest == rest'
  {
    var all := ScalarUnits(s) + rest;
    assert all[0] == ScalarUnits(s)[0] == ScalarUnits(t)[0];
    assert s >= 0x1_0000 <==> 0xD800 <= all[0] < 0xDC00;
    assert t >= 0x1_0000 <==> 0xD800 <= all[0] < 0xDC00;
    if s >= 0x1_0000 {
      assert all[1] == ScalarUnits(s)[1] == ScalarUnits(t)[1];
    }
    assert |ScalarUnits(s)| == |ScalarUnits(t)|;
    assert rest == all[|ScalarUnits(s)|..] == rest';
  }

  // ---- the bytes of numbers ----

  /** The number of four bytes, the first one being the highest. */
  function Four(a: nat, b: nat, c: nat, d: nat): nat {
    0x100_0000 * a + 0x1_0000 * b + 0x100 * c + d
  }

  lemma TwoBytes(a: Byte, b: Byte)
    ensures FromBytes([a]) == a && FromBytes([a, b]) == 256 * a + b
  {
    assert [a][..0] == [] && [a, b][..1] == [a];
  }

  lemma FourBytes(a: Byte, b: Byte, c: Byte, d: Byte)
    ensures FromBytes([a, b, c, d]) == Four(a, b, c, d)
  {
    TwoBytes(a, b);
    assert [a, b, c][..2] == [a, b] && [a, b, c, d][..3] == [a, b, c];
  }

  lemma EightBytes(w: seq<Byte>)
    requires |w| == 8
    ensures FromBytes(w) == 0x1_0000_0000 * Four(w[0], w[1], w[2], w[3]) + Four(w[4], w[5], w[6], w[7])
  {
    FourBytes(w[0], w[1], w[2], w[3]);
    assert w[..8] == w && w[..4] == [w[0], w[1], w[2], w[3]];
    FromBytesSnoc(w, 4);
    FromBytesSnoc(w, 5);
    FromBytesSnoc(w, 6);
    FromBytesSnoc(w, 7);
  }

  lemma FromBytesSnoc(w: seq<Byte>, i: nat)
    requires i < |w|
    ensures FromBytes(w[..i + 1]) == FromBytes(w[..i]) * 256 + w[i]
  {
    assert w[..i + 1][..i] == w[..i];
  }

  lemma Powers()
    ensures Power(1) == 0x100 && Power(2) == 0x1_0000 && Power(4) == 0x1_0000_0000 && Power(8) == 0x1_0000_0000_0000_0000
  {
    assert Power(2) == 256 * Power(1) && Power(3) == 256 * Power(2) && Power(4) == 256 * Power(3);
    assert Power(5) == 256 * Power(4) && Power(6) == 256 * Power(5) && Power(7) == 256 * Power(6) && Power(8) == 256 * Power(7);
  }

  /** One byte: small numbers, the JSON constants, and the empty buffer. */
  lemma OneByteValues(t: Byte, platform: Platform)
    ensures t < 128 ==> ParseAll([t], platform) == Decoded(Number(t))
    ensures 224 <= t ==> ParseAll([t], platform) == Decoded(Number(t - 256))
    ensures ParseAll([0xC0], platform) == Decoded(Null)
    ensures ParseAll([0xC2], platform) == Decoded(Bool(false)) && ParseAll([0xC3], platform) == Decoded(Bool(true))
    ensures ParseAll([], platform) == Rejected(EndOfData) && ParseAll([0xCC], platform) == Rejected(EndOfData)
  {
    hide ParseEntries, ParseItems, LoopDecode, ReadText, ParseInteger;
  }

  /** The two's complement number whose unsigned value is `n` and whose highest byte is `top`. */
  function TwosComplement(n: nat, top: Byte, modulus: nat): int {
    if top < 128 then n else n - modulus
  }

  /** Unsigned integers are big-endian, and those of eight bytes are `BigInt`s. */
  lemma UnsignedOnTheWire(a: Byte, b: Byte, c: Byte, d: Byte, w: seq<Byte>, platform: Platform)
    requires |w| == 8
    ensures ParseAll([0xCC, a], platform) == Decoded(Number(a))
    ensures ParseAll([0xCD, a, b], platform) == Decoded(Number(256 * a + b))
    ensures ParseAll([0xCE, a, b, c, d], platform) == Decoded(Number(Four(a, b, c, d)))
    ensures ParseAll([0xCF] + w, platform)
         == Decoded(BigInt(0x1_0000_0000 * Four(w[0], w[1], w[2], w[3]) + Four(w[4], w[5], w[6], w[7])))
  {
    hide FromBytes;
    TwoBytes(a, b);
    FourBytes(a, b, c, d);
    EightBytes(w);
    IntegerOnTheWire(0xCD, [a, b], platform);
    IntegerOnTheWire(0xCE, [a, b, c, d], platform);
    IntegerOnTheWire(0xCF, w, platform);
    assert [0xCD] + [a, b] == [0xCD, a, b] && [0xCE] + [a, b, c, d] == [0xCE, a, b, c, d];
  }

  /** Signed integers are in two's complement. */
  lemma SignedOnTheWire(a: Byte, b: Byte, c: Byte, d: Byte, w: seq<Byte>, platform: Platform)
    requires |w| == 8
    ensures ParseAll([0xD0, a], platform) == Decoded(Number(TwosComplement(a, a, 0x100)))
    ensures ParseAll([0xD1, a, b], platform) == Decoded(Number(TwosComplement(256 * a + b, a, 0x1_0000)))
    ensures ParseAll([0xD2, a, b, c, d], platform)
         == Decoded(Number(TwosComplement(Four(a, b, c, d), a, 0x1_0000_0000)))
    ensures ParseAll([0xD3] + w, platform)
         == Decoded(BigInt(TwosComplement(0x1_0000_0000 * Four(w[0], w[1], w[2], w[3]) + Four(w[4], w[5], w[6], w[7]), w[0], 0x1_0000_0000_0000_0000)))
  {
    hide FromBytes, Power, ParseAll;
    Powers();
    TwoBytes(a, b);
    FourBytes(a, b, c, d);
    EightBytes(w);
    IntegerOnTheWire(0xD0, [a], platform);
    IntegerOnTheWire(0xD1, [a, b], platform);
    IntegerOnTheWire(0xD2, [a, b, c, d], platform);
    IntegerOnTheWire(0xD3, w, platform);
    assert [0xD1] + [a, b] == [0xD1, a, b] && [0xD2] + [a, b, c, d] == [0xD2, a, b, c, d] && [0xD0] + [a] == [0xD0, a];
  }

  lemma IntegerOnTheWire(tag: Byte, w: seq<Byte>, platform: Platform)
    requires |w| == match tag case 0xCD => 2 case 0xCE => 4 case 0xCF => 8 case 0xD0 => 1 case 0xD1 => 2 case 0xD2 => 4 case _ => 8
    requires 0xCD <= tag <= 0xD3
    ensures var n := if tag < 0xD0 then FromBytes(w) else Signed(FromBytes(w), |w|);
            ParseAll([tag] + w, platform) == Decoded(if tag == 0xCF || tag == 0xD3 then BigInt(n) else Number(n))
  {
    hide ParseEntries, ParseItems, LoopDecode, ReadText, FromBytes, Signed;
    var buf := [tag] + w;
    assert buf[0] == tag && buf[1..1 + |w|] == w;
  }

  // ---- texts ----

  /** Payloads of floats are kept, short and long texts are read as text. */
  lemma {:induction false} FloatsAndTexts(four: seq<Byte>, eight: seq<Byte>, text: seq<Scalar>, platform: Platform)
    requires |four| == 4 && |eight| == 8
    ensures ParseAll([0xCA] + four, platform) == Decoded(Float(four)) && ParseAll([0xCB] + eight, platform) == Decoded(Float(eight))
    ensures |Utf8(text)| < 32 ==> ParseAll([0xA0 + |Utf8(text)|] + Utf8(text), platform) == Decoded(Text(Utf16(text)))
    ensures |Utf8(text)| <= 64 ==> ParseAll([0xDA, 0, |Utf8(text)|] + Utf8(text), platform) == Decoded(Text(Utf16(text)))
  {
    hide Utf8, Utf16, ParseAll;
    RoundTrip(FloatBytes(four), platform);
    RoundTrip(FloatBytes(eight), platform);
    Powers();
    if |Utf8(text)| < 32 { RoundTrip(FixStr(text), platform); }
    if |Utf8(text)| <= 64 {
      RoundTrip(Str16(text), platform);
      SmallCount(|Utf8(text)|);
      assert [0xDA] + [0, |Utf8(text)|] + Utf8(text) == [0xDA, 0, |Utf8(text)|] + Utf8(text);
    }
  }

  lemma {:induction false} SmallCount(n: nat)
    requires n < 256
    ensures ToBytes(n, 2) == [0, n] && ToBytes(n, 4) == [0, 0, 0, n]
  {
    assert ToBytes(0, 0) == [] && ToBytes(0, 1) == [0] && ToBytes(0, 2) == [0, 0] && ToBytes(0, 3) == [0, 0, 0];
    assert ToBytes(n, 2) == ToBytes(0, 1) + [n] && ToBytes(n, 4) == ToBytes(0, 3) + [n];
  }

  // ---- messages are prefix-free ----

  /** Bytes after a message are an error. */
  lemma TrailingBytesAreRejected(m: Message, rest: seq<Byte>, platform: Platform)
    requires Encodable(m) && rest != []
    ensures ParseAll(Encode(m) + rest, platform) == Rejected(TrailingData)
  {
    hide ParseValue, Encode;
    var buf := Encode(m) + rest;
    assert buf[0..|Encode(m)|] == Encode(m);
    ParsesMessage(buf, 0, |Encode(m)|, m, platform);
  }
  /** The buffer that ends inside the form of a message at `pos`: nothing is read, or the cursor is past its end. */
  lemma {:induction false} CutMessage(buf: seq<Byte>, k: nat, pos: nat, end: nat, m: Message, platform: Platform)
    requires Encodable(m) && pos <= end <= |buf| && buf[pos..end] == Encode(m) && k < end
    ensures RunsShort(ParseValue(buf[..k], pos, platform), k)
    decreases m, 0
  {
    hide ParseValue, ToBytes, Utf8, Utf16, Unsigned, ParseEntries, ParseItems;
    var cut := buf[..k];
    if k <= pos {
    } else {
      match m
      case FixArray(items) =>
        TagOf(buf, pos, end, 144 + |items|, EncodeItems(items));
        ContainerTag(cut, pos, platform);
        CutItems(buf, k, pos + 1, end, items, [], platform);
      case FixMap(entries) =>
        TagOf(buf, pos, end, 128 + |entries|, EncodeEntries(entries));
        ContainerTag(cut, pos, platform);
        CutEntries(buf, k, pos + 1, end, entries, map[], platform);
      case Map16(entries) => CutCounted(buf, k, pos, end, 222, 2, entries, platform);
      case Map32(entries) => CutCounted(buf, k, pos, end, 223, 4, entries, platform);
      case _ => CutScalar(buf, k, pos, end, m, platform);
    }
  }

  predicate RunsShort(p: Parsed, size: nat) {
    p.Failed? || size < p.next
  }

  lemma CutScalar(buf: seq<Byte>, k: nat, pos: nat, end: nat, m: Message, platform: Platform)
    requires !m.FixArray? && !m.FixMap? && !m.Map16? && !m.Map32?
    requires Encodable(m) && pos < k < end <= |buf| && buf[pos..end] == Encode(m)
    ensures RunsShort(ParseValue(buf[..k], pos, platform), k)
  {
    hide ParseEntries, ParseItems, ToBytes, Utf8, Utf16, Unsigned, FromBytes;
    var t, n := Encode(m)[0], |Encode(m)|;
    assert buf[..k][pos] == buf[pos] == buf[pos..end][0] == t && end == pos + n;
    if m.Str16? { CutStr16(buf, k, pos, end, m.text, platform); }
  }

  lemma CutStr16(buf: seq<Byte>, k: nat, pos: nat, end: nat, text: seq<Scalar>, platform: Platform)
    requires Encodable(Str16(text)) && pos < k < end <= |buf| && buf[pos..end] == Encode(Str16(text))
    ensures RunsShort(ParseValue(buf[..k], pos, platform), k)
  {
    hide ParseEntries, ParseItems, ToBytes, Utf8, Utf16, Unsigned, LoopDecode, FromBytes;
    var cut, size := buf[..k], ToBytes(|Utf8(text)|, 2);
    assert Encode(Str16(text)) == [218] + (size + Utf8(text));
    TagOf(buf, pos, end, 218, size + Utf8(text));
    assert cut[pos] == 218;
    if pos + 3 <= k {
      SplitSlice(buf, pos + 1, end, size, Utf8(text));
      assert cut[pos + 1..pos + 3] == buf[pos + 1..pos + 3] == size;
      NumberInverts(cut, pos + 1, |Utf8(text)|, 2);
    }
  }

  lemma {:induction false} CutCounted(buf: seq<Byte>, k: nat, pos: nat, end: nat, tag: Byte, width: nat, entries: seq<Entry>, platform: Platform)
    requires (tag == 222 && width == 2) || (tag == 223 && width == 4)
    requires |entries| < Power(width) && forall i :: 0 <= i < |entries| ==> EncodableEntry(entries[i])
    requires pos < k < end <= |buf| && buf[pos..end] == [tag] + ToBytes(|entries|, width) + EncodeEntries(entries)
    ensures RunsShort(ParseValue(buf[..k], pos, platform), k)
    decreases entries, 2
  {
    hide ParseEntries, ParseItems, ToBytes, FromBytes, EncodeEntries, Power;
    var cut := buf[..k];
    CountedEntries(buf, pos, end, tag, width, |entries|, EncodeEntries(entries));
    assert cut[pos] == tag;
    if pos + 1 + width <= k {
      assert cut[pos + 1..pos + 1 + width] == buf[pos + 1..pos + 1 + width];
      CutEntries(buf, k, pos + 1 + width, end, entries, map[], platform);
    }
  }

  lemma {:induction false} ItemsPastTheEnd(buf: seq<Byte>, pos: nat, n: nat, items: seq<Value>, keys: Keys, platform: Platform)
    requires |buf| < pos
    ensures RunsShort(ParseItems(buf, pos, n, items, keys, platform), |buf|)
  {
  }

  lemma {:induction false} EntriesPastTheEnd(buf: seq<Byte>, pos: nat, n: nat, fields: map<Str, Value>, keys: Keys, platform: Platform)
    requires |buf| < pos
    ensures RunsShort(ParseEntries(buf, pos, n, fields, keys, platform), |buf|)
  {
  }

  lemma {:induction false} CutItems(buf: seq<Byte>, k: nat, pos: nat, end: nat, items: seq<Message>, before: seq<Value>, platform: Platform)
    requires forall i :: 0 <= i < |items| ==> Encodable(items[i])
    requires pos <= end <= |buf| && buf[pos..end] == EncodeItems(items) && k < end
    ensures RunsShort(ParseItems(buf[..k], pos, |items|, before, Intact, platform), k)
    decreases items, 0
  {
    hide ParseValue, Encode;
    if items != [] {
      var cut, mid := buf[..k], pos + |Encode(items[0])|;
      SplitSlice(buf, pos, end, Encode(items[0]), EncodeItems(items[1..]));
      if mid <= k {
        assert cut[pos..mid] == buf[pos..mid];
        ParsesMessage(cut, pos, mid, items[0], platform);
        CutItems(buf, k, mid, end, items[1..], before + [Meaning(items[0], platform)], platform);
      } else {
        CutMessage(buf, k, pos, mid, items[0], platform);
        var p := ParseValue(cut, pos, platform);
        if p.Parsed? { ItemsPastTheEnd(cut, p.next, |items| - 1, before + [p.value], Worse(Intact, p.keys), platform); }
      }
    }
  }

  lemma {:induction false} CutEntries(buf: seq<Byte>, k: nat, pos: nat, end: nat, entries: seq<Entry>, before: map<Str, Value>, platform: Platform)
    requires forall i :: 0 <= i < |entries| ==> EncodableEntry(entries[i])
    requires pos <= end <= |buf| && buf[pos..end] == EncodeEntries(entries) && k < end
    ensures RunsShort(ParseEntries(buf[..k], pos, |entries|, before, Intact, platform), k)
    decreases entries, 0
  {
    hide ParseValue, ParseKey, EncodeEntry, FieldOf;
    if entries != [] {
      var cut, mid := buf[..k], pos + |EncodeEntry(entries[0])|;
      SplitSlice(buf, pos, end, EncodeEntry(entries[0]), EncodeEntries(entries[1..]));
      if mid <= k {
        assert cut[pos..mid] == buf[pos..mid];
        var colon := ParsesEntry(cut, pos, mid, entries[0], platform);
        var (name, value) := FieldOf(entries[0], platform);
        CutEntries(buf, k, mid, end, entries[1..], before[name := value], platform);
      } else {
        CutEntry(buf, k, pos, mid, entries[0], |entries| - 1, before, platform);
      }
    }
  }

  /** The first entry is cut. */
  lemma {:induction false} CutEntry(buf: seq<Byte>, k: nat, pos: nat, end: nat, e: Entry, more: nat, before: map<Str, Value>, platform: Platform)
    requires EncodableEntry(e) && pos <= end <= |buf| && buf[pos..end] == EncodeEntry(e) && k < end
    ensures RunsShort(ParseEntries(buf[..k], pos, more + 1, before, Intact, platform), k)
    decreases e, 0
  {
    hide ParseValue, ParseKey, Encode, SafeName;
    var cut, colon := buf[..k], pos + |Encode(e.key)|;
    SplitSlice(buf, pos, end, Encode(e.key), Encode(e.value));
    if colon <= k {
      assert cut[pos..colon] == buf[pos..colon];
      ParsesMessage(cut, pos, colon, e.key, platform);
      ParsesKey(cut, pos, colon, e.key, platform);
      CutMessage(buf, k, colon, end, e.value, platform);
    } else {
      CutKey(buf, k, pos, colon, e.key, platform);
    }
    var key := ParseKey(cut, pos, platform);
    if key.Key? {
      var p := ParseValue(cut, key.next, platform);
      if p.Parsed? {
        EntriesPastTheEnd(cut, p.next, more, before[SafeName(key.name) := p.value], Worse(Worse(Intact, key.keys), p.keys), platform);
      }
    }
  }

  lemma {:induction false} CutKey(buf: seq<Byte>, k: nat, pos: nat, end: nat, key: Message, platform: Platform)
    requires Encodable(key) && pos <= end <= |buf| && buf[pos..end] == Encode(key) && k < end
    ensures var q := ParseKey(buf[..k], pos, platform); q.KeyFailed? || k < q.next
    decreases key, 1
  {
    hide ParseValue, ToBytes, Utf8, Utf16, LoopDecode, Unsigned, IntactKey;
    CutMessage(buf, k, pos, end, key, platform);
    if pos < k && key.FixStr? {
      TagOf(buf, pos, end, 160 + |Utf8(key.text)|, Utf8(key.text));
    } else if pos < k {
      assert buf[..k][pos] == buf[pos..end][0];
    }
  }

  /** No message is the beginning of another one: a message that was cut anywhere is rejected. */
  lemma CutMessagesAreRejected(m: Message, k: nat, platform: Platform)
    requires Encodable(m) && k < |Encode(m)|
    ensures ParseAll(Encode(m)[..k], platform).Rejected?
  {
    hide ParseValue, Encode;
    assert Encode(m)[0..|Encode(m)|] == Encode(m);
    CutMessage(Encode(m), k, 0, |Encode(m)|, m, platform);
  }
}
