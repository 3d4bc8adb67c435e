/** Plain decoding inverts the encoder on every encodable message. */
module MsgPackRoundTrip {
  import opened Options
  import opened Utf8Text
  import opened MsgPackFormat
  import opened MsgPackParser

  lemma ParsesUtf8(buf: seq<Byte>, pos: nat, end: nat, text: seq<Scalar>, platform: Platform)
    requires pos <= end <= |buf| && buf[pos..end] == Utf8(text)
    ensures LoopDecode(buf, pos, end) == (Utf16(text), end)
    ensures ReadText(buf, pos, end - pos, platform) == (Str16Text(text), end)
    ensures IntactKey(buf, pos, end - pos)
  {
    LoopDecodesUtf8(buf, pos, end, text);
    FromUtf8Inverts(text);
    assert SliceOf(buf, pos, end - pos) == Utf8(text);
  }

  lemma {:induction false} NumberInverts(buf: seq<Byte>, pos: nat, n: nat, k: nat)
    requires n < Power(k) && pos + k <= |buf| && buf[pos..pos + k] == ToBytes(n, k)
    ensures NumberAt(buf, pos, k) == Some(n)
  {
    FromToBytes(n, k);
  }

  lemma TagOf(buf: seq<Byte>, pos: nat, end: nat, tag: Byte, rest: seq<Byte>)
    requires pos <= end <= |buf| && buf[pos..end] == [tag] + rest
    ensures pos < end && buf[pos] == tag && buf[pos + 1..end] == rest && end == pos + 1 + |rest|
  {
    SplitSlice(buf, pos, end, [tag], rest);
    assert buf[pos..pos + 1][0] == buf[pos];
  }

  lemma {:induction false} ParsesMessage(buf: seq<Byte>, pos: nat, end: nat, m: Message, platform: Platform)
    requires Encodable(m) && pos <= end <= |buf| && buf[pos..end] == Encode(m)
    ensures ParseValue(buf, pos, platform) == Parsed(Meaning(m, platform), end, Intact)
    decreases m, 0
  {
    hide ParseValue, ToBytes, Utf8, Utf16, Unsigned;
    match m
    case FixArray(items) =>
      TagOf(buf, pos, end, 144 + |items|, EncodeItems(items));
      ContainerTag(buf, pos, platform);
      ParsesItems(buf, pos + 1, end, items, [], platform);
      assert [] + Meanings(items, platform) == Meanings(items, platform);
    case FixMap(entries) =>
      TagOf(buf, pos, end, 128 + |entries|, EncodeEntries(entries));
      ContainerTag(buf, pos, platform);
      ParsesEntries(buf, pos + 1, end, entries, map[], platform);
    case Map16(entries) =>
      CountedEntries(buf, pos, end, 222, 2, |entries|, EncodeEntries(entries));
      ContainerTag(buf, pos, platform);
      ParsesEntries(buf, pos + 3, end, entries, map[], platform);
    case Map32(entries) =>
      CountedEntries(buf, pos, end, 223, 4, |entries|, EncodeEntries(entries));
      ContainerTag(buf, pos, platform);
      ParsesEntries(buf, pos + 5, end, entries, map[], platform);
    case _ => ParsesScalar(buf, pos, end, m, platform);
  }

  /** What the tag of an array or a map leads to. */
  lemma ContainerTag(buf: seq<Byte>, pos: nat, platform: Platform)
    requires pos < |buf|
    ensures 128 <= buf[pos] < 144 ==>
              ParseValue(buf, pos, platform) == ParseEntries(buf, pos + 1, buf[pos] - 128, map[], Intact, platform)
    ensures 144 <= buf[pos] < 160 ==>
              ParseValue(buf, pos, platform) == ParseItems(buf, pos + 1, buf[pos] - 144, [], Intact, platform)
    ensures buf[pos] == 222 && NumberAt(buf, pos + 1, 2).Some? ==>
              ParseValue(buf, pos, platform)
              == ParseEntries(buf, pos + 3, NumberAt(buf, pos + 1, 2).value, map[], Intact, platform)
    ensures buf[pos] == 223 && NumberAt(buf, pos + 1, 4).Some? ==>
              ParseValue(buf, pos, platform)
              == ParseEntries(buf, pos + 5, NumberAt(buf, pos + 1, 4).value, map[], Intact, platform)
  {
    hide ParseEntries, ParseItems, LoopDecode, ParseInteger, ReadText, NumberAt;
  }

  lemma CountedEntries(buf: seq<Byte>, pos: nat, end: nat, tag: Byte, k: nat, count: nat, entries: seq<Byte>)
    requires count < Power(k)
    requires pos <= end <= |buf| && buf[pos..end] == [tag] + ToBytes(count, k) + entries
    ensures pos + 1 + k <= end && buf[pos] == tag && NumberAt(buf, pos + 1, k) == Some(count)
    ensures buf[pos + 1 + k..end] == entries
  {
    assert [tag] + ToBytes(count, k) + entries == [tag] + (ToBytes(count, k) + entries);
    TagOf(buf, pos, end, tag, ToBytes(count, k) + entries);
    SplitSlice(buf, pos + 1, end, ToBytes(count, k), entries);
    NumberInverts(buf, pos + 1, count, k);
  }

  lemma {:induction false} ParsesScalar(buf: seq<Byte>, pos: nat, end: nat, m: Message, platform: Platform)
    requires !m.FixArray? && !m.FixMap? && !m.Map16? && !m.Map32?
    requires Encodable(m) && pos <= end <= |buf| && buf[pos..end] == Encode(m)
    ensures ParseValue(buf, pos, platform) == Parsed(Meaning(m, platform), end, Intact)
  {
    hide ParseValue, Encode, Meaning;
    match m
    case Nil => ParsesByte(buf, pos, end, m, platform);
    case Boolean(_) => ParsesByte(buf, pos, end, m, platform);
    case FixInt(_) => ParsesByte(buf, pos, end, m, platform);
    case UInt(width, n) => ParsesUInt(buf, pos, end, m, platform);
    case SInt(width, n) => ParsesSInt(buf, pos, end, m, platform);
    case FloatBytes(payload) => ParsesFloat(buf, pos, end, m, platform);
    case FixStr(text) => ParsesFixStr(buf, pos, end, m, platform);
    case Str16(text) => ParsesStr16(buf, pos, end, m, platform);
  }

  lemma ParsesByte(buf: seq<Byte>, pos: nat, end: nat, m: Message, platform: Platform)
    requires m.Nil? || m.Boolean? || m.FixInt?
    requires Encodable(m) && pos <= end <= |buf| && buf[pos..end] == Encode(m)
    ensures ParseValue(buf, pos, platform) == Parsed(Meaning(m, platform), end, Intact)
  {
    hide ParseEntries, ParseItems, LoopDecode, ParseInteger, ReadText;
    TagOf(buf, pos, end, Encode(m)[0], []);
  }

  lemma ParsesFloat(buf: seq<Byte>, pos: nat, end: nat, m: Message, platform: Platform)
    requires m.FloatBytes? && Encodable(m) && pos <= end <= |buf| && buf[pos..end] == Encode(m)
    ensures ParseValue(buf, pos, platform) == Parsed(Meaning(m, platform), end, Intact)
  {
    hide ParseEntries, ParseItems, LoopDecode, ParseInteger, ReadText;
    TagOf(buf, pos, end, if |m.payload| == 4 then 202 else 203, m.payload);
  }

  lemma ParsesFixStr(buf: seq<Byte>, pos: nat, end: nat, m: Message, platform: Platform)
    requires m.FixStr? && Encodable(m) && pos <= end <= |buf| && buf[pos..end] == Encode(m)
    ensures ParseValue(buf, pos, platform) == Parsed(Meaning(m, platform), end, Intact)
  {
    hide ParseEntries, ParseItems, LoopDecode, ParseInteger, ReadText, Utf8, Utf16;
    TagOf(buf, pos, end, 160 + |Utf8(m.text)|, Utf8(m.text));
    ParsesUtf8(buf, pos + 1, end, m.text, platform);
  }

  lemma ParsesStr16(buf: seq<Byte>, pos: nat, end: nat, m: Message, platform: Platform)
    requires m.Str16? && Encodable(m) && pos <= end <= |buf| && buf[pos..end] == Encode(m)
    ensures ParseValue(buf, pos, platform) == Parsed(Meaning(m, platform), end, Intact)
  {
    hide ParseEntries, ParseItems, LoopDecode, ParseInteger, ReadText, Utf8, Utf16, ToBytes;
    var size := ToBytes(|Utf8(m.text)|, 2);
    assert Encode(m) == [218] + (size + Utf8(m.text));
    TagOf(buf, pos, end, 218, size + Utf8(m.text));
    SplitSlice(buf, pos + 1, end, size, Utf8(m.text));
    NumberInverts(buf, pos + 1, |Utf8(m.text)|, 2);
    ParsesUtf8(buf, pos + 3, end, m.text, platform);
  }

  lemma ParsesSInt(buf: seq<Byte>, pos: nat, end: nat, m: Message, platform: Platform)
    requires m.SInt? && Encodable(m) && pos <= end <= |buf| && buf[pos..end] == Encode(m)
    ensures ParseValue(buf, pos, platform) == Parsed(Meaning(m, platform), end, Intact)
  {
    hide ParseEntries, ParseItems, LoopDecode, ReadText, NumberAt, ToBytes;
    var payload := ToBytes(Unsigned(m.n, m.width), m.width);
    TagOf(buf, pos, end, WidthTag(208, m.width), payload);
    NumberInverts(buf, pos + 1, Unsigned(m.n, m.width), m.width);
  }

  /** One-byte unsigned integers are read as a plain byte, the wider ones through `DataView`. */
  lemma ParsesUInt(buf: seq<Byte>, pos: nat, end: nat, m: Message, platform: Platform)
    requires m.UInt? && Encodable(m) && pos <= end <= |buf| && buf[pos..end] == Encode(m)
    ensures ParseValue(buf, pos, platform) == Parsed(Meaning(m, platform), end, Intact)
  {
    hide ParseEntries, ParseItems, LoopDecode, ReadText, NumberAt, ToBytes;
    TagOf(buf, pos, end, WidthTag(204, m.width), ToBytes(m.n, m.width));
    NumberInverts(buf, pos + 1, m.n, m.width);
    if m.width == 1 { OneByteNumber(buf, pos + 1); }
  }

  lemma OneByteNumber(buf: seq<Byte>, pos: nat)
    requires pos < |buf|
    ensures NumberAt(buf, pos, 1) == Some(buf[pos] as nat)
  {
    assert buf[pos..pos + 1] == [buf[pos]];
    assert FromBytes([buf[pos]]) == FromBytes([]) * 256 + buf[pos];
  }

  lemma {:induction false} ParsesItems(buf: seq<Byte>, pos: nat, end: nat, items: seq<Message>, before: seq<Value>, platform: Platform)
    requires forall i :: 0 <= i < |items| ==> Encodable(items[i])
    requires pos <= end <= |buf| && buf[pos..end] == EncodeItems(items)
    ensures ParseItems(buf, pos, |items|, before, Intact, platform)
         == Parsed(Array(before + Meanings(items, platform)), end, Intact)
    decreases items, 0
  {
    if items == [] {
      assert before + [] == before;
    } else {
      var mid := pos + |Encode(items[0])|;
      SplitSlice(buf, pos, end, Encode(items[0]), EncodeItems(items[1..]));
      ParsesMessage(buf, pos, mid, items[0], platform);
      var v := Meaning(items[0], platform);
      ParsesItems(buf, mid, end, items[1..], before + [v], platform);
      assert before + [v] + Meanings(items[1..], platform) == before + Meanings(items, platform);
    }
  }

  lemma {:induction false} ParsesEntries(buf: seq<Byte>, pos: nat, end: nat, entries: seq<Entry>, before: map<Str, Value>, platform: Platform)
    requires forall i :: 0 <= i < |entries| ==> EncodableEntry(entries[i])
    requires pos <= end <= |buf| && buf[pos..end] == EncodeEntries(entries)
    ensures ParseEntries(buf, pos, |entries|, before, Intact, platform)
         == Parsed(Object(FieldsOf(entries, before, platform)), end, Intact)
    decreases entries, 0
  {
    if entries != [] {
      var mid := pos + |EncodeEntry(entries[0])|;
      SplitSlice(buf, pos, end, EncodeEntry(entries[0]), EncodeEntries(entries[1..]));
      var colon := ParsesEntry(buf, pos, mid, entries[0], platform);
      var (name, value) := FieldOf(entries[0], platform);
      ParsesEntries(buf, mid, end, entries[1..], before[name := value], platform);
    }
  }

  lemma {:induction false} ParsesEntry(buf: seq<Byte>, pos: nat, end: nat, e: Entry, platform: Platform) returns (colon: nat)
    requires EncodableEntry(e) && pos <= end <= |buf| && buf[pos..end] == EncodeEntry(e)
    ensures var key := ParseKey(buf, pos, platform);
            key.Key? && key.next == colon && key.keys.Intact? && SafeName(key.name) == FieldOf(e, platform).0
    ensures ParseValue(buf, colon, platform) == Parsed(FieldOf(e, platform).1, end, Intact)
    decreases e, 0
  {
    hide ParseValue, ParseKey, Encode, Meaning;
    colon := pos + |Encode(e.key)|;
    SplitSlice(buf, pos, end, Encode(e.key), Encode(e.value));
    ParsesMessage(buf, pos, colon, e.key, platform);
    ParsesMessage(buf, colon, end, e.value, platform);
    ParsesKey(buf, pos, colon, e.key, platform);
  }

  /** A message that has a property name and is read as a value is also read as a key. */
  lemma ParsesKey(buf: seq<Byte>, pos: nat, end: nat, key: Message, platform: Platform)
    requires Encodable(key) && !key.FixArray? && !key.FixMap? && !key.Map16? && !key.Map32?
    requires pos <= end <= |buf| && buf[pos..end] == Encode(key)
    requires ParseValue(buf, pos, platform) == Parsed(Meaning(key, platform), end, Intact)
    ensures PropertyName(Meaning(key, platform), platform).Some?
    ensures ParseKey(buf, pos, platform) == Key(PropertyName(Meaning(key, platform), platform).value, end, Intact)
  {
    hide ParseValue, ToBytes, Utf8, Utf16, LoopDecode, Unsigned, IntactKey;
    assert buf[pos] == buf[pos..end][0] == Encode(key)[0];
    if key.FixStr? {
      TagOf(buf, pos, end, 160 + |Utf8(key.text)|, Utf8(key.text));
      ParsesUtf8(buf, pos + 1, end, key.text, platform);
    } else {
    }
  }

  /** Decoding the encoding of any message gives its meaning and leaves the cursor exactly at the end. */
  lemma RoundTrip(m: Message, platform: Platform)
    requires Encodable(m)
    ensures ParseValue(Encode(m), 0, platform) == Parsed(Meaning(m, platform), |Encode(m)|, Intact)
    ensures ParseAll(Encode(m), platform) == Decoded(Meaning(m, platform))
  {
    assert Encode(m)[0..|Encode(m)|] == Encode(m);
    ParsesMessage(Encode(m), 0, |Encode(m)|, m, platform);
  }

  ghost predicate HasName(entries: seq<Entry>, name: Str, platform: Platform) {
    exists i :: 0 <= i < |entries| && FieldOf(entries[i], platform).0 == name
  }

  /** The fields: the entries' names and what was there before, with the last entry of a name winning. */
  lemma {:induction false} FieldsAreEntries(entries: seq<Entry>, before: map<Str, Value>, platform: Platform)
    ensures var fields := FieldsOf(entries, before, platform);
            && (forall name :: name in fields <==> name in before || HasName(entries, name, platform))
            && (forall name :: name in before && !HasName(entries, name, platform) ==> fields[name] == before[name])
            && forall i :: 0 <= i < |entries| && !HasName(entries[i + 1..], FieldOf(entries[i], platform).0, platform) ==>
                 fields[FieldOf(entries[i], platform).0] == FieldOf(entries[i], platform).1
  {
    hide FieldOf;
    if entries != [] {
      var (n, v) := FieldOf(entries[0], platform);
      var rest := entries[1..];
      FieldsAreEntries(rest, before[n := v], platform);
      assert FieldsOf(entries, before, platform) == FieldsOf(rest, before[n := v], platform);
      forall name ensures HasName(entries, name, platform) <==> name == n || HasName(rest, name, platform) {
      }
      forall i | 0 < i < |entries| ensures entries[i] == rest[i - 1] && entries[i + 1..] == rest[i - 1 + 1..] {
      }
    }
  }

  ghost predicate DistinctNames(entries: seq<Entry>, platform: Platform) {
    forall i, j :: 0 <= i < j < |entries| ==> FieldOf(entries[i], platform).0 != FieldOf(entries[j], platform).0
  }

  /** A map whose names are distinct decodes to exactly its entries. */
  lemma DistinctFields(entries: seq<Entry>, platform: Platform)
    requires DistinctNames(entries, platform)
    ensures var fields := FieldsOf(entries, map[], platform);
            && |fields| == |entries|
            && forall i :: 0 <= i < |entries| ==>
                 var (name, value) := FieldOf(entries[i], platform);
                 name in fields && fields[name] == value
  {
    hide FieldOf;
    var fields := FieldsOf(entries, map[], platform);
    FieldsAreEntries(entries, map[], platform);
    forall i | 0 <= i < |entries| ensures !HasName(entries[i + 1..], FieldOf(entries[i], platform).0, platform) {
    }
    forall i | 0 <= i < |entries|
      ensures FieldOf(entries[i], platform).0 in fields
           && fields[FieldOf(entries[i], platform).0] == FieldOf(entries[i], platform).1
    {
      assert HasName(entries, FieldOf(entries[i], platform).0, platform);
    }
    DistinctCount(entries, platform);
  }

  /** Distinct names are as many as the entries. */
  lemma {:induction false} DistinctCount(entries: seq<Entry>, platform: Platform)
    requires DistinctNames(entries, platform)
    ensures |FieldsOf(entries, map[], platform)| == |entries|
  {
    hide FieldOf, FieldsOf;
    var names := seq(|entries|, i requires 0 <= i < |entries| => FieldOf(entries[i], platform).0);
    FieldsAreEntries(entries, map[], platform);
    forall name ensures name in names <==> HasName(entries, name, platform) {
      if HasName(entries, name, platform) {
        var i :| 0 <= i < |entries| && FieldOf(entries[i], platform).0 == name;
        assert names[i] == name;
      }
    }
    assert FieldsOf(entries, map[], platform).Keys == set name | name in names;
    DistinctSize(names);
  }

  lemma {:induction false} DistinctSize(names: seq<Str>)
    requires forall i, j :: 0 <= i < j < |names| ==> names[i] != names[j]
    ensures |set name | name in names| == |names|
  {
    if names != [] {
      var rest := names[1..];
      DistinctSize(rest);
      assert (set name | name in names) == {names[0]} + set name | name in rest;
    }
  }

  /** Text in the str16 format survives unless it is longer than 64 bytes and starts with a byte
    * order mark.
    */
  lemma Str16TextKept(text: seq<Scalar>)
    ensures Str16Text(text) == Utf16(text) <==> |Utf8(text)| <= 64 || text[0] != BOM
  {
    if |Utf8(text)| > 64 && text[0] == BOM {
      assert |Utf16(text)| == 1 + |Utf16(text[1..])|;
    }
  }

  lemma {:induction false} AsciiSize(n: nat)
    ensures |Utf8(seq(n, _ => 0x61 as Scalar))| == n
  {
    var text := seq(n, _ => 0x61 as Scalar);
    if n > 0 {
      AsciiSize(n - 1);
      assert text[1..] == seq(n - 1, _ => 0x61 as Scalar);
    }
  }

  /** A byte order mark before 64 letters is lost. */
  lemma ByteOrderMarkIsLost()
    ensures var text := [BOM] + seq(64, _ => 0x61 as Scalar);
            Encodable(Str16(text)) && Str16Text(text) != Utf16(text)
  {
    var letters := seq(64, _ => 0x61 as Scalar);
    var text := [BOM] + letters;
    AsciiSize(64);
    assert text[1..] == letters;
    assert |Utf8(text)| == 67;
    assert Power(2) == 256 * (256 * Power(0));
    Str16TextKept(text);
  }
}
