/** The MessagePack formats that the script's decoder handles (MessagePack specification, section
  * "Formats"), as an encoder over format-tagged messages, and what a message means as a value.
  */
module MsgPackFormat {
  import opened Options
  import opened Utf8Text
  import Decimal

  /** A decoded JavaScript value; `Float` keeps its 4 or 8 payload bytes uninterpreted. */
  datatype Value =
    | Null
    | Undefined
    | Bool(flag: bool)
    | Number(n: int)
    | BigInt(n: int)
    | Float(payload: seq<Byte>)
    | Text(units: Str)
    | Array(items: seq<Value>)
    | Object(fields: map<Str, Value>)

  /** Library behaviour that is a parameter: what `TextDecoder` makes of ill-formed bytes and how a
    * float prints when it is used as a property name.
    */
  datatype Platform = Platform(lossyText: seq<Byte> -> Str, floatName: seq<Byte> -> Str)

  // ---- property names ----

  /** `sy`: the property name of a decoded key, if it has one. */
  function PropertyName(v: Value, platform: Platform): Option<Str> {
    match v
    case Null => Some(Units("null"))
    case Undefined => Some(Units("undefined"))
    case Bool(flag) => Some(Units(if flag then "true" else "false"))
    case Number(n) => Some(Units(Decimal.Text(n)))
    case BigInt(n) => Some(Units(Decimal.Text(n)))
    case Float(payload) => Some(platform.floatName(payload))
    case Text(units) => Some(units)
    case Array(_) => None
    case Object(_) => None
  }

  function Units(s: string): Str {
    seq(|s|, i requires 0 <= i < |s| => s[i] as int % 0x1_0000)
  }

  /** The name under which a field is stored: `__proto__` is never written. */
  function SafeName(name: Str): Str {
    if name == Units("__proto__") then Units("__proto_") else name
  }

  // ---- big-endian numbers ----

  function Power(k: nat): (r: nat)
    ensures r > 0
  {
    if k == 0 then 1 else 256 * Power(k - 1)
  }

  function ToBytes(n: nat, k: nat): (r: seq<Byte>)
    ensures |r| == k
  {
    if k == 0 then [] else ToBytes(n / 256, k - 1) + [n % 256]
  }

  function FromBytes(bytes: seq<Byte>): (r: nat)
    ensures r < Power(|bytes|)
  {
    if bytes == [] then 0 else FromBytes(bytes[..|bytes| - 1]) * 256 + bytes[|bytes| - 1]
  }

  lemma {:induction false} FromToBytes(n: nat, k: nat)
    requires n < Power(k)
    ensures FromBytes(ToBytes(n, k)) == n
  {
    if k != 0 {
      FromToBytes(n / 256, k - 1);
      assert ToBytes(n, k)[..k - 1] == ToBytes(n / 256, k - 1);
    }
  }

  lemma {:induction false} FromBytesIsInjective(a: seq<Byte>, b: seq<Byte>)
    requires |a| == |b| && FromBytes(a) == FromBytes(b)
    ensures a == b
  {
    if a != [] {
      var k := |a| - 1;
      FromBytesIsInjective(a[..k], b[..k]);
      assert a == a[..k] + [a[k]] && b == b[..k] + [b[k]];
    }
  }

  /** Two's complement reading of `k` bytes. */
  function Signed(n: nat, k: nat): int
    requires n < Power(k)
  {
    if 2 * n < Power(k) then n else n - Power(k)
  }

  function Unsigned(n: int, k: nat): (r: nat)
    requires -(Power(k) as int) <= 2 * n < Power(k)
    ensures r < Power(k) && Signed(r, k) == n
  {
    if n < 0 then n + Power(k) else n
  }

  // ---- messages and their encoding ----

  datatype Message =
    | Nil
    | Boolean(flag: bool)
    | FixInt(n: int)
    | UInt(width: nat, n: int)
    | SInt(width: nat, n: int)
    | FloatBytes(payload: seq<Byte>)
    | FixStr(text: seq<Scalar>)
    | Str16(text: seq<Scalar>)
    | FixArray(items: seq<Message>)
    | FixMap(entries: seq<Entry>)
    | Map16(entries: seq<Entry>)
    | Map32(entries: seq<Entry>)

  datatype Entry = Entry(key: Message, value: Message)

  predicate Encodable(m: Message)
    decreases m
  {
    match m
    case Nil => true
    case Boolean(_) => true
    case FixInt(n) => -32 <= n < 128
    case UInt(width, n) => width in {1, 2, 4, 8} && 0 <= n < Power(width)
    case SInt(width, n) => width in {1, 2, 4, 8} && -(Power(width) as int) <= 2 * n < Power(width)
    case FloatBytes(payload) => |payload| == 4 || |payload| == 8
    case FixStr(text) => |Utf8(text)| < 32
    case Str16(text) => |Utf8(text)| < Power(2)
    case FixArray(items) => |items| < 16 && forall i :: 0 <= i < |items| ==> Encodable(items[i])
    case FixMap(entries) => |entries| < 16 && forall i :: 0 <= i < |entries| ==> EncodableEntry(entries[i])
    case Map16(entries) => |entries| < Power(2) && forall i :: 0 <= i < |entries| ==> EncodableEntry(entries[i])
    case Map32(entries) => |entries| < Power(4) && forall i :: 0 <= i < |entries| ==> EncodableEntry(entries[i])
  }

  /** A key must be a message that has a property name. */
  predicate EncodableEntry(e: Entry)
    decreases e
  {
    Encodable(e.key) && !e.key.FixArray? && !e.key.FixMap? && !e.key.Map16? && !e.key.Map32? && Encodable(e.value)
  }

  /** The first byte of the k-byte format in a family that starts at `first` with one byte. */
  function WidthTag(first: Byte, width: nat): Byte
    requires first < 240
  {
    match width
    case 1 => first
    case 2 => first + 1
    case 4 => first + 2
    case _ => first + 3
  }

  function Encode(m: Message): (r: seq<Byte>)
    requires Encodable(m)
    ensures r != []
    decreases m
  {
    match m
    case Nil => [192]
    case Boolean(flag) => [if flag then 195 else 194]
    case FixInt(n) => [if n < 0 then n + 256 else n]
    case UInt(width, n) => [WidthTag(204, width)] + ToBytes(n, width)
    case SInt(width, n) => [WidthTag(208, width)] + ToBytes(Unsigned(n, width), width)
    case FloatBytes(payload) => [if |payload| == 4 then 202 else 203] + payload
    case FixStr(text) => [160 + |Utf8(text)|] + Utf8(text)
    case Str16(text) => [218] + ToBytes(|Utf8(text)|, 2) + Utf8(text)
    case FixArray(items) => [144 + |items|] + EncodeItems(items)
    case FixMap(entries) => [128 + |entries|] + EncodeEntries(entries)
    case Map16(entries) => [222] + ToBytes(|entries|, 2) + EncodeEntries(entries)
    case Map32(entries) => [223] + ToBytes(|entries|, 4) + EncodeEntries(entries)
  }

  function EncodeItems(items: seq<Message>): seq<Byte>
    requires forall i :: 0 <= i < |items| ==> Encodable(items[i])
    decreases items
  {
    if items == [] then [] else Encode(items[0]) + EncodeItems(items[1..])
  }

  function EncodeEntries(entries: seq<Entry>): seq<Byte>
    requires forall i :: 0 <= i < |entries| ==> EncodableEntry(entries[i])
    decreases entries
  {
    if entries == [] then [] else EncodeEntry(entries[0]) + EncodeEntries(entries[1..])
  }

  function EncodeEntry(e: Entry): seq<Byte>
    requires EncodableEntry(e)
    decreases e
  {
    Encode(e.key) + Encode(e.value)
  }

  // ---- what a message means ----

  /** Text in the str16 format longer than 64 bytes goes through `TextDecoder`, which drops a leading
    * byte order mark; all other text is kept as it is.
    */
  function Str16Text(text: seq<Scalar>): Str {
    if |Utf8(text)| > 64 then Utf16(StripBom(text)) else Utf16(text)
  }

  function Meaning(m: Message, platform: Platform): Value
    decreases m, 0
  {
    match m
    case Nil => Null
    case Boolean(flag) => Bool(flag)
    case FixInt(n) => Number(n)
    case UInt(width, n) => if width == 8 then BigInt(n) else Number(n)
    case SInt(width, n) => if width == 8 then BigInt(n) else Number(n)
    case FloatBytes(payload) => Float(payload)
    case FixStr(text) => Text(Utf16(text))
    case Str16(text) => Text(Str16Text(text))
    case FixArray(items) => Array(Meanings(items, platform))
    case FixMap(entries) => Object(FieldsOf(entries, map[], platform))
    case Map16(entries) => Object(FieldsOf(entries, map[], platform))
    case Map32(entries) => Object(FieldsOf(entries, map[], platform))
  }

  function Meanings(items: seq<Message>, platform: Platform): (r: seq<Value>)
    ensures |r| == |items|
    decreases items, 0
  {
    if items == [] then [] else [Meaning(items[0], platform)] + Meanings(items[1..], platform)
  }

  /** The field an entry assigns. */
  function FieldOf(e: Entry, platform: Platform): (Str, Value)
    decreases e, 0
  {
    var name := match PropertyName(Meaning(e.key, platform), platform) case Some(name) => SafeName(name) case None => [];
    (name, Meaning(e.value, platform))
  }

  /** Fields are assigned in order, a later one replacing an earlier one of the same name. */
  function FieldsOf(entries: seq<Entry>, before: map<Str, Value>, platform: Platform): map<Str, Value>
    decreases entries, 0
  {
    if entries == [] then before
    else
      var (name, value) := FieldOf(entries[0], platform);
      FieldsOf(entries[1..], before[name := value], platform)
  }
}
