/** Plain decoding: what the script's readers compute without the key cache and the ASCII fast
  * paths, written as functions of the buffer and the cursor.
  */
module MsgPackParser {
  import opened Options
  import opened Utf8Text
  import opened MsgPackFormat

  datatype Error = EndOfData | OutOfRange | MissingHandler | BadProperty | TrailingData

  /** What became of the short keys on the way, in a buffer that uses the key cache: the decoding of each
    * ended exactly at its last byte inside the buffer; or not, but only for a key that reaches to the
    * end of the buffer or past it; or not for a key that other bytes follow.
    */
  datatype Keys = Intact | AtEnd | Cut

  function Worse(a: Keys, b: Keys): Keys {
    if a.Cut? || b.Cut? then Cut else if a.AtEnd? || b.AtEnd? then AtEnd else Intact
  }

  datatype Parsed =
    | Parsed(value: Value, next: nat, keys: Keys)
    | Failed(error: Error, keys: Keys)

  datatype ParsedKey =
    | Key(name: Str, next: nat, keys: Keys)
    | KeyFailed(error: Error, keys: Keys)

  /** Buffers shorter than this use the key cache. */
  const CACHED_LENGTH: nat := 180

  function Left(buf: seq<Byte>, pos: nat): nat {
    if pos < |buf| then |buf| - pos else 0
  }

  /** The `k`-byte big-endian number at `pos`; a `DataView` read outside the buffer throws. */
  function NumberAt(buf: seq<Byte>, pos: nat, k: nat): (r: Option<nat>)
    ensures r.Some? ==> r.value < Power(k)
  {
    if pos + k <= |buf| then Some(FromBytes(buf[pos..pos + k])) else None
  }

  function SliceOf(buf: seq<Byte>, pos: nat, n: nat): seq<Byte> {
    if |buf| <= pos then [] else if |buf| <= pos + n then buf[pos..] else buf[pos..pos + n]
  }

  /** Reading `n` bytes of text the general way (`so`); long text goes through `TextDecoder`. */
  function ReadText(buf: seq<Byte>, pos: nat, n: nat, platform: Platform): (r: (Str, nat))
    ensures pos + n <= r.1
  {
    if n > 64 then (TextDecoderText(SliceOf(buf, pos, n), platform.lossyText), pos + n)
    else LoopDecode(buf, pos, pos + n)
  }

  predicate IntactKey(buf: seq<Byte>, pos: nat, n: nat) {
    pos + n <= |buf| && SelfContained(buf[pos..pos + n])
  }

  function KeysOf(buf: seq<Byte>, pos: nat, n: nat): Keys {
    if IntactKey(buf, pos, n) then Intact else if |buf| <= pos + n then AtEnd else Cut
  }

  function ParseValue(buf: seq<Byte>, pos: nat, platform: Platform): (r: Parsed)
    ensures r.Parsed? ==> pos < |buf| && pos < r.next
    decreases Left(buf, pos), 0, 0
  {
    if |buf| <= pos then Failed(EndOfData, Intact)
    else
      var t: int := buf[pos];
      if t < 128 then Parsed(Number(t), pos + 1, Intact)
      else if t < 144 then ParseEntries(buf, pos + 1, t - 128, map[], Intact, platform)
      else if t < 160 then ParseItems(buf, pos + 1, t - 144, [], Intact, platform)
      else if t < 192 then
        var (units, next) := LoopDecode(buf, pos + 1, pos + 1 + (t - 160));
        Parsed(Text(units), next, Intact)
      else if 224 <= t then Parsed(Number(t - 256), pos + 1, Intact)
      else if t == 192 then Parsed(Null, pos + 1, Intact)
      else if t == 194 || t == 195 then Parsed(Bool(t == 195), pos + 1, Intact)
      else if t == 202 || t == 203 then
        var k := if t == 202 then 4 else 8;
        if pos + 1 + k <= |buf| then Parsed(Float(buf[pos + 1..pos + 1 + k]), pos + 1 + k, Intact)
        else Failed(OutOfRange, Intact)
      else if t == 204 then
        Parsed(if pos + 1 < |buf| then Number(buf[pos + 1]) else Undefined, pos + 2, Intact)
      else if 205 <= t <= 207 then ParseInteger(buf, pos, if t == 205 then 2 else if t == 206 then 4 else 8, false)
      else if 208 <= t <= 211 then
        ParseInteger(buf, pos, if t == 208 then 1 else if t == 209 then 2 else if t == 210 then 4 else 8, true)
      else if t == 218 then
        match NumberAt(buf, pos + 1, 2)
        case None => Failed(OutOfRange, Intact)
        case Some(n) =>
          var (units, next) := ReadText(buf, pos + 3, n, platform);
          Parsed(Text(units), next, Intact)
      else if t == 222 || t == 223 then
        var k := if t == 222 then 2 else 4;
        match NumberAt(buf, pos + 1, k)
        case None => Failed(OutOfRange, Intact)
        case Some(n) => ParseEntries(buf, pos + 1 + k, n, map[], Intact, platform)
      else Failed(MissingHandler, Intact)
  }

  /** The integer of `k` bytes after the tag at `pos`; eight bytes always give a `BigInt`. */
  function ParseInteger(buf: seq<Byte>, pos: nat, k: nat, signed: bool): (r: Parsed)
    requires pos < |buf|
    ensures r.Parsed? ==> pos < r.next
    ensures r.keys.Intact?
  {
    match NumberAt(buf, pos + 1, k)
    case None => Failed(OutOfRange, Intact)
    case Some(n) =>
      var v := if signed then Signed(n, k) else n;
      Parsed(if k == 8 then BigInt(v) else Number(v), pos + 1 + k, Intact)
  }

  function ParseItems(buf: seq<Byte>, pos: nat, n: nat, items: seq<Value>, keys: Keys, platform: Platform): (r: Parsed)
    ensures r.Parsed? ==> pos <= r.next
    ensures r.keys == Worse(keys, r.keys)
    decreases Left(buf, pos), 1, n
  {
    if n == 0 then Parsed(Array(items), pos, keys)
    else
      match ParseValue(buf, pos, platform)
      case Failed(error, more) => Failed(error, Worse(keys, more))
      case Parsed(v, next, more) => ParseItems(buf, next, n - 1, items + [v], Worse(keys, more), platform)
  }

  /** `sg` as the plain decoder would do it. */
  function ParseKey(buf: seq<Byte>, pos: nat, platform: Platform): (r: ParsedKey)
    ensures r.Key? ==> pos < |buf| && pos < r.next
    decreases Left(buf, pos), 1, 0
  {
    if pos < |buf| && 160 <= buf[pos] < 192 then
      var n := buf[pos] - 160;
      var (units, next) := LoopDecode(buf, pos + 1, pos + 1 + n);
      Key(units, next, if |buf| < CACHED_LENGTH then KeysOf(buf, pos + 1, n) else Intact)
    else
      match ParseValue(buf, pos, platform)
      case Failed(error, keys) => KeyFailed(error, keys)
      case Parsed(v, next, keys) =>
        match PropertyName(v, platform)
        case None => KeyFailed(BadProperty, keys)
        case Some(name) => Key(name, next, keys)
  }

  function ParseEntries(buf: seq<Byte>, pos: nat, n: nat, fields: map<Str, Value>, keys: Keys, platform: Platform): (r: Parsed)
    ensures r.Parsed? ==> pos <= r.next
    ensures r.keys == Worse(keys, r.keys)
    decreases Left(buf, pos), 2, n
  {
    if n == 0 then Parsed(Object(fields), pos, keys)
    else
      match ParseKey(buf, pos, platform)
      case KeyFailed(error, more) => Failed(error, Worse(keys, more))
      case Key(name, next, more) =>
        match ParseValue(buf, next, platform)
        case Failed(error, evenMore) => Failed(error, Worse(Worse(keys, more), evenMore))
        case Parsed(v, after, evenMore) =>
          ParseEntries(buf, after, n - 1, fields[SafeName(name) := v], Worse(Worse(keys, more), evenMore), platform)
  }

  datatype Outcome = Decoded(value: Value) | Rejected(error: Error)

  /** `a3`: the value must end exactly at the end of the buffer. */
  function EndCheck(value: Value, next: nat, size: nat): Outcome {
    if next == size then Decoded(value)
    else if size < next then Rejected(EndOfData)
    else Rejected(TrailingData)
  }

  function ParseAll(buf: seq<Byte>, platform: Platform): Outcome {
    match ParseValue(buf, 0, platform)
    case Failed(error, _) => Rejected(error)
    case Parsed(value, next, _) => EndCheck(value, next, |buf|)
  }
}
