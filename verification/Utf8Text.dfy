/** UTF-8 and UTF-16 text as the decoder sees it.
  *
  * `Utf8` is the encoding of section 3 of RFC 3629 and `Utf16` the one of section 2.1 of RFC 2781.
  * `LoopDecode` is the hand-written decoding loop of the script, including what it does on
  * ill-formed input: the masks and shifts of the source are written as `%`, `*` and `/` by powers
  * of two, and a byte read past the end of the buffer (`undefined` in the source) acts as zero.
  */
module Utf8Text {
  import opened Options

  type Byte = b: int | 0 <= b < 256
  type CodeUnit = u: int | 0 <= u < 0x1_0000
  type Scalar = s: int | 0 <= s < 0x11_0000 && !(0xD800 <= s <= 0xDFFF)
  type Str = seq<CodeUnit>

  /** The byte order mark U+FEFF. */
  const BOM: Scalar := 0xFEFF

  // ---- the standards' encodings ----

  function EncodeScalar(s: Scalar): (r: seq<Byte>)
    ensures 1 <= |r| <= 4
  {
    if s < 0x80 then [s]
    else if s < 0x800 then [0xC0 + s / 64, 0x80 + s % 64]
    else if s < 0x1_0000 then [0xE0 + s / 4096, 0x80 + (s / 64) % 64, 0x80 + s % 64]
    else [0xF0 + s / 262144, 0x80 + (s / 4096) % 64, 0x80 + (s / 64) % 64, 0x80 + s % 64]
  }

  function ScalarUnits(s: Scalar): Str {
    if s < 0x1_0000 then [s]
    else [0xD800 + (s - 0x1_0000) / 1024, 0xDC00 + (s - 0x1_0000) % 1024]
  }

  function Utf8(text: seq<Scalar>): seq<Byte> {
    if text == [] then [] else EncodeScalar(text[0]) + Utf8(text[1..])
  }

  function Utf16(text: seq<Scalar>): Str {
    if text == [] then [] else ScalarUnits(text[0]) + Utf16(text[1..])
  }

  // ---- the decoding loop ----

  function ByteAt(buf: seq<Byte>, i: nat): Byte {
    if i < |buf| then buf[i] else 0
  }

  /** How many bytes one round of the loop consumes after seeing the lead byte `b`. */
  function Width(b: Byte): (r: nat)
    ensures 1 <= r <= 4
  {
    if b < 128 then 1 else if b / 32 == 6 then 2 else if b / 16 == 14 then 3 else if b / 8 == 30 then 4 else 1
  }

  /** The number the masks and shifts of one round assemble. */
  function Code(b: Byte, c: Byte, d: Byte, e: Byte): (r: nat)
    ensures r < 0x20_0000 && (Width(b) < 4 ==> r < 0x1_0000)
  {
    match Width(b)
    case 1 => b
    case 2 => b % 32 * 64 + c % 64
    case 3 => b % 16 * 4096 + c % 64 * 64 + d % 64
    case _ => b % 8 * 262144 + c % 64 * 4096 + d % 64 * 64 + e % 64
  }

  function CodeUnits(code: nat): Str
    requires code < 0x20_0000
  {
    if code > 65535 then [(code - 65536) / 1024 % 1024 + 55296, 56320 + (code - 65536) % 1024] else [code]
  }

  /** One round of the loop at `pos`: the code units it appends and the next cursor. */
  function LoopStep(buf: seq<Byte>, pos: nat): (r: (Str, nat))
    ensures pos < r.1
  {
    var b := ByteAt(buf, pos);
    (CodeUnits(Code(b, ByteAt(buf, pos + 1), ByteAt(buf, pos + 2), ByteAt(buf, pos + 3))), pos + Width(b))
  }

  /** The whole loop: it tests the cursor only before a lead byte, so it can run past `end`. */
  function LoopDecode(buf: seq<Byte>, pos: nat, end: nat): (r: (Str, nat))
    ensures pos <= r.1 && (pos <= end ==> end <= r.1)
    decreases end - pos
  {
    if end <= pos then ([], pos)
    else
      var (units, next) := LoopStep(buf, pos);
      var (rest, last) := LoopDecode(buf, next, end);
      (units + rest, last)
  }

  /** The decoding of `bytes` ends exactly where the bytes end: nothing after them is read. */
  predicate SelfContained(bytes: seq<Byte>) {
    LoopDecode(bytes, 0, |bytes|).1 == |bytes|
  }

  function TextOf(bytes: seq<Byte>): Str {
    LoopDecode(bytes, 0, |bytes|).0
  }

  /** Reassembling the bytes of a scalar gives the scalar back; `x`, `y`, `z` are whatever bytes
    * follow a shorter form.
    */
  lemma CodeInverts1(s: Scalar, x: Byte, y: Byte, z: Byte)
    requires s < 0x80
    ensures Width(s) == 1 && Code(s, x, y, z) == s
  {}

  lemma CodeInverts2(s: Scalar, y: Byte, z: Byte)
    requires 0x80 <= s < 0x800
    ensures Width(0xC0 + s / 64) == 2 && Code(0xC0 + s / 64, 0x80 + s % 64, y, z) == s
  {}

  lemma CodeInverts3(s: Scalar, z: Byte)
    requires 0x800 <= s < 0x1_0000
    ensures Width(0xE0 + s / 4096) == 3
    ensures Code(0xE0 + s / 4096, 0x80 + (s / 64) % 64, 0x80 + s % 64, z) == s
  {
    var a := s / 64;
    assert s == 64 * a + s % 64 && a == 64 * (a / 64) + a % 64 && a / 64 == s / 4096;
  }

  lemma CodeInverts4(s: Scalar)
    requires 0x1_0000 <= s
    ensures Width(0xF0 + s / 262144) == 4
    ensures Code(0xF0 + s / 262144, 0x80 + (s / 4096) % 64, 0x80 + (s / 64) % 64, 0x80 + s % 64) == s
  {
    var a := s / 64;
    var b := a / 64;
    assert s == 64 * a + s % 64 && a == 64 * b + a % 64 && b == 64 * (b / 64) + b % 64;
    assert b == s / 4096 && b / 64 == s / 262144;
  }

  lemma ScalarUnitsAreCodeUnits(s: Scalar)
    ensures CodeUnits(s) == ScalarUnits(s)
  {
    if 0x1_0000 <= s {
      assert 0 <= (s - 65536) / 1024 < 1024;
    }
  }

  lemma StepDecodesScalar(buf: seq<Byte>, pos: nat, s: Scalar)
    requires pos + |EncodeScalar(s)| <= |buf|
    requires buf[pos..pos + |EncodeScalar(s)|] == EncodeScalar(s)
    ensures LoopStep(buf, pos) == (ScalarUnits(s), pos + |EncodeScalar(s)|)
  {
    var e := EncodeScalar(s);
    var slice := buf[pos..pos + |e|];
    assert ByteAt(buf, pos) == slice[0] == e[0];
    assert |e| > 1 ==> ByteAt(buf, pos + 1) == slice[1] == e[1];
    assert |e| > 2 ==> ByteAt(buf, pos + 2) == slice[2] == e[2];
    assert |e| > 3 ==> ByteAt(buf, pos + 3) == slice[3] == e[3];
    EncodedBytesDecode(s, ByteAt(buf, pos), ByteAt(buf, pos + 1), ByteAt(buf, pos + 2), ByteAt(buf, pos + 3));
    ScalarUnitsAreCodeUnits(s);
  }

  lemma EncodedBytesDecode(s: Scalar, b: Byte, c: Byte, d: Byte, e: Byte)
    requires EncodeScalar(s) <= [b, c, d, e]
    ensures Width(b) == |EncodeScalar(s)| && Code(b, c, d, e) == s
  {
    var four := [b, c, d, e];
    var enc := EncodeScalar(s);
    assert enc[0] == four[0];
    assert |enc| > 1 ==> enc[1] == four[1];
    assert |enc| > 2 ==> enc[2] == four[2];
    assert |enc| > 3 ==> enc[3] == four[3];
    if s < 0x80 {
      CodeInverts1(s, c, d, e);
    } else if s < 0x800 {
      CodeInverts2(s, d, e);
    } else if s < 0x1_0000 {
      CodeInverts3(s, e);
    } else {
      CodeInverts4(s);
    }
  }

  /** The loop on a buffer whose bytes at `pos` are the form of `s` and then something else. */
  lemma LoopTakesScalar(buf: seq<Byte>, pos: nat, end: nat, s: Scalar)
    requires pos + |EncodeScalar(s)| <= end <= |buf|
    requires buf[pos..pos + |EncodeScalar(s)|] == EncodeScalar(s)
    ensures var rest := LoopDecode(buf, pos + |EncodeScalar(s)|, end);
            LoopDecode(buf, pos, end) == (ScalarUnits(s) + rest.0, rest.1)
  {
    StepDecodesScalar(buf, pos, s);
  }

  /** Well-formed UTF-8 is decoded to the UTF-16 form of the same text, and the loop stops exactly
    * at its end, whatever surrounds it in the buffer.
    */
  lemma {:induction false} LoopDecodesUtf8(buf: seq<Byte>, pos: nat, end: nat, text: seq<Scalar>)
    requires pos <= end <= |buf| && buf[pos..end] == Utf8(text)
    ensures LoopDecode(buf, pos, end) == (Utf16(text), end)
    decreases |text|
  {
    hide LoopStep, EncodeScalar, ScalarUnits;
    if text != [] {
      var mid := pos + |EncodeScalar(text[0])|;
      SplitSlice(buf, pos, end, EncodeScalar(text[0]), Utf8(text[1..]));
      LoopDecodesUtf8(buf, mid, end, text[1..]);
      LoopTakesScalar(buf, pos, end, text[0]);
    }
  }

  lemma SplitSlice<T>(buf: seq<T>, pos: nat, end: nat, head: seq<T>, tail: seq<T>)
    requires pos <= end <= |buf| && buf[pos..end] == head + tail
    ensures pos + |head| <= end
    ensures buf[pos..pos + |head|] == head && buf[pos + |head|..end] == tail
  {
    assert buf[pos..end][..|head|] == head && buf[pos..end][|head|..] == tail;
    assert buf[pos..pos + |head|] == buf[pos..end][..|head|];
  }

  lemma CodeIsLocal(b: Byte, c: Byte, d: Byte, e: Byte, c': Byte, d': Byte, e': Byte)
    requires Width(b) > 1 ==> c == c'
    requires Width(b) > 2 ==> d == d'
    requires Width(b) > 3 ==> e == e'
    ensures Code(b, c, d, e) == Code(b, c', d', e')
  {}

  /** The loop looks at nothing but the bytes up to where it stops. */
  lemma {:induction false} LoopDecodeIsLocal(a: seq<Byte>, p: nat, b: seq<Byte>, q: nat, n: nat)
    requires p + n <= |a| && q + n <= |b| && a[p..p + n] == b[q..q + n]
    ensures LoopDecode(a, p, p + n).1 == p + n <==> LoopDecode(b, q, q + n).1 == q + n
    ensures LoopDecode(a, p, p + n).1 == p + n ==> LoopDecode(a, p, p + n).0 == LoopDecode(b, q, q + n).0
    decreases n
  {
    hide Code, CodeUnits, LoopStep;
    if n != 0 {
      var k := LoopStep(a, p).1 - p;
      StepIsLocal(a, p, b, q, n);
      if k <= n {
        assert a[p + k..p + k + (n - k)] == a[p..p + n][k..] == b[q..q + n][k..] == b[q + k..q + k + (n - k)];
        LoopDecodeIsLocal(a, p + k, b, q + k, n - k);
      }
    }
  }

  /** One round looks at nothing but the bytes it consumes. */
  lemma StepIsLocal(a: seq<Byte>, p: nat, b: seq<Byte>, q: nat, n: nat)
    requires 0 < n && p + n <= |a| && q + n <= |b| && a[p..p + n] == b[q..q + n]
    ensures LoopStep(a, p).1 - p == LoopStep(b, q).1 - q
    ensures LoopStep(a, p).1 <= p + n ==> LoopStep(a, p).0 == LoopStep(b, q).0
  {
    hide Code, CodeUnits;
    var s, t := a[p..p + n], b[q..q + n];
    assert ByteAt(a, p) == s[0] == t[0] == ByteAt(b, q);
    var k := Width(ByteAt(a, p));
    if k <= n {
      assert k > 1 ==> ByteAt(a, p + 1) == s[1] == t[1] == ByteAt(b, q + 1);
      assert k > 2 ==> ByteAt(a, p + 2) == s[2] == t[2] == ByteAt(b, q + 2);
      assert k > 3 ==> ByteAt(a, p + 3) == s[3] == t[3] == ByteAt(b, q + 3);
      CodeIsLocal(ByteAt(a, p), ByteAt(a, p + 1), ByteAt(a, p + 2), ByteAt(a, p + 3),
                  ByteAt(b, q + 1), ByteAt(b, q + 2), ByteAt(b, q + 3));
    }
  }

  /** Bytes below 128 decode to themselves: the meaning of both ASCII fast paths. */
  lemma {:induction false} LoopDecodesAscii(buf: seq<Byte>, pos: nat, n: nat)
    requires forall i :: pos <= i < pos + n ==> ByteAt(buf, i) < 128
    ensures LoopDecode(buf, pos, pos + n) == (Bytes(buf, pos, n), pos + n)
    decreases n
  {
    if n != 0 {
      LoopDecodesAscii(buf, pos + 1, n - 1);
    }
  }

  /** The `n` bytes at `pos`, as code units. */
  function Bytes(buf: seq<Byte>, pos: nat, n: nat): (r: Str)
    ensures |r| == n && forall i :: 0 <= i < n ==> r[i] == ByteAt(buf, pos + i)
    decreases n
  {
    if n == 0 then [] else [ByteAt(buf, pos)] + Bytes(buf, pos + 1, n - 1)
  }

  // ---- the platform's strict decoder ----

  function FromUtf8Scalar(bytes: seq<Byte>): (r: Option<Scalar>)
    requires bytes != []
    ensures r.Some? ==> EncodeScalar(r.value) <= bytes
  {
    var code := Code(bytes[0], ByteAt(bytes, 1), ByteAt(bytes, 2), ByteAt(bytes, 3));
    if code < 0x11_0000 && !(0xD800 <= code <= 0xDFFF) && EncodeScalar(code) <= bytes then Some(code) else None
  }

  /** Strict decoding: the text whose UTF-8 form is `bytes`, if there is one. */
  function FromUtf8(bytes: seq<Byte>): (r: Option<seq<Scalar>>)
    ensures r.Some? ==> Utf8(r.value) == bytes
  {
    if bytes == [] then Some([])
    else
      match FromUtf8Scalar(bytes)
      case None => None
      case Some(s) =>
        match FromUtf8(bytes[|EncodeScalar(s)|..])
        case None => None
        case Some(rest) =>
          assert ([s] + rest)[1..] == rest;
          Some([s] + rest)
  }

  lemma FromUtf8ScalarInverts(s: Scalar, tail: seq<Byte>)
    ensures FromUtf8Scalar(EncodeScalar(s) + tail) == Some(s)
  {
    var e := EncodeScalar(s);
    var bytes := e + tail;
    assert forall i :: 0 <= i < |e| ==> bytes[i] == e[i];
    EncodedBytesDecode(s, ByteAt(bytes, 0), ByteAt(bytes, 1), ByteAt(bytes, 2), ByteAt(bytes, 3));
  }

  lemma {:induction false} FromUtf8Inverts(text: seq<Scalar>)
    ensures FromUtf8(Utf8(text)) == Some(text)
  {
    if text != [] {
      FromUtf8ScalarInverts(text[0], Utf8(text[1..]));
      FromUtf8Inverts(text[1..]);
      assert Utf8(text)[|EncodeScalar(text[0])|..] == Utf8(text[1..]);
      assert text == [text[0]] + text[1..];
    }
  }

  function StripBom(text: seq<Scalar>): seq<Scalar> {
    if text != [] && text[0] == BOM then text[1..] else text
  }

  /** `TextDecoder("utf-8")`: a leading byte order mark is dropped. What it makes of ill-formed
    * bytes is the library's business and stays a parameter.
    */
  function TextDecoderText(bytes: seq<Byte>, lossy: seq<Byte> -> Str): Str {
    match FromUtf8(bytes)
    case Some(text) => Utf16(StripBom(text))
    case None => lossy(bytes)
  }
}
