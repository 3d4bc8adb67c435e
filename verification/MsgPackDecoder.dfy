/** The script's decoder itself: one cursor over one buffer, the ASCII fast paths and the key cache
  * that survives from one decoded message to the next.
  */
module MsgPackDecoder {
  import opened Options
  import opened Utf8Text
  import opened MsgPackFormat
  import opened MsgPackParser
  import opened MsgPackCache
  import MsgPackRoundTrip

  predicate AllAscii(buf: seq<Byte>, pos: nat, n: nat) {
    forall i :: pos <= i < pos + n ==> ByteAt(buf, i) < 128
  }

  ghost predicate Reads(r: Read<Value>, pos: nat, p: Parsed) {
    match p
    case Parsed(v, next, _) => r == Ok(v) && pos == next
    case Failed(error, _) => r == Thrown(error)
  }

  /** A reader's result, cursor and cache are those of the step. */
  ghost predicate Does<T>(r: Read<T>, pos: nat, slots: seq<Slot>, s: Step<T>) {
    r == s.result && slots == s.slots && (r.Ok? ==> pos == s.next)
  }

  class Decoder {
    var buf: seq<Byte>
    var pos: nat
    const cache: array<Slot>
    const platform: Platform

    ghost predicate Valid()
      reads this, cache
    {
      Shaped(cache[..])
    }

    constructor (platform: Platform)
      ensures Valid() && Sound(cache[..]) && this.platform == platform && fresh(cache)
      ensures forall i :: 0 <= i < cache.Length ==> cache[i].Empty?
    {
      buf, pos := [], 0;
      this.platform := platform;
      cache := new Slot[SLOTS](_ => Empty);
    }

    // ---- text ----

    /** `su`: up to 15 ASCII bytes by an unrolled ladder; on failure the cursor is back where it was. */
    method ShortAscii(n: nat) returns (r: Option<Str>)
      requires n < 16
      modifies this`pos
      ensures r.Some? <==> AllAscii(buf, old(pos), n)
      ensures r.Some? ==> r.value == Bytes(buf, old(pos), n) && pos == old(pos) + n
      ensures r.None? ==> pos == old(pos)
    {
      hide Bytes;
      if n < 4 {
        r := ShortAscii0(n);
        return;
      }
      var b0, b1, b2, b3 := ByteAt(buf, pos), ByteAt(buf, pos + 1), ByteAt(buf, pos + 2), ByteAt(buf, pos + 3);
      pos := pos + 4;
      if b0 >= 128 || b1 >= 128 || b2 >= 128 || b3 >= 128 { pos := pos - 4; return None; }
      assert Bytes(buf, pos - 4, 4) == [b0, b1, b2, b3];
      r := ShortAscii4(n, [b0, b1, b2, b3]);
    }

    /** `su` for fewer than four bytes. */
    method ShortAscii0(n: nat) returns (r: Option<Str>)
      requires n < 4
      modifies this`pos
      ensures r.Some? <==> AllAscii(buf, old(pos), n)
      ensures r.Some? ==> r.value == Bytes(buf, old(pos), n) && pos == old(pos) + n
      ensures r.None? ==> pos == old(pos)
    {
      hide Bytes;
      ghost var all := Bytes(buf, pos, n);
      if n < 2 {
        if n == 0 { return Some([]); }
        var b := ByteAt(buf, pos);
        pos := pos + 1;
        if b >= 128 { pos := pos - 1; return None; }
        assert all == [b];
        return Some([b]);
      }
      var b0, b1 := ByteAt(buf, pos), ByteAt(buf, pos + 1);
      pos := pos + 2;
      if b0 >= 128 || b1 >= 128 { pos := pos - 2; return None; }
      if n < 3 { assert all == [b0, b1]; return Some([b0, b1]); }
      var b2 := ByteAt(buf, pos);
      pos := pos + 1;
      if b2 >= 128 { pos := pos - 3; return None; }
      assert all == [b0, b1, b2];
      return Some([b0, b1, b2]);
    }

    /** The rest of `su` for at least four bytes, the first four of which were read and are ASCII. */
    method ShortAscii4(n: nat, first: Str) returns (r: Option<Str>)
      requires 4 <= n < 16 && 4 <= pos
      requires first == Bytes(buf, pos - 4, 4) && AllAscii(buf, pos - 4, 4)
      modifies this`pos
      ensures r.Some? <==> AllAscii(buf, old(pos) - 4, n)
      ensures r.Some? ==> r.value == Bytes(buf, old(pos) - 4, n) && pos == old(pos) - 4 + n
      ensures r.None? ==> pos == old(pos) - 4
    {
      hide Bytes;
      ghost var all := Bytes(buf, pos - 4, n);
      if n < 6 {
        if n == 4 { return Some(first); }
        var b4 := ByteAt(buf, pos);
        pos := pos + 1;
        if b4 >= 128 { pos := pos - 5; return None; }
        assert all == first + [b4];
        return Some(first + [b4]);
      }
      if n < 8 {
        var b4, b5 := ByteAt(buf, pos), ByteAt(buf, pos + 1);
        pos := pos + 2;
        if b4 >= 128 || b5 >= 128 { pos := pos - 6; return None; }
        if n < 7 { assert all == first + [b4, b5]; return Some(first + [b4, b5]); }
        var b6 := ByteAt(buf, pos);
        pos := pos + 1;
        if b6 >= 128 { pos := pos - 7; return None; }
        assert all == first + [b4, b5, b6];
        return Some(first + [b4, b5, b6]);
      }
      r := ShortAscii8(n, first);
    }

    /** The rest of `su` for at least eight bytes, the first four of which were read and are ASCII. */
    method ShortAscii8(n: nat, first: Str) returns (r: Option<Str>)
      requires 8 <= n < 16 && 4 <= pos
      requires first == Bytes(buf, pos - 4, 4) && AllAscii(buf, pos - 4, 4)
      modifies this`pos
      ensures r.Some? <==> AllAscii(buf, old(pos) - 4, n)
      ensures r.Some? ==> r.value == Bytes(buf, old(pos) - 4, n) && pos == old(pos) - 4 + n
      ensures r.None? ==> pos == old(pos) - 4
    {
      hide Bytes;
      var b4, b5, b6, b7 := ByteAt(buf, pos), ByteAt(buf, pos + 1), ByteAt(buf, pos + 2), ByteAt(buf, pos + 3);
      pos := pos + 4;
      if b4 >= 128 || b5 >= 128 || b6 >= 128 || b7 >= 128 { pos := pos - 8; return None; }
      var eight := first + [b4, b5, b6, b7];
      assert Bytes(buf, pos - 8, 8) == eight;
      if n < 12 { r := ShortAscii8To11(n, eight); } else { r := ShortAscii12(n, eight); }
    }

    /** The rest of `su` for eight to eleven bytes, the first eight of which were read and are ASCII. */
    method ShortAscii8To11(n: nat, first: Str) returns (r: Option<Str>)
      requires 8 <= n < 12 && 8 <= pos
      requires first == Bytes(buf, pos - 8, 8) && AllAscii(buf, pos - 8, 8)
      modifies this`pos
      ensures r.Some? <==> AllAscii(buf, old(pos) - 8, n)
      ensures r.Some? ==> r.value == Bytes(buf, old(pos) - 8, n) && pos == old(pos) - 8 + n
      ensures r.None? ==> pos == old(pos) - 8
    {
      hide Bytes;
      ghost var all := Bytes(buf, pos - 8, n);
      if n < 10 {
        if n == 8 { return Some(first); }
        var b8 := ByteAt(buf, pos);
        pos := pos + 1;
        if b8 >= 128 { pos := pos - 9; return None; }
        assert all == first + [b8];
        return Some(first + [b8]);
      }
      var b8, b9 := ByteAt(buf, pos), ByteAt(buf, pos + 1);
      pos := pos + 2;
      if b8 >= 128 || b9 >= 128 { pos := pos - 10; return None; }
      if n < 11 {
        assert all == first + [b8, b9];
        return Some(first + [b8, b9]);
      }
      var b10 := ByteAt(buf, pos);
      pos := pos + 1;
      if b10 >= 128 { pos := pos - 11; return None; }
      assert all == first + [b8, b9, b10];
      return Some(first + [b8, b9, b10]);
    }

    /** The rest of `su` for at least twelve bytes, the first eight of which were read and are ASCII. */
    method ShortAscii12(n: nat, first: Str) returns (r: Option<Str>)
      requires 12 <= n < 16 && 8 <= pos
      requires first == Bytes(buf, pos - 8, 8) && AllAscii(buf, pos - 8, 8)
      modifies this`pos
      ensures r.Some? <==> AllAscii(buf, old(pos) - 8, n)
      ensures r.Some? ==> r.value == Bytes(buf, old(pos) - 8, n) && pos == old(pos) - 8 + n
      ensures r.None? ==> pos == old(pos) - 8
    {
      hide Bytes;
      var b8, b9, b10, b11 := ByteAt(buf, pos), ByteAt(buf, pos + 1), ByteAt(buf, pos + 2), ByteAt(buf, pos + 3);
      pos := pos + 4;
      if b8 >= 128 || b9 >= 128 || b10 >= 128 || b11 >= 128 { pos := pos - 12; return None; }
      var twelve := first + [b8, b9, b10, b11];
      assert Bytes(buf, pos - 12, 12) == twelve;
      r := ShortAscii12To15(n, twelve);
    }

    /** The last bytes of `su`, the first twelve of which were read and are ASCII. */
    method ShortAscii12To15(n: nat, first: Str) returns (r: Option<Str>)
      requires 12 <= n < 16 && 12 <= pos
      requires first == Bytes(buf, pos - 12, 12) && AllAscii(buf, pos - 12, 12)
      modifies this`pos
      ensures r.Some? <==> AllAscii(buf, old(pos) - 12, n)
      ensures r.Some? ==> r.value == Bytes(buf, old(pos) - 12, n) && pos == old(pos) - 12 + n
      ensures r.None? ==> pos == old(pos) - 12
    {
      hide Bytes;
      ghost var all := Bytes(buf, pos - 12, n);
      if n < 14 {
        if n == 12 { return Some(first); }
        var b12 := ByteAt(buf, pos);
        pos := pos + 1;
        if b12 >= 128 { pos := pos - 13; return None; }
        assert all == first + [b12];
        return Some(first + [b12]);
      }
      var b12, b13 := ByteAt(buf, pos), ByteAt(buf, pos + 1);
      pos := pos + 2;
      if b12 >= 128 || b13 >= 128 { pos := pos - 14; return None; }
      if n < 15 {
        assert all == first + [b12, b13];
        return Some(first + [b12, b13]);
      }
      var b14 := ByteAt(buf, pos);
      pos := pos + 1;
      if b14 >= 128 { pos := pos - 15; return None; }
      assert all == first + [b12, b13, b14];
      return Some(first + [b12, b13, b14]);
    }

    /** `sl`: ASCII bytes in a loop; on failure the cursor is back where it was. */
    method LoopAscii(n: nat) returns (r: Option<Str>)
      modifies this`pos
      ensures r.Some? <==> AllAscii(buf, old(pos), n)
      ensures r.Some? ==> r.value == Bytes(buf, old(pos), n) && pos == old(pos) + n
      ensures r.None? ==> pos == old(pos)
    {
      var start := pos;
      var units: Str := [];
      for i := 0 to n
        invariant pos == start + i && |units| == i
        invariant forall j :: start <= j < start + i ==> ByteAt(buf, j) < 128
        invariant forall j :: 0 <= j < i ==> units[j] == ByteAt(buf, start + j)
      {
        var b := ByteAt(buf, pos);
        pos := pos + 1;
        if b >= 128 {
          assert ByteAt(buf, start + i) >= 128;
          pos := start;
          return None;
        }
        units := units + [b];
      }
      assert units == Bytes(buf, start, n);
      return Some(units);
    }

    /** `so`: text the general way. */
    method GeneralText(n: nat) returns (text: Str)
      modifies this`pos
      ensures (text, pos) == ReadText(buf, old(pos), n, platform)
    {
      if n < 16 {
        var fast := ShortAscii(n);
        if fast.Some? && fast.value != [] {
          LoopDecodesAscii(buf, old(pos), n);
          return fast.value;
        }
      }
      if n > 64 {
        text := TextDecoderText(SliceOf(buf, pos, n), platform.lossyText);
        pos := pos + n;
        return;
      }
      text := LoopText(pos + n);
    }

    /** The decoding loop of `so`, with its chunks of code units. */
    method LoopText(end: nat) returns (text: Str)
      modifies this`pos
      ensures (text, pos) == LoopDecode(buf, old(pos), end)
    {
      hide LoopStep;
      ghost var goal := LoopDecode(buf, pos, end);
      text := [];
      var chunk: Str := [];
      while pos < end
        invariant text + chunk + LoopDecode(buf, pos, end).0 == goal.0
        invariant LoopDecode(buf, pos, end).1 == goal.1 && (end <= pos ==> goal.1 == pos)
        decreases end - pos
      {
        ghost var done, at := text + chunk, pos;
        var units := Round();
        assert LoopDecode(buf, at, end) == (units + LoopDecode(buf, pos, end).0, LoopDecode(buf, pos, end).1);
        chunk := chunk + units;
        if |chunk| >= 4096 {
          text := text + chunk;
          chunk := [];
        }
        assert text + chunk == done + units;
      }
      assert text + chunk + [] == text + chunk == goal.0;
      if |chunk| > 0 {
        text := text + chunk;
      } else {
        assert text + chunk == text;
      }
      assert text == goal.0 && pos == goal.1;
    }

    /** One round of the loop: a lead byte and its continuation bytes. */
    method Round() returns (units: Str)
      modifies this`pos
      ensures (units, pos) == LoopStep(buf, old(pos))
    {
      var b := ByteAt(buf, pos);
      pos := pos + 1;
      if b < 128 {
        return [b];
      } else if b / 32 == 6 {
        var c := ByteAt(buf, pos) % 64;
        pos := pos + 1;
        return [b % 32 * 64 + c];
      } else if b / 16 == 14 {
        var c, d := ByteAt(buf, pos) % 64, ByteAt(buf, pos + 1) % 64;
        pos := pos + 2;
        return [b % 16 * 4096 + c * 64 + d];
      } else if b / 8 == 30 {
        var code: int := b % 8 * 262144 + ByteAt(buf, pos) % 64 * 4096 + ByteAt(buf, pos + 1) % 64 * 64 + ByteAt(buf, pos + 2) % 64;
        pos := pos + 3;
        if code > 65535 {
          code := code - 65536;
          return [code / 1024 % 1024 + 55296, 56320 + code % 1024];
        }
        return [code];
      }
      return [b];
    }

    // ---- keys ----

    /** Compares a cached entry with the key of `n` bytes at the cursor, without moving it. */
    method MatchEntry(entry: Slot, n: nat) returns (m: Match)
      requires entry.Cached?
      ensures m == MatchFrom(entry.cells, buf, pos, n, 0)
    {
      hide FromBytes;
      var words, size := n / 4, n / 4 + n % 4;
      var i := 0;
      while i < words
        invariant 0 <= i <= words
        invariant MatchFrom(entry.cells, buf, pos, n, 0) == MatchFrom(entry.cells, buf, pos, n, i)
      {
        if |buf| < pos + 4 * i + 4 { return OutOfBuffer; }
        if i >= |entry.cells| || WordOf(buf, pos + 4 * i) != entry.cells[i] { return Miss; }
        i := i + 1;
      }
      while i < size
        invariant words <= i <= size
        invariant MatchFrom(entry.cells, buf, pos, n, 0) == MatchFrom(entry.cells, buf, pos, n, i)
      {
        var at := pos + words * 4 + (i - words);
        var tail := if at < |buf| then buf[at] as int else UNDEFINED;
        if tail != (if i < |entry.cells| then entry.cells[i] else UNDEFINED) { return Miss; }
        i := i + 1;
      }
      return Hit;
    }

    /** The cells of the key of `n` bytes at the cursor; `ok` is false when a word read throws. */
    method FillCells(n: nat) returns (cells: seq<int>, ok: bool)
      ensures (cells, ok) == FillFrom(buf, pos, n, [])
    {
      hide FromBytes;
      var words, size := n / 4, n / 4 + n % 4;
      cells := [];
      while |cells| < words
        invariant |cells| <= words
        invariant FillFrom(buf, pos, n, []) == FillFrom(buf, pos, n, cells)
      {
        if |buf| < pos + 4 * |cells| + 4 { return cells, false; }
        cells := cells + [WordOf(buf, pos + 4 * |cells|)];
      }
      while |cells| < size
        invariant words <= |cells| <= size
        invariant FillFrom(buf, pos, n, []) == FillFrom(buf, pos, n, cells)
      {
        var at := pos + words * 4 + (|cells| - words);
        cells := cells + [if at < |buf| then buf[at] as int else UNDEFINED];
      }
      ok := true;
    }

    /** `sg` for a short key in a short buffer, after its length `n` was read. */
    method CachedKey(n: nat) returns (r: Read<Str>)
      requires Valid() && n < 32
      modifies this`pos, cache
      ensures Valid() && Does(r, pos, cache[..], LookUp(buf, old(pos), n, old(cache[..])))
    {
      hide MatchFrom, SlotIndex, Refill, SlotShape;
      if n > 1 && |buf| < pos + 2 { return Thrown(OutOfRange); }
      var at := SlotOf(buf, pos, n);
      var entry := cache[at];
      assert entry == cache[..][at];
      if entry.Cached? && entry.bytes == n {
        var m := MatchEntry(entry, n);
        if m.OutOfBuffer? { return Thrown(OutOfRange); }
        if m.Hit? {
          HitHasText(entry, buf, pos, n);
          pos := pos + n;
          return Ok(entry.text.value);
        }
      }
      r := RefillKey(n, at);
    }

    /** The miss path of `sg`: record the key in its slot, then decode it. */
    method RefillKey(n: nat, at: nat) returns (r: Read<Str>)
      requires Valid() && n < 32 && at < SLOTS
      modifies this`pos, cache
      ensures Valid() && Does(r, pos, cache[..], Refill(buf, old(pos), n, at, old(cache[..])))
    {
      hide LoopDecode, FillFrom, CellAt;
      FillFromMeans(buf, pos, n, []);
      var cells, ok := FillCells(n);
      if !ok {
        Store(at, Cached(n, cells, None));
        return Thrown(OutOfRange);
      }
      var text := ShortText(n);
      Store(at, Cached(n, cells, Some(text)));
      r := Ok(text);
    }

    method Store(at: nat, slot: Slot)
      requires Valid() && at < SLOTS && SlotShape(slot)
      modifies cache
      ensures Valid() && cache[..] == old(cache[..])[at := slot]
    {
      cache[at] := slot;
    }

    /** Text of fewer than 32 bytes: a fast path first, then the general loop. */
    method ShortText(n: nat) returns (text: Str)
      requires n < 32
      modifies this`pos
      ensures (text, pos) == LoopDecode(buf, old(pos), old(pos) + n)
    {
      hide LoopDecode, Bytes;
      var fast: Option<Str>;
      if n < 16 { fast := ShortAscii(n); } else { fast := LoopAscii(n); }
      if fast.Some? {
        LoopDecodesAscii(buf, old(pos), n);
        return fast.value;
      }
      text := GeneralText(n);
    }

    /** `sg`: the name of the next field. */
    method ReadKey() returns (r: Read<Str>)
      requires Valid()
      modifies this`pos, cache
      ensures Valid() && Does(r, pos, cache[..], CachedName(buf, old(pos), old(cache[..]), platform))
      decreases Left(buf, pos), 1, 0
    {
      hide LookUp, LoopDecode, CachedValue, Shaped;
      if pos < |buf| && 160 <= buf[pos] < 192 {
        var n := buf[pos] - 160;
        pos := pos + 1;
        if CACHED_LENGTH <= |buf| {
          var text := GeneralText(n);
          return Ok(text);
        }
        r := CachedKey(n);
        return;
      }
      var value := ReadValue();
      if value.Thrown? { return Thrown(value.error); }
      var name := PropertyName(value.value, platform);
      r := if name.None? then Thrown(BadProperty) else Ok(name.value);
    }

    /** `a5`: the next value. */
    method ReadValue() returns (r: Read<Value>)
      requires Valid()
      modifies this`pos, cache
      ensures Valid() && Does(r, pos, cache[..], CachedValue(buf, old(pos), old(cache[..]), platform))
      decreases Left(buf, pos), 0, 0
    {
      hide LoopDecode, ParseValue, CachedEntries, CachedItems, Shaped;
      if |buf| <= pos {
        pos := pos + 1;
        return Thrown(EndOfData);
      }
      var t: int := buf[pos];
      if 128 <= t < 144 {
        pos := pos + 1;
        r := ReadEntries(t - 128);
      } else if 144 <= t < 160 {
        pos := pos + 1;
        r := ReadItems(t - 144);
      } else if t == 222 || t == 223 {
        var k := if t == 222 then 2 else 4;
        var count := NumberAt(buf, pos + 1, k);
        if count.None? { return Thrown(OutOfRange); }
        pos := pos + 1 + k;
        r := ReadEntries(count.value);
      } else {
        r := ReadScalar();
      }
    }

    /** The cases of `a5` that read one value without nested values. */
    method ReadScalar() returns (r: Read<Value>)
      requires pos < |buf| && !(128 <= buf[pos] < 160) && buf[pos] != 222 && buf[pos] != 223
      modifies this`pos
      ensures r.Ok? ==> old(pos) < pos
      ensures Reads(r, pos, ParseValue(buf, old(pos), platform))
    {
      hide LoopDecode;
      var t: int := buf[pos];
      pos := pos + 1;
      if t < 128 { return Ok(Number(t)); }
      if t < 192 {
        var text: Str;
        if |buf| < 140 { text := ShortText(t - 160); } else { text := GeneralText(t - 160); }
        return Ok(Text(text));
      }
      if t == 192 { return Ok(Null); }
      if t == 194 { return Ok(Bool(false)); }
      if t == 195 { return Ok(Bool(true)); }
      if t == 202 || t == 203 {
        var k := if t == 202 then 4 else 8;
        if |buf| < pos + k { return Thrown(OutOfRange); }
        r := Ok(Float(buf[pos..pos + k]));
        pos := pos + k;
        return;
      }
      if t == 204 {
        r := Ok(if pos < |buf| then Number(buf[pos]) else Undefined);
        pos := pos + 1;
        return;
      }
      if 205 <= t <= 211 {
        r := ReadInteger(if t < 208 then [2, 4, 8][t - 205] else [1, 2, 4, 8][t - 208], 208 <= t);
        return;
      }
      if t == 218 {
        var n := NumberAt(buf, pos, 2);
        if n.None? { return Thrown(OutOfRange); }
        pos := pos + 2;
        var text := GeneralText(n.value);
        return Ok(Text(text));
      }
      if 224 <= t { return Ok(Number(t - 256)); }
      return Thrown(MissingHandler);
    }

    method ReadInteger(k: nat, signed: bool) returns (r: Read<Value>)
      requires 0 < pos <= |buf|
      modifies this`pos
      ensures r.Ok? ==> old(pos) <= pos
      ensures Reads(r, pos, ParseInteger(buf, old(pos) - 1, k, signed))
    {
      var n := NumberAt(buf, pos, k);
      if n.None? { return Thrown(OutOfRange); }
      pos := pos + k;
      var v := if signed then Signed(n.value, k) else n.value;
      r := Ok(if k == 8 then BigInt(v) else Number(v));
    }

    /** The array loop of `a5`. */
    method ReadItems(n: nat) returns (r: Read<Value>)
      requires Valid()
      modifies this`pos, cache
      ensures Valid() && Does(r, pos, cache[..], CachedItems(buf, old(pos), n, [], old(cache[..]), platform))
      decreases Left(buf, pos), 1, n
    {
      hide CachedValue, Shaped;
      ghost var whole := CachedItems(buf, pos, n, [], cache[..], platform);
      var items: seq<Value> := [];
      for i := 0 to n
        invariant Valid() && old(pos) <= pos
        invariant whole == CachedItems(buf, pos, n - i, items, cache[..], platform)
      {
        var v := ReadValue();
        if v.Thrown? { return v; }
        items := items + [v.value];
      }
      r := Ok(Array(items));
    }

    /** `ss`, which is also the map loop of `a5`. */
    method ReadEntries(n: nat) returns (r: Read<Value>)
      requires Valid()
      modifies this`pos, cache
      ensures Valid() && Does(r, pos, cache[..], CachedEntries(buf, old(pos), n, map[], old(cache[..]), platform))
      decreases Left(buf, pos), 2, n
    {
      hide CachedValue, CachedName, SafeName, Shaped;
      ghost var whole := CachedEntries(buf, pos, n, map[], cache[..], platform);
      var fields: map<Str, Value> := map[];
      for i := 0 to n
        invariant Valid() && old(pos) <= pos
        invariant whole == CachedEntries(buf, pos, n - i, fields, cache[..], platform)
      {
        var name := ReadKey();
        if name.Thrown? { return Thrown(name.error); }
        var v := ReadValue();
        if v.Thrown? { return v; }
        fields := fields[SafeName(name.value) := v.value];
      }
      r := Ok(Object(fields));
    }

    /** `a3` on a fresh buffer: from any state earlier decodes left behind. */
    method Decode(bytes: seq<Byte>) returns (r: Outcome)
      requires Valid()
      modifies this, cache
      // on every buffer, the result and the new cache are those of decoding with the cache
      ensures Valid() && (r, cache[..]) == CachedAll(bytes, old(cache[..]), platform)
      // from a sound cache this is plain decoding, if every short key of the buffer is intact
      ensures Sound(old(cache[..])) ==> Sound(cache[..])
      ensures Sound(old(cache[..])) && ParseValue(bytes, 0, platform).keys.Intact? ==> r == ParseAll(bytes, platform)
      // a short key that reaches past the end makes both reject the buffer
      ensures Sound(old(cache[..])) && ParseValue(bytes, 0, platform).keys.AtEnd? ==>
                && ParseAll(bytes, platform) == Rejected(EndOfData)
                && r in {Rejected(EndOfData), Rejected(OutOfRange)}
      // in particular every encoded message decodes to its meaning
      ensures Sound(old(cache[..])) ==> forall m: Message :: Encodable(m) && bytes == Encode(m) ==>
                r == Decoded(Meaning(m, platform)) && pos == |bytes|
    {
      hide ParseValue, CachedValue, Encode, Meaning, Sound, Shaped;
      ghost var slots := cache[..];
      buf, pos := bytes, 0;
      var value := ReadValue();
      r := if value.Thrown? then Rejected(value.error) else EndCheck(value.value, pos, |bytes|);
      if Sound(slots) {
        AllIsPlain(bytes, slots, platform);
        forall m: Message | Encodable(m) && bytes == Encode(m)
          ensures r == Decoded(Meaning(m, platform)) && pos == |bytes|
        {
          MsgPackRoundTrip.RoundTrip(m, platform);
          ValueIsPlain(bytes, 0, slots, platform);
        }
      }
    }

    /** The key at one place of one buffer, read twice in a row. */
    method ReadKeyTwice(n: nat) returns (first: Read<Str>, next: nat, second: Read<Str>)
      requires Valid() && n < 32 && pos + n <= |buf|
      requires Answer(cache[..][SlotOf(buf, pos, n)], buf, pos, n).Miss?
      modifies this`pos, cache
      ensures Valid() && first == second == Ok(LoopDecode(buf, old(pos), old(pos) + n).0)
      ensures next == LoopDecode(buf, old(pos), old(pos) + n).1 && pos == old(pos) + n
      ensures next == pos <==> SelfContained(buf[old(pos)..old(pos) + n])
    {
      hide LookUp, LoopDecode, SlotIndex, SelfContained, Answer;
      var start := pos;
      LookUpTwice(buf, start, n, cache[..]);
      first := CachedKey(n);
      next := pos;
      pos := start;
      second := CachedKey(n);
    }

    /** One message decoded twice in a row by a new decoder: its key is cut inside a two-byte form, so the
      * first decoding gives a map with the value 2 and the second one is rejected.
      */
    method DecodeCutKeyTwice() returns (first: Outcome, second: Outcome)
      requires Valid() && forall i :: 0 <= i < cache.Length ==> cache[i].Empty?
      modifies this, cache
      ensures first == Decoded(Object(map[[193] := Number(2)])) && second == Rejected(TrailingData)
    {
      hide CachedAll, CachedValue, Sound, ParseValue, Encode;
      CutKeyDecodesTwoWays(cache[..], platform);
      first := Decode(CUT);
      second := Decode(CUT);
    }
  }
}
