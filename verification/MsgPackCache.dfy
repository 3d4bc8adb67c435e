/** The key cache, and decoding with it as functions of the buffer, the cursor and the cache.
  *
  * `LookUp` is what the script does with a short key, on every buffer and for every state of the
  * cache; the rest threads the cache through the readers. Decoding with a sound cache is plain decoding
  * unless a short key is cut inside a multi-byte form.
  */
module MsgPackCache {
  import opened Options
  import opened Utf8Text
  import opened MsgPackFormat
  import opened MsgPackParser

  /** What a reader returns, or the exception it throws. */
  datatype Read<+T> = Ok(value: T) | Thrown(error: Error)

  // ---- the key cache ----

  /** A cached key: its length, its 32-bit words followed by its last bytes, and its text.
    * A cell is `UNDEFINED` when its byte was read past the end of the buffer; an entry whose
    * filling was cut short by an exception has fewer cells and no text.
    */
  datatype Slot = Empty | Cached(bytes: nat, cells: seq<int>, text: Option<Str>)

  const UNDEFINED: int := -1
  const SLOTS: nat := 4096

  /** The cells of the key `k`. */
  function PackedCells(k: seq<Byte>): (r: seq<int>)
    ensures |r| == |k| / 4 + |k| % 4
    ensures forall i :: 0 <= i < |k| / 4 ==> r[i] == WordOf(k, 4 * i)
    ensures forall i :: |k| / 4 <= i < |r| ==> r[i] == k[|k| / 4 * 4 + i - |k| / 4]
  {
    seq(|k| / 4, i requires 0 <= i < |k| / 4 => WordOf(k, 4 * i) as int)
    + seq(|k| % 4, i requires 0 <= i < |k| % 4 => k[|k| / 4 * 4 + i] as int)
  }

  function WordOf(buf: seq<Byte>, at: nat): nat
    requires at + 4 <= |buf|
  {
    FromBytes(buf[at..at + 4])
  }

  /** Equal cells mean equal bytes. */
  lemma PackedCellsAreInjective(a: seq<Byte>, b: seq<Byte>)
    requires |a| == |b| && PackedCells(a) == PackedCells(b)
    ensures a == b
  {
    var p, q := PackedCells(a), PackedCells(b);
    forall j | 0 <= j < |a| ensures a[j] == b[j] {
      if j < |a| / 4 * 4 {
        var i := j / 4;
        assert p[i] == WordOf(a, 4 * i) && q[i] == WordOf(b, 4 * i);
        FromBytesIsInjective(a[4 * i..4 * i + 4], b[4 * i..4 * i + 4]);
        assert a[j] == a[4 * i..4 * i + 4][j % 4] && b[j] == b[4 * i..4 * i + 4][j % 4];
      } else {
        var i := |a| / 4 + (j - |a| / 4 * 4);
        assert p[i] == a[j] && q[i] == b[j];
      }
    }
  }

  /** A complete entry holds the text of the only key that can match it, provided that key's
    * decoding does not depend on what follows it in a buffer.
    */
  ghost predicate SlotOk(s: Slot) {
    s.Cached? && s.text.Some? ==>
      forall k: seq<Byte> {:trigger PackedCells(k)} ::
        |k| == s.bytes && PackedCells(k) == s.cells && SelfContained(k) ==> s.text.value == TextOf(k)
  }

  /** Only an entry with all its words has a text. */
  predicate SlotShape(s: Slot) {
    s.Cached? ==>
      if s.text.None? then |s.cells| < s.bytes / 4 else |s.cells| == s.bytes / 4 + s.bytes % 4
  }

  predicate Shaped(slots: seq<Slot>) {
    |slots| == SLOTS && forall i :: 0 <= i < SLOTS ==> SlotShape(slots[i])
  }

  ghost predicate Sound(slots: seq<Slot>) {
    Shaped(slots) && forall i :: 0 <= i < SLOTS ==> SlotOk(slots[i])
  }

  /** The slot of a key of `n` bytes that starts with the bytes `b` and `c`. */
  function SlotIndex(n: nat, b: Byte, c: Byte): (r: nat)
    requires n < 32
    ensures r < SLOTS
  {
    var first: bv16 := if n > 1 then (b * 256 + c) as bv16 else if n > 0 then b as bv16 else 0;
    ((((n as bv16) << 5) ^ first) & 4095) as nat
  }

  /** The slot that the key of `n` bytes at `pos` belongs to. */
  function SlotOf(buf: seq<Byte>, pos: nat, n: nat): (r: nat)
    requires n < 32
    ensures r < SLOTS
  {
    SlotIndex(n, ByteAt(buf, pos), ByteAt(buf, pos + 1))
  }

  predicate IsHit(slot: Slot, n: nat, cells: seq<int>) {
    slot.Cached? && slot.bytes == n && slot.cells == cells && slot.text.Some?
  }

  datatype Match = Hit | Miss | OutOfBuffer

  /** A result, the cursor after it if there is one, and the cache after it. */
  datatype Step<+T> = Step(result: Read<T>, next: nat, slots: seq<Slot>)

  /** Comparing the cells of an entry with the key of `n` bytes at `pos`, from cell `i` on. A word read
    * past the end of the buffer throws; a byte read past it is `UNDEFINED`, and so is a missing cell.
    */
  function MatchFrom(cells: seq<int>, buf: seq<Byte>, pos: nat, n: nat, i: nat): Match
    requires i <= n / 4 + n % 4
    decreases n / 4 + n % 4 - i
  {
    if i == n / 4 + n % 4 then Hit
    else if i < n / 4 && |buf| < pos + 4 * i + 4 then OutOfBuffer
    else if CellAt(buf, pos, n / 4, i) != (if i < |cells| then cells[i] else UNDEFINED) then Miss
    else MatchFrom(cells, buf, pos, n, i + 1)
  }

  /** Recording the key of `n` bytes at `pos` after the given cells; the flag is false when a word read throws. */
  function FillFrom(buf: seq<Byte>, pos: nat, n: nat, cells: seq<int>): (seq<int>, bool)
    requires |cells| <= n / 4 + n % 4
    decreases n / 4 + n % 4 - |cells|
  {
    if |cells| == n / 4 + n % 4 then (cells, true)
    else if |cells| < n / 4 && |buf| < pos + 4 * |cells| + 4 then (cells, false)
    else FillFrom(buf, pos, n, cells + [CellAt(buf, pos, n / 4, |cells|)])
  }

  lemma {:induction false} MatchFromMeans(cells: seq<int>, buf: seq<Byte>, pos: nat, n: nat, i: nat)
    requires i <= n / 4 + n % 4
    ensures MatchFrom(cells, buf, pos, n, i).Hit? ==>
              && (forall j :: i <= j < n / 4 ==> pos + 4 * j + 4 <= |buf|)
              && forall j :: i <= j < n / 4 + n % 4 ==>
                   CellAt(buf, pos, n / 4, j) == if j < |cells| then cells[j] else UNDEFINED
    ensures pos + n <= |buf| && !MatchFrom(cells, buf, pos, n, i).Hit? ==>
              && MatchFrom(cells, buf, pos, n, i).Miss?
              && exists j :: i <= j < n / 4 + n % 4 && CellAt(buf, pos, n / 4, j) != if j < |cells| then cells[j] else UNDEFINED
    decreases n / 4 + n % 4 - i
  {
    hide CellAt;
    if i < n / 4 + n % 4 {
      MatchFromMeans(cells, buf, pos, n, i + 1);
    }
  }

  lemma {:induction false} FillFromMeans(buf: seq<Byte>, pos: nat, n: nat, cells: seq<int>)
    requires |cells| <= n / 4 + n % 4 && forall j :: 0 <= j < |cells| ==> cells[j] == CellAt(buf, pos, n / 4, j)
    ensures var (filled, ok) := FillFrom(buf, pos, n, cells);
            && (if ok then HasCells(filled, buf, pos, n) else |filled| < n / 4)
            && (pos + n <= |buf| ==> ok)
    decreases n / 4 + n % 4 - |cells|
  {
    hide CellAt;
    if |cells| < n / 4 + n % 4 && !(|cells| < n / 4 && |buf| < pos + 4 * |cells| + 4) {
      FillFromMeans(buf, pos, n, cells + [CellAt(buf, pos, n / 4, |cells|)]);
    }
  }

  /** Only a complete entry can be hit. */
  lemma HitHasText(slot: Slot, buf: seq<Byte>, pos: nat, n: nat)
    requires slot.Cached? && slot.bytes == n && SlotShape(slot) && MatchFrom(slot.cells, buf, pos, n, 0).Hit?
    ensures slot.text.Some? && HasCells(slot.cells, buf, pos, n)
  {
    MatchFromMeans(slot.cells, buf, pos, n, 0);
    assert |slot.cells| < n / 4 ==> CellAt(buf, pos, n / 4, |slot.cells|) != UNDEFINED;
  }

  /** What a cached entry answers for the key of `n` bytes at `pos`. */
  function Answer(slot: Slot, buf: seq<Byte>, pos: nat, n: nat): Match {
    if slot.Cached? && slot.bytes == n then MatchFrom(slot.cells, buf, pos, n, 0) else Miss
  }

  /** The miss path of `sg`: the slot is refilled, and the key is decoded plainly. */
  function Refill(buf: seq<Byte>, pos: nat, n: nat, at: nat, slots: seq<Slot>): (r: Step<Str>)
    requires Shaped(slots) && at < SLOTS && n < 32
    ensures Shaped(r.slots) && (r.result.Ok? ==> pos <= r.next)
  {
    FillFromMeans(buf, pos, n, []);
    var (cells, ok) := FillFrom(buf, pos, n, []);
    if !ok then Step(Thrown(OutOfRange), 0, slots[at := Cached(n, cells, None)])
    else
      var (text, next) := LoopDecode(buf, pos, pos + n);
      Step(Ok(text), next, slots[at := Cached(n, cells, Some(text))])
  }

  /** `sg` for a short key in a short buffer, after its length `n` was read. */
  function LookUp(buf: seq<Byte>, pos: nat, n: nat, slots: seq<Slot>): (r: Step<Str>)
    requires Shaped(slots) && n < 32
    ensures Shaped(r.slots) && (r.result.Ok? ==> pos <= r.next)
  {
    if n > 1 && |buf| < pos + 2 then Step(Thrown(OutOfRange), 0, slots)
    else
      var at := SlotOf(buf, pos, n);
      match Answer(slots[at], buf, pos, n)
      case OutOfBuffer => Step(Thrown(OutOfRange), 0, slots)
      case Hit =>
        HitHasText(slots[at], buf, pos, n);
        Step(Ok(slots[at].text.value), pos + n, slots)
      case Miss => Refill(buf, pos, n, at, slots)
  }

  /** Inside a buffer, decoding a key ends at its last byte exactly when the key is self-contained. */
  lemma OvershootIsNotIntact(buf: seq<Byte>, pos: nat, n: nat)
    requires pos + n <= |buf|
    ensures LoopDecode(buf, pos, pos + n).1 == pos + n <==> SelfContained(buf[pos..pos + n])
  {
    var k := buf[pos..pos + n];
    assert k[0..0 + n] == k;
    LoopDecodeIsLocal(buf, pos, k, 0, n);
  }

  /** Cell `i` of a key at `pos` with `words` whole words, read straight from the buffer. */
  function CellAt(buf: seq<Byte>, pos: nat, words: nat, i: nat): int {
    if i < words then
      if pos + 4 * i + 4 <= |buf| then WordOf(buf, pos + 4 * i) else UNDEFINED
    else
      var at := pos + words * 4 + (i - words);
      if at < |buf| then buf[at] else UNDEFINED
  }

  ghost predicate HasCells(cells: seq<int>, buf: seq<Byte>, pos: nat, n: nat) {
    && |cells| == n / 4 + n % 4
    && forall i :: 0 <= i < |cells| ==> cells[i] == CellAt(buf, pos, n / 4, i)
  }

  /** The cells read from the buffer are those of the key when the buffer holds the whole key, and no
    * key's otherwise.
    */
  lemma CellsOfKey(cells: seq<int>, buf: seq<Byte>, pos: nat, n: nat)
    requires pos <= |buf|
    ensures pos + n <= |buf| ==> (HasCells(cells, buf, pos, n) <==> cells == PackedCells(buf[pos..pos + n]))
    ensures |buf| < pos + n && HasCells(cells, buf, pos, n) ==> UNDEFINED in cells
  {
    hide FromBytes;
    if pos + n <= |buf| {
      var k := buf[pos..pos + n];
      forall i | 0 <= i < n / 4 + n % 4 ensures PackedCells(k)[i] == CellAt(buf, pos, n / 4, i) {
        if i < n / 4 {
          assert 4 * i + 4 <= n;
          SubSlice(buf, pos, n, 4 * i);
        }
      }
    } else if HasCells(cells, buf, pos, n) {
      assert cells[|cells| - 1] == UNDEFINED;
    }
  }

  lemma SubSlice(buf: seq<Byte>, pos: nat, n: nat, i: nat)
    requires pos + n <= |buf| && i + 4 <= n
    ensures buf[pos..pos + n][i..i + 4] == buf[pos + i..pos + i + 4]
  {
    var k, mid := buf[pos..pos + n], buf[pos + i..pos + i + 4];
    assert k == buf[pos..pos + i] + mid + buf[pos + i + 4..pos + n];
  }

  /** A freshly filled slot is sound. */
  lemma FilledSlotOk(buf: seq<Byte>, pos: nat, n: nat, cells: seq<int>)
    requires pos <= |buf| && HasCells(cells, buf, pos, n)
    ensures SlotOk(Cached(n, cells, Some(LoopDecode(buf, pos, pos + n).0)))
  {
    hide FromBytes, LoopStep;
    CellsOfKey(cells, buf, pos, n);
    forall k: seq<Byte> | |k| == n && PackedCells(k) == cells && SelfContained(k)
      ensures LoopDecode(buf, pos, pos + n).0 == TextOf(k)
    {
      assert UNDEFINED !in PackedCells(k);
      PackedCellsAreInjective(k, buf[pos..pos + n]);
      assert k[0..0 + n] == buf[pos..pos + n];
      LoopDecodeIsLocal(buf, pos, k, 0, n);
    }
  }

  /** The entry found in a sound slot for an intact key is what plain decoding gives. */
  lemma HitIsPlain(buf: seq<Byte>, pos: nat, n: nat, slot: Slot)
    requires IntactKey(buf, pos, n) && slot.Cached? && slot.bytes == n && SlotOk(slot) && slot.text.Some?
    requires slot.cells == PackedCells(buf[pos..pos + n])
    ensures LoopDecode(buf, pos, pos + n) == (slot.text.value, pos + n)
  {
    hide PackedCells, LoopStep;
    var k := buf[pos..pos + n];
    assert k[0..0 + n] == k;
    LoopDecodeIsLocal(buf, pos, k, 0, n);
  }

  // ---- decoding with the cache ----

  function CachedName(buf: seq<Byte>, pos: nat, slots: seq<Slot>, platform: Platform): (r: Step<Str>)
    requires Shaped(slots)
    ensures Shaped(r.slots) && (r.result.Ok? ==> pos < |buf| && pos < r.next)
    decreases Left(buf, pos), 1, 0
  {
    if pos < |buf| && 160 <= buf[pos] < 192 then
      var n := buf[pos] - 160;
      if |buf| < CACHED_LENGTH then LookUp(buf, pos + 1, n, slots)
      else
        var (text, next) := LoopDecode(buf, pos + 1, pos + 1 + n);
        Step(Ok(text), next, slots)
    else
      var v := CachedValue(buf, pos, slots, platform);
      match v.result
      case Thrown(error) => Step(Thrown(error), 0, v.slots)
      case Ok(value) =>
        match PropertyName(value, platform)
        case None => Step(Thrown(BadProperty), 0, v.slots)
        case Some(name) => Step(Ok(name), v.next, v.slots)
  }

  function CachedValue(buf: seq<Byte>, pos: nat, slots: seq<Slot>, platform: Platform): (r: Step<Value>)
    requires Shaped(slots)
    ensures Shaped(r.slots) && (r.result.Ok? ==> pos < |buf| && pos < r.next)
    decreases Left(buf, pos), 0, 0
  {
    if |buf| <= pos then Step(Thrown(EndOfData), 0, slots)
    else
      var t: int := buf[pos];
      if 128 <= t < 144 then CachedEntries(buf, pos + 1, t - 128, map[], slots, platform)
      else if 144 <= t < 160 then CachedItems(buf, pos + 1, t - 144, [], slots, platform)
      else if t == 222 || t == 223 then
        var k := if t == 222 then 2 else 4;
        match NumberAt(buf, pos + 1, k)
        case None => Step(Thrown(OutOfRange), 0, slots)
        case Some(n) => CachedEntries(buf, pos + 1 + k, n, map[], slots, platform)
      else
        match ParseValue(buf, pos, platform)
        case Failed(error, _) => Step(Thrown(error), 0, slots)
        case Parsed(value, next, _) => Step(Ok(value), next, slots)
  }

  function CachedItems(buf: seq<Byte>, pos: nat, n: nat, items: seq<Value>, slots: seq<Slot>, platform: Platform): (r: Step<Value>)
    requires Shaped(slots)
    ensures Shaped(r.slots) && (r.result.Ok? ==> pos <= r.next)
    decreases Left(buf, pos), 1, n
  {
    if n == 0 then Step(Ok(Array(items)), pos, slots)
    else
      var v := CachedValue(buf, pos, slots, platform);
      match v.result
      case Thrown(error) => Step(Thrown(error), 0, v.slots)
      case Ok(value) => CachedItems(buf, v.next, n - 1, items + [value], v.slots, platform)
  }

  function CachedEntries(buf: seq<Byte>, pos: nat, n: nat, fields: map<Str, Value>, slots: seq<Slot>, platform: Platform): (r: Step<Value>)
    requires Shaped(slots)
    ensures Shaped(r.slots) && (r.result.Ok? ==> pos <= r.next)
    decreases Left(buf, pos), 2, n
  {
    if n == 0 then Step(Ok(Object(fields)), pos, slots)
    else
      var key := CachedName(buf, pos, slots, platform);
      match key.result
      case Thrown(error) => Step(Thrown(error), 0, key.slots)
      case Ok(name) =>
        var v := CachedValue(buf, key.next, key.slots, platform);
        match v.result
        case Thrown(error) => Step(Thrown(error), 0, v.slots)
        case Ok(value) => CachedEntries(buf, v.next, n - 1, fields[SafeName(name) := value], v.slots, platform)
  }

  /** `a3` on a fresh buffer with the cache that earlier decodes left. */
  function CachedAll(buf: seq<Byte>, slots: seq<Slot>, platform: Platform): (r: (Outcome, seq<Slot>))
    requires Shaped(slots)
    ensures Shaped(r.1)
  {
    var v := CachedValue(buf, 0, slots, platform);
    match v.result
    case Thrown(error) => (Rejected(error), v.slots)
    case Ok(value) => (EndCheck(value, v.next, |buf|), v.slots)
  }

  // ---- when the cache is used ----

  /** Buffers of 180 bytes and more leave the cache as it is. */
  lemma LongBuffersLeaveTheCache(buf: seq<Byte>, slots: seq<Slot>, platform: Platform)
    requires Shaped(slots) && 180 <= |buf|
    ensures CachedAll(buf, slots, platform).1 == slots
  {
    hide CachedValue, Shaped;
    LongValue(buf, 0, slots, platform);
  }

  lemma {:induction false} LongValue(buf: seq<Byte>, pos: nat, slots: seq<Slot>, platform: Platform)
    requires Shaped(slots) && 180 <= |buf|
    ensures CachedValue(buf, pos, slots, platform).slots == slots
    decreases Left(buf, pos), 0, 0
  {
    hide ParseValue, CachedEntries, CachedItems, Shaped, FromBytes;
    if pos < |buf| {
      var t: int := buf[pos];
      if 128 <= t < 144 {
        LongEntries(buf, pos + 1, t - 128, map[], slots, platform);
      } else if 144 <= t < 160 {
        LongItems(buf, pos + 1, t - 144, [], slots, platform);
      } else if t == 222 || t == 223 {
        var k := if t == 222 then 2 else 4;
        var n := NumberAt(buf, pos + 1, k);
        if n.Some? { LongEntries(buf, pos + 1 + k, n.value, map[], slots, platform); }
      }
    }
  }

  lemma {:induction false} LongItems(buf: seq<Byte>, pos: nat, n: nat, items: seq<Value>, slots: seq<Slot>, platform: Platform)
    requires Shaped(slots) && 180 <= |buf|
    ensures CachedItems(buf, pos, n, items, slots, platform).slots == slots
    decreases Left(buf, pos), 1, n
  {
    hide CachedValue, Shaped;
    if n != 0 {
      LongValue(buf, pos, slots, platform);
      var v := CachedValue(buf, pos, slots, platform);
      if v.result.Ok? { LongItems(buf, v.next, n - 1, items + [v.result.value], slots, platform); }
    }
  }

  lemma {:induction false} LongEntries(buf: seq<Byte>, pos: nat, n: nat, fields: map<Str, Value>, slots: seq<Slot>, platform: Platform)
    requires Shaped(slots) && 180 <= |buf|
    ensures CachedEntries(buf, pos, n, fields, slots, platform).slots == slots
    decreases Left(buf, pos), 2, n
  {
    hide CachedValue, CachedName, SafeName, Shaped;
    if n != 0 {
      LongName(buf, pos, slots, platform);
      var key := CachedName(buf, pos, slots, platform);
      if key.result.Ok? {
        LongValue(buf, key.next, slots, platform);
        var v := CachedValue(buf, key.next, slots, platform);
        if v.result.Ok? {
          LongEntries(buf, v.next, n - 1, fields[SafeName(key.result.value) := v.result.value], slots, platform);
        }
      }
    }
  }

  lemma {:induction false} LongName(buf: seq<Byte>, pos: nat, slots: seq<Slot>, platform: Platform)
    requires Shaped(slots) && 180 <= |buf|
    ensures CachedName(buf, pos, slots, platform).slots == slots
    decreases Left(buf, pos), 1, 0
  {
    hide CachedValue, LookUp, LoopDecode, Shaped;
    if !(pos < |buf| && 160 <= buf[pos] < 192) { LongValue(buf, pos, slots, platform); }
  }

  /** In a shorter buffer every short key that was read is in the cache afterwards. */
  lemma ShortBuffersUseTheCache(buf: seq<Byte>, pos: nat, slots: seq<Slot>, platform: Platform)
    requires Shaped(slots) && pos < |buf| < 180 && 160 <= buf[pos] < 192 && pos + 1 + (buf[pos] - 160) <= |buf|
    ensures var n, s := buf[pos] - 160, CachedName(buf, pos, slots, platform).slots;
            Answer(s[SlotOf(buf, pos + 1, n)], buf, pos + 1, n).Hit?
  {
    hide LoopDecode, SlotIndex, MatchFrom, FillFrom, CellAt;
    var n := buf[pos] - 160;
    var slot := slots[SlotOf(buf, pos + 1, n)];
    if slot.Cached? { MatchFromMeans(slot.cells, buf, pos + 1, n, 0); }
    FillFromMeans(buf, pos + 1, n, []);
    var (cells, ok) := FillFrom(buf, pos + 1, n, []);
    RefilledSlotAnswers(buf, pos + 1, n, cells);
  }

  // ---- when the cache is transparent ----

  lemma RefillKeepsSound(buf: seq<Byte>, pos: nat, n: nat, at: nat, slots: seq<Slot>)
    requires Sound(slots) && at < SLOTS && n < 32 && pos <= |buf|
    ensures Sound(Refill(buf, pos, n, at, slots).slots)
    ensures pos + n <= |buf| ==>
              && Refill(buf, pos, n, at, slots).result == Ok(LoopDecode(buf, pos, pos + n).0)
              && Refill(buf, pos, n, at, slots).next == LoopDecode(buf, pos, pos + n).1
  {
    hide PackedCells, LoopDecode, FillFrom, HasCells;
    FillFromMeans(buf, pos, n, []);
    var (cells, ok) := FillFrom(buf, pos, n, []);
    if ok { FilledSlotOk(buf, pos, n, cells); }
  }

  /** Looking a key up keeps the cache sound, and for an intact key gives what plain decoding gives. */
  lemma LookUpIsPlain(buf: seq<Byte>, pos: nat, n: nat, slots: seq<Slot>)
    requires Sound(slots) && n < 32 && pos <= |buf|
    ensures Sound(LookUp(buf, pos, n, slots).slots)
    ensures IntactKey(buf, pos, n) ==>
              && LookUp(buf, pos, n, slots).result == Ok(LoopDecode(buf, pos, pos + n).0)
              && LookUp(buf, pos, n, slots).next == LoopDecode(buf, pos, pos + n).1 == pos + n
  {
    hide PackedCells, LoopDecode, SlotIndex, MatchFrom, HasCells, Refill, SlotOk;
    var at := SlotOf(buf, pos, n);
    var slot := slots[at];
    RefillKeepsSound(buf, pos, n, at, slots);
    if IntactKey(buf, pos, n) {
      OvershootIsNotIntact(buf, pos, n);
      if slot.Cached? && slot.bytes == n {
        MatchFromMeans(slot.cells, buf, pos, n, 0);
        CellsOfKey(slot.cells, buf, pos, n);
        if MatchFrom(slot.cells, buf, pos, n, 0).Hit? {
          HitHasText(slot, buf, pos, n);
          HitIsPlain(buf, pos, n, slot);
        }
      }
    }
  }

  /** A look-up that returns has read the whole key. */
  lemma LookUpReadsAll(buf: seq<Byte>, pos: nat, n: nat, slots: seq<Slot>)
    requires Shaped(slots) && n < 32
    ensures var s := LookUp(buf, pos, n, slots); if s.result.Ok? then pos + n <= s.next else s.result == Thrown(OutOfRange)
    ensures pos + n <= LoopDecode(buf, pos, pos + n).1
  {
    hide MatchFrom, FillFrom, SlotIndex;
  }

  lemma SoundIsShaped(slots: seq<Slot>)
    requires Sound(slots)
    ensures Shaped(slots)
  {}

  /** The step is what plain decoding gives, or both run out of the buffer, unless a key was cut. */
  predicate Agrees(s: Step<Value>, p: Parsed) {
    match p.keys
    case Cut => true
    case AtEnd => p.Failed? && p.error == EndOfData && RunsOut(s.result)
    case Intact =>
      match p
      case Parsed(value, next, _) => s.result == Ok(value) && s.next == next
      case Failed(error, _) => s.result == Thrown(error)
  }

  /** The reader ran out of the buffer; reading a word of a key past the end throws another error. */
  predicate RunsOut<T>(r: Read<T>) {
    r == Thrown(EndOfData) || r == Thrown(OutOfRange)
  }

  predicate AgreesKey(s: Step<Str>, p: ParsedKey, size: nat) {
    match p.keys
    case Cut => true
    case AtEnd =>
      && (if p.Key? then size <= p.next else p.error == EndOfData && s.result.Thrown?)
      && (if s.result.Ok? then size <= s.next else RunsOut(s.result))
    case Intact =>
      match p
      case Key(name, next, _) => s.result == Ok(name) && s.next == next
      case KeyFailed(error, _) => s.result == Thrown(error)
  }

  /** Decoding with a sound cache keeps it sound and agrees with plain decoding, unless a key was cut. */
  lemma {:induction false} ValueIsPlain(buf: seq<Byte>, pos: nat, slots: seq<Slot>, platform: Platform)
    requires Sound(slots)
    ensures Sound(CachedValue(buf, pos, slots, platform).slots)
    ensures Agrees(CachedValue(buf, pos, slots, platform), ParseValue(buf, pos, platform))
    decreases Left(buf, pos), 0, 0
  {
    hide Sound, ParseEntries, ParseItems, CachedEntries, CachedItems, ReadText, LoopDecode, ParseInteger, NumberAt;
    if pos < |buf| {
      var t: int := buf[pos];
      if 128 <= t < 144 {
        EntriesArePlain(buf, pos + 1, t - 128, map[], slots, platform);
      } else if 144 <= t < 160 {
        ItemsArePlain(buf, pos + 1, t - 144, [], slots, platform);
      } else if t == 222 || t == 223 {
        var k := if t == 222 then 2 else 4;
        var n := NumberAt(buf, pos + 1, k);
        if n.Some? { EntriesArePlain(buf, pos + 1 + k, n.value, map[], slots, platform); }
      }
    }
  }

  lemma {:induction false} ItemsArePlain(buf: seq<Byte>, pos: nat, n: nat, items: seq<Value>, slots: seq<Slot>, platform: Platform)
    requires Sound(slots)
    ensures Sound(CachedItems(buf, pos, n, items, slots, platform).slots)
    ensures Agrees(CachedItems(buf, pos, n, items, slots, platform), ParseItems(buf, pos, n, items, Intact, platform))
    decreases Left(buf, pos), 1, n
  {
    hide Sound, ParseValue, CachedValue;
    SoundIsShaped(slots);
    if n != 0 {
      ValueIsPlain(buf, pos, slots, platform);
      var v := CachedValue(buf, pos, slots, platform);
      if v.result.Ok? {
        ItemsArePlain(buf, v.next, n - 1, items + [v.result.value], v.slots, platform);
      }
    }
  }

  lemma {:induction false} NameIsPlain(buf: seq<Byte>, pos: nat, slots: seq<Slot>, platform: Platform)
    requires Sound(slots)
    ensures Sound(CachedName(buf, pos, slots, platform).slots)
    ensures AgreesKey(CachedName(buf, pos, slots, platform), ParseKey(buf, pos, platform), |buf|)
    decreases Left(buf, pos), 1, 0
  {
    hide Sound, ParseValue, CachedValue, LookUp, LoopDecode, IntactKey;
    if pos < |buf| && 160 <= buf[pos] < 192 {
      LookUpIsPlain(buf, pos + 1, buf[pos] - 160, slots);
      SoundIsShaped(slots);
      LookUpReadsAll(buf, pos + 1, buf[pos] - 160, slots);
    } else {
      ValueIsPlain(buf, pos, slots, platform);
    }
  }

  lemma NothingPastTheEnd(buf: seq<Byte>, pos: nat, slots: seq<Slot>, platform: Platform)
    requires Shaped(slots)
    ensures |buf| <= pos ==> ParseValue(buf, pos, platform) == Failed(EndOfData, Intact)
    ensures |buf| <= pos ==> CachedValue(buf, pos, slots, platform).result == Thrown(EndOfData)
  {}

  lemma {:induction false} EntriesArePlain(buf: seq<Byte>, pos: nat, n: nat, fields: map<Str, Value>, slots: seq<Slot>, platform: Platform)
    requires Sound(slots)
    ensures Sound(CachedEntries(buf, pos, n, fields, slots, platform).slots)
    ensures Agrees(CachedEntries(buf, pos, n, fields, slots, platform), ParseEntries(buf, pos, n, fields, Intact, platform))
    decreases Left(buf, pos), 2, n
  {
    hide Sound, ParseValue, ParseKey, CachedValue, CachedName, SafeName;
    SoundIsShaped(slots);
    if n != 0 {
      var p := ParseKey(buf, pos, platform);
      if p.Key? { NothingPastTheEnd(buf, p.next, slots, platform); }
      NameIsPlain(buf, pos, slots, platform);
      var key := CachedName(buf, pos, slots, platform);
      if key.result.Ok? {
        ValueIsPlain(buf, key.next, key.slots, platform);
        NothingPastTheEnd(buf, key.next, key.slots, platform);
        var v := CachedValue(buf, key.next, key.slots, platform);
        if v.result.Ok? {
          EntriesArePlain(buf, v.next, n - 1, fields[SafeName(key.result.value) := v.result.value], v.slots, platform);
        }
      }
    }
  }

  /** With a sound cache a whole buffer is decoded plainly, or rejected as plain decoding rejects it, unless a
    * short key with bytes after it is cut.
    */
  lemma AllIsPlain(buf: seq<Byte>, slots: seq<Slot>, platform: Platform)
    requires Sound(slots)
    ensures Sound(CachedAll(buf, slots, platform).1)
    ensures ParseValue(buf, 0, platform).keys.Intact? ==> CachedAll(buf, slots, platform).0 == ParseAll(buf, platform)
    ensures ParseValue(buf, 0, platform).keys.AtEnd? ==>
              && ParseAll(buf, platform) == Rejected(EndOfData)
              && CachedAll(buf, slots, platform).0 in {Rejected(EndOfData), Rejected(OutOfRange)}
  {
    hide Sound, ParseValue, CachedValue;
    ValueIsPlain(buf, 0, slots, platform);
  }

  // ---- keys that are cut ----

  lemma RefilledSlotAnswers(buf: seq<Byte>, pos: nat, n: nat, cells: seq<int>)
    requires pos + n <= |buf| && HasCells(cells, buf, pos, n)
    ensures MatchFrom(cells, buf, pos, n, 0).Hit?
  {
    MatchFromMeans(cells, buf, pos, n, 0);
  }

  /** A key that lies in the buffer and is not in the cache, looked up twice in a row: the text is the
    * same, but the second cursor is always right after the key, and the first one only if the key's
    * decoding ends there.
    */
  lemma LookUpTwice(buf: seq<Byte>, pos: nat, n: nat, slots: seq<Slot>)
    requires Shaped(slots) && n < 32 && pos + n <= |buf|
    requires Answer(slots[SlotOf(buf, pos, n)], buf, pos, n).Miss?
    ensures var first := LookUp(buf, pos, n, slots);
            var second := LookUp(buf, pos, n, first.slots);
            && first.result == second.result == Ok(LoopDecode(buf, pos, pos + n).0)
            && first.next == LoopDecode(buf, pos, pos + n).1 && second.next == pos + n
            && (first.next == second.next <==> SelfContained(buf[pos..pos + n]))
  {
    hide LoopDecode, MatchFrom, FillFrom, CellAt, SlotIndex, SelfContained;
    FillFromMeans(buf, pos, n, []);
    var (cells, ok) := FillFrom(buf, pos, n, []);
    RefilledSlotAnswers(buf, pos, n, cells);
    OvershootIsNotIntact(buf, pos, n);
  }

  /** The map `81 A1 C3 01 02`, whose key is cut inside a two-byte form. */
  const CUT: seq<Byte> := [0x81, 0xA1, 0xC3, 0x01, 0x02]

  /** A key cut inside a two-byte form: plain decoding takes the byte after the key too, so a first
    * reading of this key leaves the cursor one byte further than a second one.
    */
  lemma TruncatedKeyOvershoots()
    ensures LoopDecode(CUT, 2, 3) == ([193], 4) && !SelfContained(CUT[2..3])
  {
    assert LoopStep(CUT, 2) == ([193], 4);
    assert LoopDecode(CUT, 4, 3) == ([], 4);
    var units: Str := [193];
    assert units + [] == units;
    OvershootIsNotIntact(CUT, 2, 1);
  }

  /** Decoded with an empty cache it is a map with the value 2; decoded again, it is rejected. */
  lemma CutKeyDecodesTwoWays(slots: seq<Slot>, platform: Platform)
    requires Shaped(slots) && forall i :: 0 <= i < SLOTS ==> slots[i].Empty?
    ensures var first := CachedAll(CUT, slots, platform);
            && first.0 == Decoded(Object(map[[193] := Number(2)]))
            && CachedAll(CUT, first.1, platform).0 == Rejected(TrailingData)
  {
    hide LookUp, LoopDecode, SlotIndex, ParseEntries, ParseItems;
    var first := LookUp(CUT, 2, 1, slots);
    CutKeyLookUp(slots);
  }

  lemma CutKeyLookUp(slots: seq<Slot>)
    requires Shaped(slots) && forall i :: 0 <= i < SLOTS ==> slots[i].Empty?
    ensures var first := LookUp(CUT, 2, 1, slots);
            && first.result == Ok([193]) && first.next == 4
            && LookUp(CUT, 2, 1, first.slots).result == Ok([193]) && LookUp(CUT, 2, 1, first.slots).next == 3
  {
    hide LookUp, LoopDecode, SlotIndex;
    LookUpTwice(CUT, 2, 1, slots);
    TruncatedKeyOvershoots();
  }

}
