/** Relocation information: the records, the byte encoding they are stored in, the writer that
    produces it towards lower addresses and the iterator that reads it back through a mode mask.

    An encoding is described in reading order, as a sequence of items.  A record takes one to
    three items, an item takes two bytes or more (one for the two most common modes).  All bit
    packing is written as arithmetic on bytes: "b << n | t" is b * 2^n + t where t < 2^n. */
module RelocInfo {

  type Byte = x: int | 0 <= x < 256

  datatype Mode =
    | ConstructCall | CodeTargetContext | DebugBreak | CodeTarget | EmbeddedObject
    | GlobalPropertyCell | RuntimeEntry | JsReturn | Comment | Position | StatementPosition
    | DebugBreakSlot | ExternalReference | InternalReference

  function Ordinal(m: Mode): (n: nat)
    ensures n < 14
  {
    match m
    case ConstructCall => 0
    case CodeTargetContext => 1
    case DebugBreak => 2
    case CodeTarget => 3
    case EmbeddedObject => 4
    case GlobalPropertyCell => 5
    case RuntimeEntry => 6
    case JsReturn => 7
    case Comment => 8
    case Position => 9
    case StatementPosition => 10
    case DebugBreakSlot => 11
    case ExternalReference => 12
    case InternalReference => 13
  }

  function ModeAt(n: nat): Mode
    requires n < 14
  {
    match n
    case 0 => ConstructCall
    case 1 => CodeTargetContext
    case 2 => DebugBreak
    case 3 => CodeTarget
    case 4 => EmbeddedObject
    case 5 => GlobalPropertyCell
    case 6 => RuntimeEntry
    case 7 => JsReturn
    case 8 => Comment
    case 9 => Position
    case 10 => StatementPosition
    case 11 => DebugBreakSlot
    case 12 => ExternalReference
    case _ => InternalReference
  }

  /** A mode is found by its number. */
  lemma ModeNumbers(m: Mode)
    ensures ModeAt(Ordinal(m)) == m
  {
  }

  predicate IsPosition(m: Mode) { m == Position || m == StatementPosition }

  predicate IsDebug(m: Mode) { IsPosition(m) || m == Comment }

  /** A mask is the unsigned value of mode_mask; bit k stands for the mode with ordinal k. */
  type Mask = m: nat | m < 0x1_0000_0000
  const ALL_MODES: Mask := 0xFFFF_FFFF

  function ModeMask(m: Mode): (n: nat)
    ensures n > 0
  {
    match m
    case ConstructCall => 0x1
    case CodeTargetContext => 0x2
    case DebugBreak => 0x4
    case CodeTarget => 0x8
    case EmbeddedObject => 0x10
    case GlobalPropertyCell => 0x20
    case RuntimeEntry => 0x40
    case JsReturn => 0x80
    case Comment => 0x100
    case Position => 0x200
    case StatementPosition => 0x400
    case DebugBreakSlot => 0x800
    case ExternalReference => 0x1000
    case InternalReference => 0x2000
  }

  function Pow2(n: nat): nat { if n == 0 then 1 else 2 * Pow2(n - 1) }

  /** The number of a mode is the number of its bit in a mask. */
  lemma ModeBits(m: Mode)
    ensures ModeMask(m) == Pow2(Ordinal(m))
  {
    assert Pow2(4) == 16 && Pow2(8) == 256 && Pow2(12) == 4096;
  }

  predicate Wanted(mask: Mask, m: Mode) { mask / ModeMask(m) % 2 == 1 }

  /** mask & kPositionMask, the bits 9 and 10 */
  predicate WantsPositions(mask: Mask) { mask / 0x200 % 4 != 0 }

  /** mask & kDebugMask, the bits 8 to 10 */
  predicate WantsDebug(mask: Mask) { mask / 0x100 % 8 != 0 }

  /** The two mask tests that decide whether data bytes are read at all agree with the modes. */
  lemma MaskGroups(mask: Mask)
    ensures WantsPositions(mask) <==> Wanted(mask, Position) || Wanted(mask, StatementPosition)
    ensures WantsDebug(mask) <==> WantsPositions(mask) || Wanted(mask, Comment)
  {
    var n := mask / 0x100;
    assert mask / 0x200 == n / 2 && mask / 0x400 == n / 2 / 2;
    LowBits(n / 2);
    LowBits3(n);
  }

  lemma LowBits(n: nat)
    ensures n % 4 != 0 <==> n % 2 == 1 || n / 2 % 2 == 1
  {
  }

  lemma LowBits3(n: nat)
    ensures n % 8 != 0 <==> n % 2 == 1 || n / 2 % 4 != 0
  {
  }

  lemma AllModesWanted(m: Mode)
    ensures Wanted(ALL_MODES, m)
  {
    var n := ModeMask(m);
    assert n in {0x1, 0x2, 0x4, 0x8, 0x10, 0x20, 0x40, 0x80, 0x100, 0x200, 0x400, 0x800, 0x1000, 0x2000};
  }

  lemma NoModeWanted(m: Mode)
    ensures !Wanted(0, m)
  {
  }

  /** kCodeTargetMask, the bits up to that of the last code target */
  const CODE_TARGET_MASK: Mask := 0xF

  /** The order of the modes: the mask for code targets has the four modes of calls and no other, and the
      modes that concern the garbage collector are the ones up to the property cells. */
  lemma ModeOrder(m: Mode)
    ensures Wanted(CODE_TARGET_MASK, m) <==> m in {ConstructCall, CodeTargetContext, DebugBreak, CodeTarget}
    ensures Ordinal(m) <= Ordinal(CodeTarget) <==> m in {ConstructCall, CodeTargetContext, DebugBreak, CodeTarget}
    ensures Ordinal(m) <= Ordinal(GlobalPropertyCell) <==>
            m in {ConstructCall, CodeTargetContext, DebugBreak, CodeTarget, EmbeddedObject, GlobalPropertyCell}
  {
  }

  datatype Reloc = Reloc(pc: int, mode: Mode, data: int)

  // ---------------------------------------------------------------- machine words

  const PC_WRAP := 0x1_0000_0000   // pc deltas are uint32_t

  predicate WordSize(w: nat) { w == 4 || w == 8 }

  function Pow256(n: nat): (p: nat)
    ensures p > 0
  {
    if n == 0 then 1 else 256 * Pow256(n - 1)
  }

  /** Number of values of an intptr_t of w bytes. */
  function Range(w: nat): nat
    requires WordSize(w)
  {
    if w == 4 then 0x1_0000_0000 else 0x1_0000_0000_0000_0000
  }

  predicate IsWord(x: int, w: nat)
    requires WordSize(w)
  {
    -(Range(w) / 2) <= x < Range(w) / 2
  }

  /** Two's complement wrap-around to w bytes. */
  function Wrap(x: int, w: nat): (r: int)
    requires WordSize(w)
    ensures IsWord(r, w)
    ensures IsWord(x, w) ==> r == x
  {
    if w == 4 then (x + 0x8000_0000) % 0x1_0000_0000 - 0x8000_0000
    else (x + 0x8000_0000_0000_0000) % 0x1_0000_0000_0000_0000 - 0x8000_0000_0000_0000
  }

  lemma ModUnique(a: int, q: int, r: int, m: int)
    requires 0 <= r < m && a == q * m + r
    ensures a % m == r
  {
    var d := a / m - q;
    assert d * m == r - a % m;
    MultipleInside(d, m);
  }

  lemma MultipleInside(d: int, m: int)
    requires -m < d * m < m
    ensures d == 0
  {
  }

  lemma WrapCongruent(x: int, k: int, w: nat)
    requires WordSize(w)
    ensures Wrap(x + k * Range(w), w) == Wrap(x, w)
  {
    var m, y := Range(w), x + Range(w) / 2;
    assert y == (y / m) * m + y % m;
    assert y + k * m == (y / m + k) * m + y % m;
    ModUnique(y + k * m, y / m + k, y % m, m);
  }

  lemma WrapQuotient(x: int, w: nat) returns (k: int)
    requires WordSize(w)
    ensures Wrap(x, w) == x + k * Range(w)
  {
    k := -((x + Range(w) / 2) / Range(w));
    if w == 4 { } else { }
  }

  /** Adding the wrapped difference to a word, with wrap-around, gives the other word. */
  lemma WrapDifference(last: int, data: int, w: nat)
    requires WordSize(w) && IsWord(data, w)
    ensures Wrap(last + Wrap(data - last, w), w) == data
  {
    var k := WrapQuotient(data - last, w);
    WrapCongruent(data, k, w);
    assert last + (data - last + k * Range(w)) == data + k * Range(w);
  }

  /** The n low bytes of x, lowest first; "/" floors, like the arithmetic right shift. */
  function LeBytes(x: int, n: nat): (s: seq<Byte>)
    ensures |s| == n
    decreases n
  {
    if n == 0 then [] else [x % 256] + LeBytes(x / 256, n - 1)
  }

  function LeValue(s: seq<Byte>): nat {
    if s == [] then 0 else s[0] + 256 * LeValue(s[1..])
  }

  lemma LeBytesStep(x: int, n: nat)
    requires n > 0
    ensures LeBytes(x, n) == [x % 256] + LeBytes(x / 256, n - 1)
  {
  }

  lemma {:induction false} LeValueAppend(s: seq<Byte>, b: Byte)
    ensures LeValue(s + [b]) == LeValue(s) + b * Pow256(|s|)
  {
    if s == [] {
      assert [b][1..] == [];
    } else {
      assert (s + [b])[1..] == s[1..] + [b];
      LeValueAppend(s[1..], b);
      assert 256 * (b * Pow256(|s| - 1)) == b * Pow256(|s|);
    }
  }

  lemma {:induction false} LeBytesCongruent(x: int, n: nat) returns (k: int)
    ensures LeValue(LeBytes(x, n)) == x + k * Pow256(n)
    decreases n
  {
    if n == 0 {
      k := -x;
    } else {
      k := LeBytesCongruent(x / 256, n - 1);
      assert LeBytes(x, n)[1..] == LeBytes(x / 256, n - 1);
      assert 256 * (k * Pow256(n - 1)) == k * Pow256(n);
    }
  }

  lemma WordBytes(w: nat)
    requires WordSize(w)
    ensures Pow256(w) == Range(w)
  {
    assert Pow256(4) == 0x1_0000_0000;
    if w == 8 {
      assert Pow256(6) == 0x1_0000_0000_0000;
    }
  }

  /** A data delta survives being written byte by byte and added back. */
  lemma DataBytesRoundTrip(c: int, delta: int, w: nat)
    requires WordSize(w)
    ensures Wrap(c + LeValue(LeBytes(delta, w)), w) == Wrap(c + delta, w)
  {
    var k := LeBytesCongruent(delta, w);
    WordBytes(w);
    WrapCongruent(c + delta, k, w);
    assert c + LeValue(LeBytes(delta, w)) == c + delta + k * Range(w);
  }

  // ---------------------------------------------------------------- items

  datatype Item =
    | VarJump(jump: nat)                              // pc += jump * 64
    | Jump(small: nat)                                // pc += small
    | Tagged(codeTarget: bool, small: nat)            // one byte: code target or embedded object
    | SmallPosition(small: nat, statement: bool, delta: int)
    | Plain(small: nat, mode: Mode)                   // a mode without data
    | Data(kind: Mode, delta: int)                    // a data jump

  predicate ItemOk(i: Item, w: nat)
    requires WordSize(w)
  {
    match i
    case VarJump(j) => 0 < j < 0x400_0000
    case Jump(s) => s < 64
    case Tagged(_, s) => s < 64
    case SmallPosition(s, _, d) => s < 64 && -64 <= d < 64
    case Plain(s, m) => s < 64
    case Data(k, d) => IsDebug(k) && IsWord(d, w)
  }

  /** The bits of a pc jump, seven a byte, lowest first; the lowest bit marks the last byte. */
  function Chunks(j: nat): (s: seq<Byte>)
    requires 0 < j
    ensures |s| > 0
  {
    if j < 128 then [2 * j + 1] else [2 * (j % 128)] + Chunks(j / 128)
  }

  /** The same before the last byte is marked. */
  function RawChunks(j: nat): seq<Byte> {
    if j == 0 then [] else [2 * (j % 128)] + RawChunks(j / 128)
  }

  function MarkLast(s: seq<Byte>): seq<Byte>
    requires s != [] && s[|s| - 1] < 255
  {
    s[..|s| - 1] + [s[|s| - 1] + 1]
  }

  lemma {:induction false} MarkedChunks(j: nat)
    requires 0 < j
    ensures var raw := RawChunks(j);
            raw != [] && raw[|raw| - 1] < 255 && MarkLast(raw) == Chunks(j) && |raw| == |Chunks(j)|
  {
    if j >= 128 {
      MarkedChunks(j / 128);
      var raw := RawChunks(j / 128);
      assert RawChunks(j)[..|raw|] == [2 * (j % 128)] + raw[..|raw| - 1];
    } else {
      assert RawChunks(j / 128) == [];
    }
  }

  lemma FirstChunk(j: nat, tail: seq<Byte>)
    requires 0 < j
    ensures var s := Chunks(j) + tail;
            && s[0] == (if j < 128 then 2 * j + 1 else 2 * (j % 128))
            && s[1..] == if j < 128 then tail else Chunks(j / 128) + tail
  {
  }

  function DebugTag(m: Mode): Byte
    requires IsDebug(m)
  {
    if m == Position then 0 else if m == StatementPosition then 1 else 2
  }

  function DebugMode(tag: int): Mode {
    if tag == 1 then StatementPosition else if tag == 0 then Position else Comment
  }

  const PC_JUMP_TAG := 15
  const DATA_JUMP_TAG := 14

  function ExtraTag(extra: nat, top: nat): Byte
    requires extra < 16 && top < 4
  {
    top * 64 + extra * 4 + 3
  }

  function Encode(i: Item, w: nat): (s: seq<Byte>)
    requires WordSize(w) && ItemOk(i, w)
    ensures |s| > 0
  {
    match i
    case VarJump(j) => [ExtraTag(PC_JUMP_TAG, 1)] + Chunks(j)
    case Jump(s) => [ExtraTag(PC_JUMP_TAG, 0), s]
    case Tagged(code, s) => [s * 4 + if code then 1 else 0]
    case SmallPosition(s, st, d) => [s * 4 + 2, (d * 2 + if st then 1 else 0) % 256]
    case Plain(s, m) => [ExtraTag(Ordinal(m), 0), s]
    case Data(k, d) => [ExtraTag(DATA_JUMP_TAG, DebugTag(k))] + LeBytes(d, w)
  }

  predicate AllOk(items: seq<Item>, w: nat)
    requires WordSize(w)
  {
    forall i :: 0 <= i < |items| ==> ItemOk(items[i], w)
  }

  function EncodeAll(items: seq<Item>, w: nat): seq<Byte>
    requires WordSize(w) && AllOk(items, w)
  {
    if items == [] then [] else Encode(items[0], w) + EncodeAll(items[1..], w)
  }

  lemma {:induction false} EncodeAllConcat(a: seq<Item>, b: seq<Item>, w: nat)
    requires WordSize(w) && AllOk(a, w) && AllOk(b, w)
    ensures AllOk(a + b, w) && EncodeAll(a + b, w) == EncodeAll(a, w) + EncodeAll(b, w)
  {
    hide Encode, ItemOk;
    if a == [] {
      assert a + b == b;
    } else {
      EncodeAllConcat(a[1..], b, w);
      var head, mid, last := Encode(a[0], w), EncodeAll(a[1..], w), EncodeAll(b, w);
      assert (a + b)[0] == a[0] && (a + b)[1..] == a[1..] + b;
      assert head + (mid + last) == (head + mid) + last;
    }
  }

  // ---------------------------------------------------------------- records to items

  function PcDelta(pc: int, lastPc: int): (d: nat)
    ensures d < PC_WRAP
  {
    (pc - lastPc) % PC_WRAP
  }

  function PcJump(delta: nat): seq<Item> {
    if delta < 64 then [] else [VarJump(delta / 64)]
  }

  function TailItems(r: Reloc, low: nat, d: int, w: nat): (s: seq<Item>)
    requires WordSize(w) && low < 64 && IsWord(d, w)
    ensures AllOk(s, w)
  {
    if r.mode == EmbeddedObject || r.mode == CodeTarget then [Tagged(r.mode == CodeTarget, low)]
    else if !IsDebug(r.mode) then [Plain(low, r.mode)]
    else if IsPosition(r.mode) && -64 <= d < 64 then [SmallPosition(low, r.mode == StatementPosition, d)]
    else [Jump(low), Data(r.mode, d)]
  }

  /** What one Write appends, given the writer's last pc and last data. */
  function Items(r: Reloc, lastPc: int, lastData: int, w: nat): (s: seq<Item>)
    requires WordSize(w)
    ensures AllOk(s, w)
  {
    var delta := PcDelta(r.pc, lastPc);
    PcJump(delta) + TailItems(r, delta % 64, Wrap(r.data - lastData, w), w)
  }

  function NextData(r: Reloc, lastData: int): int {
    if IsDebug(r.mode) then r.data else lastData
  }

  function AllItems(rs: seq<Reloc>, lastPc: int, lastData: int, w: nat): (s: seq<Item>)
    requires WordSize(w)
    ensures AllOk(s, w)
  {
    if rs == [] then []
    else Items(rs[0], lastPc, lastData, w) + AllItems(rs[1..], rs[0].pc, NextData(rs[0], lastData), w)
  }

  const MAX_SIZE := 16
  const MAX_CALL_SIZE := 6

  /** A pc jump of 26 bits takes at most four chunks. */
  lemma ChunksLength(j: nat)
    requires 0 < j < 0x400_0000
    ensures |Chunks(j)| <= 4
  {
    if j >= 128 {
      var a := j / 128;
      assert 0 < a < 0x8_0000 && |Chunks(j)| == 1 + |Chunks(a)|;
      if a >= 128 {
        var b := a / 128;
        assert 0 < b < 0x1000 && |Chunks(a)| == 1 + |Chunks(b)|;
        if b >= 128 {
          var c := b / 128;
          assert 0 < c < 0x20 && |Chunks(b)| == 1 + |Chunks(c)|;
        }
      }
    }
  }

  /** Size bounds the buffer management relies on. */
  lemma SizeBounds(r: Reloc, lastPc: int, lastData: int, w: nat)
    requires WordSize(w)
    ensures var n := |EncodeAll(Items(r, lastPc, lastData, w), w)|;
            && 1 <= n <= 8 + w <= MAX_SIZE
            && (r.mode == CodeTarget ==> n <= MAX_CALL_SIZE)
            && (r.mode == Comment ==> n >= 3 + w)
  {
    ItemsBytes(r, lastPc, lastData, w);
    var delta := PcDelta(r.pc, lastPc);
    if delta >= 64 {
      ChunksLength(delta / 64);
    }
  }

  lemma EncodeShort(items: seq<Item>, w: nat)
    requires WordSize(w) && AllOk(items, w)
    ensures |items| == 1 ==> EncodeAll(items, w) == Encode(items[0], w)
    ensures |items| == 2 ==> EncodeAll(items, w) == Encode(items[0], w) + Encode(items[1], w)
  {
    if |items| == 1 {
      assert items[1..] == [];
    } else if |items| == 2 {
      assert items[1..] == [items[1]] && items[1..][1..] == [];
    }
  }

  function RecordTail(r: Reloc, low: nat, d: int, w: nat): seq<Byte>
    requires low < 64 && WordSize(w)
  {
    if r.mode == EmbeddedObject then [low * 4]
    else if r.mode == CodeTarget then [low * 4 + 1]
    else if !IsDebug(r.mode) then [ExtraTag(Ordinal(r.mode), 0), low]
    else if IsPosition(r.mode) && -64 <= d < 64 then [low * 4 + 2] + [(d * 2 + DebugTag(r.mode)) % 256]
    else [ExtraTag(PC_JUMP_TAG, 0), low] + ([ExtraTag(DATA_JUMP_TAG, DebugTag(r.mode))] + LeBytes(d, w))
  }

  function JumpBytes(delta: nat): seq<Byte> {
    if delta < 64 then [] else [ExtraTag(PC_JUMP_TAG, 1)] + Chunks(delta / 64)
  }

  function RecordBytes(r: Reloc, lastPc: int, lastData: int, w: nat): seq<Byte>
    requires WordSize(w)
  {
    var delta := PcDelta(r.pc, lastPc);
    JumpBytes(delta) + RecordTail(r, delta % 64, Wrap(r.data - lastData, w), w)
  }

  lemma TailBytes(r: Reloc, low: nat, d: int, w: nat)
    requires WordSize(w) && low < 64 && IsWord(d, w)
    ensures EncodeAll(TailItems(r, low, d, w), w) == RecordTail(r, low, d, w)
  {
    var tail := TailItems(r, low, d, w);
    EncodeShort(tail, w);
    if r.mode == EmbeddedObject || r.mode == CodeTarget {
    } else if !IsDebug(r.mode) {
    } else if IsPosition(r.mode) && -64 <= d < 64 {
    } else {
      assert Encode(tail[0], w) == [ExtraTag(PC_JUMP_TAG, 0), low];
      assert Encode(tail[1], w) == [ExtraTag(DATA_JUMP_TAG, DebugTag(r.mode))] + LeBytes(d, w);
    }
  }

  lemma JumpItemBytes(delta: nat, w: nat)
    requires WordSize(w) && delta < PC_WRAP
    ensures AllOk(PcJump(delta), w) && EncodeAll(PcJump(delta), w) == JumpBytes(delta)
  {
    hide Chunks;
    EncodeShort(PcJump(delta), w);
  }

  /** The bytes written for a record are the encoding of its items. */
  lemma ItemsBytes(r: Reloc, lastPc: int, lastData: int, w: nat)
    requires WordSize(w)
    ensures EncodeAll(Items(r, lastPc, lastData, w), w) == RecordBytes(r, lastPc, lastData, w)
  {
    hide TailItems, RecordTail, Wrap, PcDelta, Chunks, ItemOk;
    var delta, d := PcDelta(r.pc, lastPc), Wrap(r.data - lastData, w);
    JumpItemBytes(delta, w);
    EncodeAllConcat(PcJump(delta), TailItems(r, delta % 64, d, w), w);
    TailBytes(r, delta % 64, d, w);
  }

  // ---------------------------------------------------------------- meaning of items

  datatype Cursor = Cursor(pc: int, data: int)

  function Step(i: Item, c: Cursor, mask: Mask, w: nat): Cursor
    requires WordSize(w)
  {
    match i
    case VarJump(j) => c.(pc := c.pc + j * 64)
    case Jump(s) => c.(pc := c.pc + s)
    case Tagged(_, s) => c.(pc := c.pc + s)
    case SmallPosition(s, _, d) =>
      Cursor(c.pc + s, if WantsPositions(mask) then Wrap(c.data + d, w) else c.data)
    case Plain(s, _) => c.(pc := c.pc + s)
    case Data(_, d) => c.(data := if WantsDebug(mask) then Wrap(c.data + d, w) else c.data)
  }

  predicate IsEntry(i: Item) { !i.VarJump? && !i.Jump? }

  function EntryMode(i: Item): Mode
    requires IsEntry(i)
  {
    match i
    case Tagged(code, _) => if code then CodeTarget else EmbeddedObject
    case SmallPosition(_, st, _) => if st then StatementPosition else Position
    case Plain(_, m) => m
    case Data(k, _) => k
  }

  predicate Yields(i: Item, mask: Mask) { IsEntry(i) && Wanted(mask, EntryMode(i)) }

  /** Everything an iteration with this mask delivers. */
  function ReadAll(items: seq<Item>, c: Cursor, mask: Mask, w: nat): seq<Reloc>
    requires WordSize(w)
  {
    if items == [] then []
    else
      var c' := Step(items[0], c, mask, w);
      var later := ReadAll(items[1..], c', mask, w);
      if Yields(items[0], mask) then [Reloc(c'.pc, EntryMode(items[0]), c'.data)] + later else later
  }

  // ---------------------------------------------------------------- the writer

  lemma Concat4<T>(a: seq<T>, b: seq<T>, c: seq<T>, d: seq<T>)
    ensures a + b + c + d == a + (b + (c + d))
  {
  }

  lemma Concat5<T>(a: seq<T>, b: seq<T>, c: seq<T>, d: seq<T>, e: seq<T>)
    ensures a + b + c + (d + e) == a + b + c + d + e == a + (b + (c + (d + e)))
  {
  }

  class RelocInfoWriter {
    const w: nat
    const buffer: array<Byte>
    ghost const top: nat
    ghost var written: seq<Byte>
    var pos: nat
    var lastPc: int
    var lastData: int

    ghost predicate Valid()
      reads this`pos, this`written, buffer
    {
      && WordSize(w)
      && pos + |written| == top <= buffer.Length
      && (forall k :: 0 <= k < |written| ==> buffer[top - 1 - k] == written[k])
    }

    constructor (buffer: array<Byte>, pos: nat, pc: int, w: nat)
      requires pos <= buffer.Length && WordSize(w)
      ensures Valid() && this.buffer == buffer && this.w == w && this.top == pos && this.pos == pos
      ensures written == [] && lastPc == pc && lastData == 0
    {
      this.buffer, this.w, this.pos, this.lastPc, this.lastData := buffer, w, pos, pc, 0;
      this.top, this.written := pos, [];
    }

    method Emit(b: Byte)
      requires Valid() && pos > 0
      modifies this`pos, this`written, buffer
      ensures Valid() && written == old(written) + [b]
    {
      pos := pos - 1;
      buffer[pos] := b;
      written := written + [b];
    }

    method WriteExtraTag(extraTag: nat, topTag: nat)
      requires Valid() && pos > 0 && extraTag < 16 && topTag < 4
      modifies this`pos, this`written, buffer
      ensures Valid() && written == old(written) + [ExtraTag(extraTag, topTag)]
    {
      Emit(topTag * 64 + extraTag * 4 + 3);
    }

    /** Sets the lowest bit of the byte written last. */
    method TagLastChunk()
      requires Valid() && written != [] && written[|written| - 1] < 255
      modifies this`written, buffer
      ensures Valid()
      ensures written == MarkLast(old(written))
    {
      assert buffer[top - 1 - (|written| - 1)] == written[|written| - 1];
      buffer[pos] := buffer[pos] + 1;
      written := MarkLast(written);
    }

    method WriteChunks(jump: nat)
      requires Valid() && 0 < jump < 0x400_0000 && pos >= 4
      modifies this`pos, this`written, buffer
      ensures Valid() && written == old(written) + Chunks(jump)
    {
      ChunksLength(jump);
      MarkedChunks(jump);
      ghost var goal := written + RawChunks(jump);
      var pcJump: nat := jump;
      while pcJump > 0
        invariant Valid() && goal == written + RawChunks(pcJump)
        invariant |RawChunks(pcJump)| <= pos
      {
        Concat4(written, [2 * (pcJump % 128)], RawChunks(pcJump / 128), []);
        var b := pcJump % 128;
        Emit(b * 2);
        pcJump := pcJump / 128;
      }
      assert written == goal;
      TagLastChunk();
      assert written == old(written) + MarkLast(RawChunks(jump));
    }

    method WriteVariableLengthPCJump(pcDelta: nat) returns (rest: nat)
      requires Valid() && pos >= 5 && pcDelta < PC_WRAP
      modifies this`pos, this`written, buffer
      ensures Valid()
      ensures written == old(written) + JumpBytes(pcDelta)
      ensures |JumpBytes(pcDelta)| <= 5
      ensures rest == pcDelta % 64
    {
      if pcDelta < 64 { return pcDelta; }
      ChunksLength(pcDelta / 64);
      WriteExtraTag(PC_JUMP_TAG, 1);
      WriteChunks(pcDelta / 64);
      return pcDelta % 64;
    }

    method WriteTaggedPC(pcDelta: nat, tag: nat)
      requires Valid() && pos >= 6 && pcDelta < PC_WRAP && tag < 4
      modifies this`pos, this`written, buffer
      ensures Valid()
      ensures written == old(written) + JumpBytes(pcDelta) + [pcDelta % 64 * 4 + tag]
      ensures |JumpBytes(pcDelta)| <= 5
    {
      var rest := WriteVariableLengthPCJump(pcDelta);
      Emit(rest * 4 + tag);
    }

    method WriteTaggedData(dataDelta: int, tag: nat)
      requires Valid() && pos > 0 && tag < 2
      modifies this`pos, this`written, buffer
      ensures Valid() && written == old(written) + [(dataDelta * 2 + tag) % 256]
    {
      Emit((dataDelta * 2 + tag) % 256);
    }

    method WriteExtraTaggedPC(pcDelta: nat, extraTag: nat)
      requires Valid() && pos >= 7 && pcDelta < PC_WRAP && extraTag < 16
      modifies this`pos, this`written, buffer
      ensures Valid()
      ensures written == old(written) + JumpBytes(pcDelta) + [ExtraTag(extraTag, 0), pcDelta % 64]
      ensures |JumpBytes(pcDelta)| <= 5
    {
      var rest := WriteVariableLengthPCJump(pcDelta);
      WriteExtraTag(extraTag, 0);
      Emit(rest);
    }

    method WriteExtraTaggedData(dataDelta: int, topTag: nat)
      requires Valid() && pos >= w + 1 && topTag < 4
      modifies this`pos, this`written, buffer
      ensures Valid()
      ensures written == old(written) + [ExtraTag(DATA_JUMP_TAG, topTag)] + LeBytes(dataDelta, w)
    {
      hide LeBytes;
      WriteExtraTag(DATA_JUMP_TAG, topTag);
      var rest := dataDelta;
      ghost var goal := written + LeBytes(dataDelta, w);
      for i := 0 to w
        invariant Valid() && pos + i + 1 == old(pos)
        invariant goal == written + LeBytes(rest, w - i)
      {
        LeBytesStep(rest, w - i);
        Concat4(written, [rest % 256], LeBytes(rest / 256, w - i - 1), []);
        Emit(rest % 256);
        rest := rest / 256;
      }
    }

    /** The one-byte form of a position: its data delta fits in seven bits. */
    method WriteSmallPosition(pcDelta: nat, dataDelta: int, tag: nat)
      requires Valid() && pos >= MAX_SIZE && pcDelta < PC_WRAP && tag < 2
      modifies this`pos, this`written, buffer
      ensures Valid()
      ensures written == old(written) + (JumpBytes(pcDelta) +
                         ([pcDelta % 64 * 4 + 2] + [(dataDelta * 2 + tag) % 256]))
    {
      WriteTaggedPC(pcDelta, 2);
      WriteTaggedData(dataDelta, tag);
      Concat4(old(written), JumpBytes(pcDelta), [pcDelta % 64 * 4 + 2], [(dataDelta * 2 + tag) % 256]);
    }

    /** The costly form: a pc jump, then a data jump. */
    method WriteDataJump(pcDelta: nat, dataDelta: int, tag: nat)
      requires Valid() && pos >= MAX_SIZE && pcDelta < PC_WRAP && tag < 3
      modifies this`pos, this`written, buffer
      ensures Valid()
      ensures written == old(written) + (JumpBytes(pcDelta) +
                         ([ExtraTag(PC_JUMP_TAG, 0), pcDelta % 64] +
                          ([ExtraTag(DATA_JUMP_TAG, tag)] + LeBytes(dataDelta, w))))
    {
      WriteExtraTaggedPC(pcDelta, PC_JUMP_TAG);
      WriteExtraTaggedData(dataDelta, tag);
      Concat5(old(written), JumpBytes(pcDelta), [ExtraTag(PC_JUMP_TAG, 0), pcDelta % 64],
              [ExtraTag(DATA_JUMP_TAG, tag)], LeBytes(dataDelta, w));
    }

    /** The modes that carry data: a signed delta to the data written last. */
    method WriteDebugInfo(r: Reloc, pcDelta: nat)
      requires Valid() && pos >= MAX_SIZE && pcDelta < PC_WRAP && IsDebug(r.mode)
      modifies this`pos, this`written, this`lastData, buffer
      ensures Valid() && lastData == r.data
      ensures written == old(written) +
                         (JumpBytes(pcDelta) + RecordTail(r, pcDelta % 64, Wrap(r.data - old(lastData), w), w))
    {
      hide Wrap, Chunks, LeBytes, JumpBytes;
      var dataDelta := Wrap(r.data - lastData, w);
      if IsPosition(r.mode) {
        var tag := if r.mode == Position then 0 else 1;
        if dataDelta >= -64 && dataDelta < 64 {
          WriteSmallPosition(pcDelta, dataDelta, tag);
        } else {
          WriteDataJump(pcDelta, dataDelta, tag);
        }
      } else {
        WriteDataJump(pcDelta, dataDelta, 2);
      }
      lastData := r.data;
    }

    /** Appends one record. */
    method Write(r: Reloc)
      requires Valid() && pos >= MAX_SIZE && r.pc - lastPc >= 0
      modifies this, buffer
      ensures Valid()
      ensures written == old(written) + RecordBytes(r, old(lastPc), old(lastData), w)
      ensures lastPc == r.pc && lastData == NextData(r, old(lastData))
    {
      hide Wrap, Chunks, LeBytes, JumpBytes;
      var pcDelta := (r.pc - lastPc) % PC_WRAP;
      ghost var target := written + RecordBytes(r, lastPc, lastData, w);
      if r.mode == EmbeddedObject {
        WriteTaggedPC(pcDelta, 0);
        assert written == target;
      } else if r.mode == CodeTarget {
        WriteTaggedPC(pcDelta, 1);
        assert written == target;
      } else if IsDebug(r.mode) {
        WriteDebugInfo(r, pcDelta);
        assert written == target;
      } else {
        WriteExtraTaggedPC(pcDelta, Ordinal(r.mode));
        assert written == target;
      }
      lastPc := r.pc;
    }
  }

  // ---------------------------------------------------------------- the iterator

  function First(i: Item): int
    requires i.Data? ==> IsDebug(i.kind)
  {
    match i
    case VarJump(j) => 127
    case Jump(s) => 63
    case Tagged(code, s) => s * 4 + if code then 1 else 0
    case SmallPosition(s, _, _) => s * 4 + 2
    case Plain(_, m) => Ordinal(m) * 4 + 3
    case Data(k, _) => DebugTag(k) * 64 + 59
  }

  lemma FirstIs(i: Item, w: nat)
    requires WordSize(w) && ItemOk(i, w)
    ensures Encode(i, w)[0] == First(i)
  {
    hide Chunks, LeBytes, Ordinal;
    match i { case _ => }
  }

  /** The first byte of an item tells which item it is, and the mode of a marked entry. */
  lemma FirstByte(i: Item, w: nat)
    requires WordSize(w) && ItemOk(i, w)
    ensures var b := Encode(i, w)[0];
            var extra, top := b / 4 % 16, b / 64;
            && (b % 4 == 0 <==> i.Tagged? && !i.codeTarget)
            && (b % 4 == 1 <==> i.Tagged? && i.codeTarget)
            && (b % 4 == 2 <==> i.SmallPosition?)
            && (i.Tagged? || i.SmallPosition? ==> b / 4 == i.small)
            && (b % 4 == 3 && extra == PC_JUMP_TAG <==> i.VarJump? || i.Jump?)
            && (i.VarJump? || i.Jump? ==> (top == 1 <==> i.VarJump?))
            && (b % 4 == 3 && extra == DATA_JUMP_TAG <==> i.Data?)
            && (i.Data? ==> DebugMode(top) == i.kind)
            && (i.Plain? ==> extra < 14 && ModeAt(extra) == i.mode)
  {
    hide Encode, Ordinal, ModeAt;
    FirstIs(i, w);
    if i.Plain? { ModeNumbers(i.mode); }
  }

  function SignedByte(b: int): int { if b < 128 then b else b - 256 }

  /** Recovers a signed seven bit delta and its type bit from one byte. */
  lemma SmallDataByte(d: int, tag: nat)
    requires -64 <= d < 64 && tag < 2
    ensures var b := (d * 2 + tag) % 256;
            SignedByte(b) / 2 == d && b % 2 == tag
  {
  }

  class RelocIterator {
    const w: nat
    const buffer: array<Byte>
    const end: nat
    const mask: Mask
    var pos: nat
    var pc: int
    var mode: Mode
    var data: int
    var done: bool
    ghost var rest: seq<Byte>    // the bytes still to read
    ghost var items: seq<Item>   // and what they encode

    ghost predicate Laid()
      reads this`pos, this`rest, buffer
    {
      && WordSize(w)
      && end + |rest| == pos <= buffer.Length
      && (forall k :: 0 <= k < |rest| ==> buffer[pos - 1 - k] == rest[k])
    }

    ghost predicate Valid()
      reads this`pos, this`rest, this`items, buffer
    {
      Laid() && AllOk(items, w) && rest == EncodeAll(items, w)
    }

    ghost function Remaining(): seq<Reloc>
      requires WordSize(w)
      reads this
    {
      ReadAll(items, Cursor(pc, data), mask, w)
    }

    method Fetch() returns (b: Byte)
      requires Laid() && rest != []
      modifies this`pos, this`rest
      ensures Laid() && b == old(rest)[0] && rest == old(rest)[1..] && pos == old(pos) - 1
    {
      assert buffer[pos - 1 - 0] == rest[0];
      pos := pos - 1;
      rest := rest[1..];
      b := buffer[pos];
    }

    method AdvanceReadPC(ghost tail: seq<Byte>)
      requires Laid() && rest != [] && rest[1..] == tail
      modifies this`pos, this`rest, this`pc
      ensures Laid() && rest == tail && pc == old(pc) + old(rest)[0]
    {
      var b := Fetch();
      pc := pc + b;
    }

    method AdvanceReadVariableLengthPCJump(ghost jump: nat, ghost tail: seq<Byte>)
      requires Laid() && 0 < jump < 0x400_0000 && rest == Chunks(jump) + tail
      modifies this`pos, this`rest, this`pc
      ensures Laid() && rest == tail && pc == old(pc) + jump * 64
    {
      hide Chunks;
      var pcJump: nat, scale: nat := 0, 1;
      ghost var left: nat := jump;
      var i := 0;
      while i < 4
        invariant 0 <= i <= 3 && Laid() && pc == old(pc)
        invariant 0 < left && left * scale < 0x400_0000
        invariant scale == if i == 0 then 1 else if i == 1 then 0x80 else if i == 2 then 0x4000 else 0x20_0000
        invariant jump == pcJump + left * scale
        invariant rest == Chunks(left) + tail
      {
        FirstChunk(left, tail);
        var part := Fetch();
        pcJump := pcJump + part / 2 * scale;
        if part % 2 == 1 {
          assert rest == tail;
          break;
        }
        assert rest == Chunks(left / 128) + tail;
        left := left / 128;
        scale := scale * 128;
        i := i + 1;
      }
      pc := pc + pcJump * 64;
    }

    method AdvanceReadData(ghost delta: int, ghost tail: seq<Byte>)
      requires Laid() && rest == LeBytes(delta, w) + tail
      modifies this`pos, this`rest, this`data
      ensures Laid() && rest == tail && data == Wrap(old(data) + delta, w)
    {
      hide LeBytes, Wrap;
      var x: nat, scale: nat := 0, 1;
      ghost var bytes := LeBytes(delta, w);
      for i := 0 to w
        invariant Laid() && data == old(data)
        invariant rest == bytes[i..] + tail
        invariant x == LeValue(bytes[..i]) && scale == Pow256(i)
      {
        assert rest[1..] == bytes[i + 1..] + tail;
        var b := Fetch();
        LeValueAppend(bytes[..i], bytes[i]);
        assert bytes[..i] + [bytes[i]] == bytes[..i + 1];
        x := x + b * scale;
        scale := scale * 256;
      }
      assert bytes[..w] == bytes;
      DataBytesRoundTrip(data, delta, w);
      data := Wrap(data + x, w);
    }

    method SetMode(m: Mode) returns (wanted: bool)
      modifies this`mode
      ensures wanted == Wanted(mask, m)
      ensures mode == if wanted then m else old(mode)
    {
      wanted := Wanted(mask, m);
      if wanted { mode := m; }
    }

    /** Consumes the next item; hit says that it is an entry whose mode the mask wants. */
    method ReadItem() returns (hit: bool)
      requires Valid() && pos > end
      modifies this`pos, this`pc, this`mode, this`data, this`rest, this`items
      ensures Valid() && pos < old(pos)
      ensures old(items) != [] && items == old(items)[1..]
      ensures Cursor(pc, data) == Step(old(items)[0], Cursor(old(pc), old(data)), mask, w)
      ensures hit == Yields(old(items)[0], mask)
      ensures hit ==> mode == EntryMode(old(items)[0])
    {
      hide Wrap, Chunks, LeBytes, Step, Yields, EntryMode;
      ghost var item := items[0];
      ghost var tail := EncodeAll(items[1..], w);
      items := items[1..];
      FirstByte(item, w);
      var b := Fetch();
      var tag := b % 4;
      hit := false;
      if tag < 2 {
        hit := ReadTagged(b, item);
      } else if tag == 2 {
        hit := ReadSmallPosition(b, item, tail);
      } else {
        hit := ReadMarkedItem(b, item, tail);
      }
      assert rest == tail;
    }

    /** An object or a code target; its one byte has been fetched. */
    method ReadTagged(b: Byte, ghost item: Item) returns (hit: bool)
      requires WordSize(w) && item.Tagged? && b / 4 == item.small && b % 4 == (if item.codeTarget then 1 else 0)
      modifies this`pc, this`mode
      ensures Cursor(pc, data) == Step(item, Cursor(old(pc), data), mask, w)
      ensures hit == Yields(item, mask)
      ensures hit ==> mode == EntryMode(item)
    {
      pc := pc + b / 4;
      if b % 4 == 0 {
        hit := SetMode(EmbeddedObject);
      } else {
        hit := SetMode(CodeTarget);
      }
    }

    /** A position whose data delta is in the next byte; the first byte has been fetched. */
    method ReadSmallPosition(b: Byte, ghost item: Item, ghost tail: seq<Byte>) returns (hit: bool)
      requires Laid() && ItemOk(item, w) && item.SmallPosition? && b / 4 == item.small
      requires rest == Encode(item, w)[1..] + tail
      modifies this`pos, this`pc, this`mode, this`data, this`rest
      ensures Laid() && rest == tail
      ensures Cursor(pc, data) == Step(item, Cursor(old(pc), old(data)), mask, w)
      ensures hit == Yields(item, mask)
      ensures hit ==> mode == EntryMode(item)
    {
      hide Wrap;
      MaskGroups(mask);
      SmallDataByte(item.delta, if item.statement then 1 else 0);
      pc := pc + b / 4;
      hit := false;
      var b1 := Fetch();
      if WantsPositions(mask) {
        data := Wrap(data + SignedByte(b1) / 2, w);
        hit := SetMode(DebugMode(b1 % 2));
      }
    }

    /** An item whose first byte has the default tag; that byte has been fetched. */
    method ReadMarkedItem(b: Byte, ghost item: Item, ghost tail: seq<Byte>) returns (hit: bool)
      requires Laid() && ItemOk(item, w) && b % 4 == 3
      requires b == Encode(item, w)[0] && rest == Encode(item, w)[1..] + tail
      modifies this`pos, this`pc, this`mode, this`data, this`rest
      ensures Laid() && rest == tail
      ensures Cursor(pc, data) == Step(item, Cursor(old(pc), old(data)), mask, w)
      ensures hit == Yields(item, mask)
      ensures hit ==> mode == EntryMode(item)
    {
      hide Wrap;
      FirstByte(item, w);
      MaskGroups(mask);
      hit := false;
      var extraTag, topTag := b / 4 % 16, b / 64;
      if extraTag == PC_JUMP_TAG {
        if topTag == 1 {
          AdvanceReadVariableLengthPCJump(item.jump, tail);
        } else {
          AdvanceReadPC(tail);
        }
      } else if extraTag == DATA_JUMP_TAG {
        if WantsDebug(mask) {
          AdvanceReadData(item.delta, tail);
          hit := SetMode(DebugMode(topTag));
        } else {
          SkipData(item.delta, tail);
        }
      } else {
        AdvanceReadPC(tail);
        hit := SetMode(ModeAt(extraTag));
      }
    }

    method SkipData(ghost delta: int, ghost tail: seq<Byte>)
      requires Laid() && rest == LeBytes(delta, w) + tail
      modifies this`pos, this`rest
      ensures Laid() && rest == tail
    {
      hide LeBytes;
      assert forall k :: 0 <= k < |tail| ==> tail[k] == rest[w + k];
      pos := pos - w;
      rest := tail;
    }

    /** Moves to the next wanted entry, or to the end. */
    method Next()
      requires Valid() && !done
      modifies this
      ensures Valid() && end <= pos
      ensures done ==> old(Remaining()) == []
      ensures !done ==> old(Remaining()) == [Reloc(pc, mode, data)] + Remaining()
      ensures !done ==> pos < old(pos)
    {
      while pos > end
        invariant Valid() && !done && pos <= old(pos)
        invariant Remaining() == old(Remaining())
        decreases pos
      {
        ghost var c := Cursor(pc, data);
        var hit := ReadItem();
        if hit { return; }
      }
      assert items == [];
      done := true;
    }

    constructor (buffer: array<Byte>, start: nat, end: nat, pc: int, mask: Mask, w: nat, ghost items: seq<Item>)
      requires WordSize(w) && AllOk(items, w) && end <= start <= buffer.Length
      requires start - end == |EncodeAll(items, w)|
      requires forall k :: 0 <= k < start - end ==> buffer[start - 1 - k] == EncodeAll(items, w)[k]
      ensures Valid() && this.w == w && this.mask == mask && this.buffer == buffer
      ensures done ==> ReadAll(items, Cursor(pc, 0), mask, w) == []
      ensures !done ==> ReadAll(items, Cursor(pc, 0), mask, w) == [Reloc(this.pc, mode, data)] + Remaining()
    {
      this.buffer, this.end, this.mask, this.w := buffer, end, mask, w;
      this.pc, this.data, this.mode, this.done := pc, 0, ConstructCall, false;
      this.pos := if mask == 0 then end else start;
      this.items := if mask == 0 then [] else items;
      this.rest := if mask == 0 then [] else EncodeAll(items, w);
      new;
      ghost var all := ReadAll(items, Cursor(pc, 0), mask, w);
      if mask == 0 { NothingWanted(items, Cursor(pc, 0), w); }
      assert all == Remaining();
      Next();
    }
  }

  lemma {:induction false} NothingWanted(items: seq<Item>, c: Cursor, w: nat)
    requires WordSize(w)
    ensures ReadAll(items, c, 0, w) == []
  {
    if items != [] {
      if IsEntry(items[0]) { NoModeWanted(EntryMode(items[0])); }
      NothingWanted(items[1..], Step(items[0], c, 0, w), w);
    }
  }

  // ---------------------------------------------------------------- whole streams

  /** Each pc delta fits in 32 bits. */
  predicate DeltasFit(rs: seq<Reloc>, lastPc: int) {
    rs == [] || (0 <= rs[0].pc - lastPc < PC_WRAP && DeltasFit(rs[1..], rs[0].pc))
  }

  predicate Ascending(rs: seq<Reloc>, lastPc: int) {
    rs == [] || (lastPc <= rs[0].pc && Ascending(rs[1..], rs[0].pc))
  }

  predicate WordData(rs: seq<Reloc>, w: nat)
    requires WordSize(w)
  {
    forall i :: 0 <= i < |rs| ==> IsWord(rs[i].data, w)
  }

  /** The records as an iterator shows them: an entry without data of its own shows the data of
      the last entry that had some. */
  function Shown(rs: seq<Reloc>, data: int): (s: seq<Reloc>)
    ensures |s| == |rs|
  {
    if rs == [] then []
    else
      var d := NextData(rs[0], data);
      [rs[0].(data := d)] + Shown(rs[1..], d)
  }

  /** Shown keeps every mode and pc, and the data of every record that carries data. */
  lemma {:induction false} ShownAgrees(rs: seq<Reloc>, data: int, i: nat)
    requires i < |rs|
    ensures var s := Shown(rs, data)[i];
            && s.mode == rs[i].mode && s.pc == rs[i].pc
            && (IsDebug(rs[i].mode) ==> s == rs[i])
  {
    if i > 0 {
      ShownAgrees(rs[1..], NextData(rs[0], data), i - 1);
    }
  }

  function Select(rs: seq<Reloc>, mask: Mask): seq<Reloc> {
    if rs == [] then []
    else if Wanted(mask, rs[0].mode) then [rs[0]] + Select(rs[1..], mask)
    else Select(rs[1..], mask)
  }

  function Places(rs: seq<Reloc>): (s: seq<(Mode, int)>)
    ensures |s| == |rs|
  {
    if rs == [] then [] else [(rs[0].mode, rs[0].pc)] + Places(rs[1..])
  }

  lemma ConsParts<T>(x: T, rest: seq<T>)
    ensures ([x] + rest)[0] == x && ([x] + rest)[1..] == rest
  {
  }

  lemma {:induction false} ReadAllConcat(a: seq<Item>, b: seq<Item>, c: Cursor, mask: Mask, w: nat)
    requires WordSize(w)
    ensures ReadAll(a + b, c, mask, w) == ReadAll(a, c, mask, w) + ReadAll(b, After(a, c, mask, w), mask, w)
  {
    hide Step, Yields, EntryMode, IsEntry;
    if a == [] {
      assert a + b == b;
    } else {
      ReadAllConcat(a[1..], b, Step(a[0], c, mask, w), mask, w);
      assert (a + b)[0] == a[0] && (a + b)[1..] == a[1..] + b;
    }
  }

  function After(items: seq<Item>, c: Cursor, mask: Mask, w: nat): Cursor
    requires WordSize(w)
  {
    if items == [] then c else After(items[1..], Step(items[0], c, mask, w), mask, w)
  }

  /** Reading the items of one record with the full mask delivers that record. */
  lemma RecordRoundTrip(r: Reloc, lastPc: int, c: Cursor, w: nat)
    requires WordSize(w) && IsWord(r.data, w)
    ensures var d := NextData(r, c.data);
            var pc := c.pc + PcDelta(r.pc, lastPc);
            && ReadAll(Items(r, lastPc, c.data, w), c, ALL_MODES, w) == [Reloc(pc, r.mode, d)]
            && After(Items(r, lastPc, c.data, w), c, ALL_MODES, w) == Cursor(pc, d)
  {
    hide Wrap, PcDelta, TailItems, PcJump, NextData, Wanted, ReadAll, After;
    var delta, d := PcDelta(r.pc, lastPc), Wrap(r.data - c.data, w);
    WrapDifference(c.data, r.data, w);
    var jump, tail := PcJump(delta), TailItems(r, delta % 64, d, w);
    ReadAllConcat(jump, tail, c, ALL_MODES, w);
    AfterConcat(jump, tail, c, ALL_MODES, w);
    var c1 := JumpRead(delta, c, w);
    TailRoundTrip(r, delta % 64, d, c1, w);
  }

  lemma JumpRead(delta: nat, c: Cursor, w: nat) returns (c1: Cursor)
    requires WordSize(w)
    ensures ReadAll(PcJump(delta), c, ALL_MODES, w) == [] && After(PcJump(delta), c, ALL_MODES, w) == c1
    ensures c1.pc + delta % 64 == c.pc + delta && c1.data == c.data
  {
    c1 := c.(pc := c.pc + delta / 64 * 64);
    var jump := PcJump(delta);
    if jump != [] { assert jump[1..] == []; }
  }

  lemma TailRoundTrip(r: Reloc, low: nat, d: int, c: Cursor, w: nat)
    requires WordSize(w) && low < 64 && IsWord(d, w)
    requires IsDebug(r.mode) ==> Wrap(c.data + d, w) == r.data
    ensures var tail, c' := TailItems(r, low, d, w), Cursor(c.pc + low, NextData(r, c.data));
            && ReadAll(tail, c, ALL_MODES, w) == [Reloc(c'.pc, r.mode, c'.data)]
            && After(tail, c, ALL_MODES, w) == c'
  {
    hide Wrap, Wanted;
    AllModesWanted(r.mode);
    assert WantsPositions(ALL_MODES) && WantsDebug(ALL_MODES);
    var tail := TailItems(r, low, d, w);
    if |tail| == 1 {
      assert tail[1..] == [];
    } else {
      var c1 := c.(pc := c.pc + low);
      assert tail[1..] == [tail[1]] && [tail[1]][1..] == [];
      assert ReadAll(tail, c, ALL_MODES, w) == ReadAll([tail[1]], c1, ALL_MODES, w);
      assert After(tail, c, ALL_MODES, w) == After([tail[1]], c1, ALL_MODES, w);
      var c2 := Step(tail[1], c1, ALL_MODES, w);
      assert c2 == Cursor(c1.pc, r.data);
      assert Yields(tail[1], ALL_MODES);
      assert ReadAll([], c2, ALL_MODES, w) == [] && After([], c2, ALL_MODES, w) == c2;
    }
  }

  lemma {:induction false} AfterConcat(a: seq<Item>, b: seq<Item>, c: Cursor, mask: Mask, w: nat)
    requires WordSize(w)
    ensures After(a + b, c, mask, w) == After(b, After(a, c, mask, w), mask, w)
  {
    hide Step;
    if a == [] {
      assert a + b == b;
    } else {
      AfterConcat(a[1..], b, Step(a[0], c, mask, w), mask, w);
      assert (a + b)[0] == a[0] && (a + b)[1..] == a[1..] + b;
    }
  }

  /** The records as a reader at pc "at" shows them when the writer was at pc "from": every pc
      delta comes back modulo 2^32. */
  function ShownFrom(rs: seq<Reloc>, from: int, at: int, data: int): (s: seq<Reloc>)
    ensures |s| == |rs|
  {
    if rs == [] then []
    else
      var d, pc := NextData(rs[0], data), at + PcDelta(rs[0].pc, from);
      [Reloc(pc, rs[0].mode, d)] + ShownFrom(rs[1..], rs[0].pc, pc, d)
  }

  /** Reading back a whole stream with the full mask. */
  lemma {:induction false} StreamRoundTrip(rs: seq<Reloc>, from: int, at: int, data: int, w: nat)
    requires WordSize(w) && WordData(rs, w)
    ensures ReadAll(AllItems(rs, from, data, w), Cursor(at, data), ALL_MODES, w) == ShownFrom(rs, from, at, data)
  {
    hide Items, Step, Yields, IsWord, NextData, PcDelta;
    if rs != [] {
      var r, d := rs[0], NextData(rs[0], data);
      RecordRoundTrip(r, from, Cursor(at, data), w);
      StreamRoundTrip(rs[1..], r.pc, at + PcDelta(r.pc, from), d, w);
      ReadAllConcat(Items(r, from, data, w), AllItems(rs[1..], r.pc, d, w), Cursor(at, data), ALL_MODES, w);
    }
  }

  /** Ascending records come back at their own pcs exactly when every delta is below 2^32. */
  lemma {:induction false} PcsComeBack(rs: seq<Reloc>, from: int, data: int)
    requires Ascending(rs, from)
    ensures DeltasFit(rs, from) ==> ShownFrom(rs, from, from, data) == Shown(rs, data)
    ensures Places(ShownFrom(rs, from, from, data)) == Places(rs) <==> DeltasFit(rs, from)
  {
    if rs != [] {
      var d := NextData(rs[0], data);
      PcsComeBack(rs[1..], rs[0].pc, d);
      var pc := from + PcDelta(rs[0].pc, from);
      var later := ShownFrom(rs[1..], rs[0].pc, pc, d);
      ConsParts(Reloc(pc, rs[0].mode, d), later);
      ConsParts((rs[0].mode, pc), Places(later));
      ConsParts((rs[0].mode, rs[0].pc), Places(rs[1..]));
      assert Places(ShownFrom(rs, from, from, data)) == [(rs[0].mode, pc)] + Places(later);
    }
  }

  /** The stream round trip, exactly: with the full mask every mode and pc, and the data of every
      record that has data, come back if and only if the pc deltas fit in 32 bits. */
  lemma FullMaskRoundTrip(rs: seq<Reloc>, pc: int, w: nat)
    requires WordSize(w) && WordData(rs, w) && Ascending(rs, pc)
    ensures var out := ReadAll(AllItems(rs, pc, 0, w), Cursor(pc, 0), ALL_MODES, w);
            && (Places(out) == Places(rs) <==> DeltasFit(rs, pc))
            && (DeltasFit(rs, pc) ==> out == Shown(rs, 0))
  {
    StreamRoundTrip(rs, pc, pc, 0, w);
    PcsComeBack(rs, pc, 0);
  }

  /** A mask changes what is delivered, never where: on every item stream the filtered iteration
      delivers the modes and pcs the mask selects from the full iteration. */
  lemma {:induction false} FilteredPlaces(items: seq<Item>, c: Cursor, full: Cursor, mask: Mask, w: nat)
    requires WordSize(w) && c.pc == full.pc
    ensures Places(ReadAll(items, c, mask, w)) == Places(Select(ReadAll(items, full, ALL_MODES, w), mask))
  {
    hide Wrap, EntryMode, Wanted;
    if items != [] {
      var c', full' := Step(items[0], c, mask, w), Step(items[0], full, ALL_MODES, w);
      FilteredPlaces(items[1..], c', full', mask, w);
      if IsEntry(items[0]) {
        var m := EntryMode(items[0]);
        AllModesWanted(m);
        ConsParts(Reloc(full'.pc, m, full'.data), ReadAll(items[1..], full', ALL_MODES, w));
        ConsParts(Reloc(full'.pc, m, full'.data), Select(ReadAll(items[1..], full', ALL_MODES, w), mask));
        ConsParts(Reloc(c'.pc, m, c'.data), ReadAll(items[1..], c', mask, w));
      }
    }
  }

  /** With a mask that wants a kind of position the data comes out right as well. */
  lemma {:induction false} FilteredData(items: seq<Item>, c: Cursor, mask: Mask, w: nat)
    requires WordSize(w) && WantsPositions(mask)
    ensures ReadAll(items, c, mask, w) == Select(ReadAll(items, c, ALL_MODES, w), mask)
  {
    hide Wrap, EntryMode, Wanted;
    MaskGroups(mask);
    MaskGroups(ALL_MODES);
    if items != [] {
      var c' := Step(items[0], c, ALL_MODES, w);
      assert c' == Step(items[0], c, mask, w);
      FilteredData(items[1..], c', mask, w);
      if IsEntry(items[0]) {
        AllModesWanted(EntryMode(items[0]));
        ConsParts(Reloc(c'.pc, EntryMode(items[0]), c'.data), ReadAll(items[1..], c', ALL_MODES, w));
      }
    }
  }

  const COMMENT_MASK: Mask := 0x100

  /** An iteration that wants comments alone skips short position deltas.  "lag" is their sum so
      far, as a word; this says that it is zero at every comment. */
  predicate SkippedCancel(items: seq<Item>, lag: int, w: nat)
    requires WordSize(w)
  {
    items == [] ||
    match items[0]
    case SmallPosition(_, _, d) => SkippedCancel(items[1..], Wrap(lag + d, w), w)
    case Data(k, _) => (k == Comment ==> lag == 0) && SkippedCancel(items[1..], lag, w)
    case Plain(_, m) => (m == Comment ==> lag == 0) && SkippedCancel(items[1..], lag, w)
    case _ => SkippedCancel(items[1..], lag, w)
  }

  lemma WrapSums(a: int, b: int, d: int, w: nat)
    requires WordSize(w)
    ensures Wrap(Wrap(a + b, w) + d, w) == Wrap(Wrap(a + d, w) + b, w) == Wrap(a + Wrap(b + d, w), w)
  {
    hide Wrap;
    var k1 := WrapQuotient(a + b, w);
    var k2 := WrapQuotient(a + d, w);
    var k3 := WrapQuotient(b + d, w);
    WrapCongruent(a + b + d, k1, w);
    WrapCongruent(a + b + d, k2, w);
    WrapCongruent(a + b + d, k3, w);
    assert Wrap(a + b, w) + d == a + b + d + k1 * Range(w);
    assert Wrap(a + d, w) + b == a + b + d + k2 * Range(w);
    assert a + Wrap(b + d, w) == a + b + d + k3 * Range(w);
  }

  /** The data of a comment-only iteration is right exactly when the skipped deltas cancel out at
      every comment: the condition under which leaving them unread is harmless. */
  lemma {:induction false} CommentOnlyData(items: seq<Item>, c: Cursor, lag: int, w: nat)
    requires WordSize(w) && IsWord(c.data, w) && IsWord(lag, w)
    ensures var full := c.(data := Wrap(c.data + lag, w));
            ReadAll(items, c, COMMENT_MASK, w) == Select(ReadAll(items, full, ALL_MODES, w), COMMENT_MASK)
            <==> SkippedCancel(items, lag, w)
  {
    hide Wrap, Wanted, Step;
    if items == [] {
    } else {
      hide ReadAll, Select;
      var i, full := items[0], c.(data := Wrap(c.data + lag, w));
      var c', full' := Step(i, c, COMMENT_MASK, w), Step(i, full, ALL_MODES, w);
      var lag' := LagAfter(i, lag, w);
      WantedByCommentMask();
      LagStep(i, c, lag, w);
      CommentOnlyData(items[1..], c', lag', w);
      LagVisible(c'.data, lag', w);
      CommentOnlyStep(items, c, full, c', full', w);
    }
  }

  function LagAfter(i: Item, lag: int, w: nat): (r: int)
    requires WordSize(w) && IsWord(lag, w)
    ensures IsWord(r, w)
  {
    if i.SmallPosition? then Wrap(lag + i.delta, w) else lag
  }

  lemma LagStep(i: Item, c: Cursor, lag: int, w: nat)
    requires WordSize(w) && IsWord(c.data, w) && IsWord(lag, w)
    ensures var full := c.(data := Wrap(c.data + lag, w));
            var c', full' := Step(i, c, COMMENT_MASK, w), Step(i, full, ALL_MODES, w);
            IsWord(c'.data, w) && full' == c'.(data := Wrap(c'.data + LagAfter(i, lag, w), w))
  {
    hide Wrap;
    WantedByCommentMask();
    if i.SmallPosition? || i.Data? { WrapSums(c.data, lag, i.delta, w); }
  }

  lemma WantedByCommentMask()
    ensures forall m :: Wanted(COMMENT_MASK, m) <==> m == Comment
    ensures !WantsPositions(COMMENT_MASK) && WantsDebug(COMMENT_MASK)
    ensures WantsPositions(ALL_MODES) && WantsDebug(ALL_MODES)
  {
    forall m ensures Wanted(COMMENT_MASK, m) <==> m == Comment {
      var n := ModeMask(m);
      assert n in {0x1, 0x2, 0x4, 0x8, 0x10, 0x20, 0x40, 0x80, 0x100, 0x200, 0x400, 0x800, 0x1000, 0x2000};
    }
  }

  lemma LagVisible(x: int, lag: int, w: nat)
    requires WordSize(w) && IsWord(x, w) && IsWord(lag, w)
    ensures Wrap(x + lag, w) == x <==> lag == 0
  {
  }

  /** One step of both iterations, in terms of what the later items deliver. */
  lemma CommentOnlyStep(items: seq<Item>, c: Cursor, full: Cursor, c': Cursor, full': Cursor, w: nat)
    requires WordSize(w) && items != []
    requires c' == Step(items[0], c, COMMENT_MASK, w) && full' == Step(items[0], full, ALL_MODES, w)
    requires forall m :: Wanted(COMMENT_MASK, m) <==> m == Comment
    ensures var shown, right := ReadAll(items, c, COMMENT_MASK, w),
                                Select(ReadAll(items, full, ALL_MODES, w), COMMENT_MASK);
            var shown', right' := ReadAll(items[1..], c', COMMENT_MASK, w),
                                  Select(ReadAll(items[1..], full', ALL_MODES, w), COMMENT_MASK);
            if IsEntry(items[0]) && EntryMode(items[0]) == Comment
            then (shown == right <==> c' == full' && shown' == right')
            else shown == shown' && right == right'
  {
    hide Step, Wanted;
    var later, right' := ReadAll(items[1..], full', ALL_MODES, w),
                         Select(ReadAll(items[1..], full', ALL_MODES, w), COMMENT_MASK);
    if IsEntry(items[0]) {
      var m := EntryMode(items[0]);
      AllModesWanted(m);
      ConsParts(Reloc(full'.pc, m, full'.data), later);
      ConsParts(Reloc(full'.pc, m, full'.data), right');
      ConsParts(Reloc(c'.pc, m, c'.data), ReadAll(items[1..], c', COMMENT_MASK, w));
    }
  }

  /** What else is wanted, positions left aside, changes nothing for the comments. */
  lemma {:induction false} CommentsAlone(items: seq<Item>, c: Cursor, mask: Mask, w: nat)
    requires WordSize(w) && !WantsPositions(mask) && Wanted(mask, Comment)
    ensures Select(ReadAll(items, c, mask, w), COMMENT_MASK) == ReadAll(items, c, COMMENT_MASK, w)
  {
    MaskGroups(mask);
    WantedByCommentMask();
    hide Wrap, Wanted, WantsPositions, WantsDebug, EntryMode;
    if items != [] {
      var c' := Step(items[0], c, mask, w);
      assert c' == Step(items[0], c, COMMENT_MASK, w);
      CommentsAlone(items[1..], c', mask, w);
      if IsEntry(items[0]) {
        ConsParts(Reloc(c'.pc, EntryMode(items[0]), c'.data), ReadAll(items[1..], c', mask, w));
      }
    }
  }

  /** For every mask with comments and without positions: the comments are right exactly when the
      skipped deltas cancel out at every comment. */
  lemma CommentData(items: seq<Item>, c: Cursor, mask: Mask, w: nat)
    requires WordSize(w) && IsWord(c.data, w) && !WantsPositions(mask) && Wanted(mask, Comment)
    ensures Select(ReadAll(items, c, mask, w), COMMENT_MASK) == Select(ReadAll(items, c, ALL_MODES, w), COMMENT_MASK)
            <==> SkippedCancel(items, 0, w)
  {
    hide Wrap, ReadAll, Select, SkippedCancel, Wanted, WantsPositions;
    CommentsAlone(items, c, mask, w);
    CommentOnlyData(items, c, 0, w);
    LagVisible(c.data, 0, w);
  }

  /** The condition on the records written: "lag" is the sum of the position deltas that fit in one
      byte, and it is zero at every comment. */
  predicate ShortPositionsCancel(rs: seq<Reloc>, lastData: int, lag: int, w: nat)
    requires WordSize(w)
  {
    rs == [] ||
    var d := Wrap(rs[0].data - lastData, w);
    if IsPosition(rs[0].mode) && -64 <= d < 64 then ShortPositionsCancel(rs[1..], rs[0].data, Wrap(lag + d, w), w)
    else
      && (rs[0].mode == Comment ==> lag == 0)
      && ShortPositionsCancel(rs[1..], NextData(rs[0], lastData), lag, w)
  }

  lemma {:induction false} RecordsCancel(rs: seq<Reloc>, lastPc: int, lastData: int, lag: int, w: nat)
    requires WordSize(w)
    ensures SkippedCancel(AllItems(rs, lastPc, lastData, w), lag, w) <==> ShortPositionsCancel(rs, lastData, lag, w)
    decreases rs
  {
    hide Wrap, Items, SkippedCancel;
    if rs == [] {
      NothingSkipped(lag, w);
    } else {
      var r := rs[0];
      var d := Wrap(r.data - lastData, w);
      var next := NextData(r, lastData);
      RecordCancels(r, lastPc, lastData, AllItems(rs[1..], r.pc, next, w), lag, w);
      RecordsCancel(rs[1..], r.pc, next, if IsPosition(r.mode) && -64 <= d < 64 then Wrap(lag + d, w) else lag, w);
    }
  }

  lemma NothingSkipped(lag: int, w: nat)
    requires WordSize(w)
    ensures SkippedCancel([], lag, w)
  {
  }

  lemma RecordCancels(r: Reloc, lastPc: int, lastData: int, rest: seq<Item>, lag: int, w: nat)
    requires WordSize(w)
    ensures var d := Wrap(r.data - lastData, w);
            SkippedCancel(Items(r, lastPc, lastData, w) + rest, lag, w)
            <==> if IsPosition(r.mode) && -64 <= d < 64 then SkippedCancel(rest, Wrap(lag + d, w), w)
                 else (r.mode == Comment ==> lag == 0) && SkippedCancel(rest, lag, w)
  {
    hide Wrap, PcDelta, SkippedCancel;
    var delta, d := PcDelta(r.pc, lastPc), Wrap(r.data - lastData, w);
    var jump, tail := PcJump(delta), TailItems(r, delta % 64, d, w);
    assert jump + tail + rest == jump + (tail + rest);
    if jump == [] {
      assert jump + (tail + rest) == tail + rest;
    } else {
      CancelStep(VarJump(delta / 64), tail + rest, lag, w);
    }
    if |tail| == 2 {
      assert tail + rest == [tail[0]] + ([tail[1]] + rest);
      CancelStep(tail[0], [tail[1]] + rest, lag, w);
      CancelStep(tail[1], rest, lag, w);
    } else {
      CancelStep(tail[0], rest, lag, w);
    }
  }

  lemma CancelStep(i: Item, rest: seq<Item>, lag: int, w: nat)
    requires WordSize(w)
    ensures SkippedCancel([i] + rest, lag, w)
            <==> if i.SmallPosition? then SkippedCancel(rest, Wrap(lag + i.delta, w), w)
                 else (IsEntry(i) && EntryMode(i) == Comment ==> lag == 0) && SkippedCancel(rest, lag, w)
  {
    hide Wrap;
    ConsParts(i, rest);
  }

  lemma {:induction false} ShownComments(rs: seq<Reloc>, data: int)
    ensures Select(Shown(rs, data), COMMENT_MASK) == Select(rs, COMMENT_MASK)
  {
    WantedByCommentMask();
    hide Wanted;
    if rs != [] {
      var d := NextData(rs[0], data);
      ShownComments(rs[1..], d);
      ConsParts(rs[0].(data := d), Shown(rs[1..], d));
    }
  }

  /** Over the records: an iteration over what was written that wants comments and no positions
      delivers just the comments written exactly when the short position deltas cancel out. */
  lemma CommentsComeBack(rs: seq<Reloc>, pc: int, mask: Mask, w: nat)
    requires WordSize(w) && WordData(rs, w) && Ascending(rs, pc) && DeltasFit(rs, pc)
    requires !WantsPositions(mask) && Wanted(mask, Comment)
    ensures Select(ReadAll(AllItems(rs, pc, 0, w), Cursor(pc, 0), mask, w), COMMENT_MASK) == Select(rs, COMMENT_MASK)
            <==> ShortPositionsCancel(rs, 0, 0, w)
  {
    hide ReadAll, AllItems, Select, Shown, SkippedCancel, ShortPositionsCancel, Wanted, WantsPositions;
    CommentData(AllItems(rs, pc, 0, w), Cursor(pc, 0), mask, w);
    FullMaskRoundTrip(rs, pc, w);
    ShownComments(rs, 0);
    RecordsCancel(rs, pc, 0, 0, w);
  }

  /** A short position before a comment is enough to make the comment's data wrong. */
  lemma CommentOnlyExample()
    ensures var items := AllItems([Reloc(0, Position, 5), Reloc(0, Comment, 1000)], 0, 0, 8);
            ReadAll(items, Cursor(0, 0), COMMENT_MASK, 8)
            != Select(ReadAll(items, Cursor(0, 0), ALL_MODES, 8), COMMENT_MASK)
  {
    hide ReadAll, Select;
    var rs := [Reloc(0, Position, 5), Reloc(0, Comment, 1000)];
    assert rs[1..] == [rs[1]] && rs[1..][1..] == [];
    assert Items(rs[0], 0, 0, 8) == [SmallPosition(0, false, 5)];
    assert Items(rs[1], 0, 5, 8) == [Jump(0), Data(Comment, 995)];
    assert AllItems(rs[1..], 0, 5, 8) == [Jump(0), Data(Comment, 995)];
    var items := AllItems(rs, 0, 0, 8);
    assert items == [SmallPosition(0, false, 5), Jump(0), Data(Comment, 995)];
    assert items[1..][1..] == [Data(Comment, 995)];
    assert !SkippedCancel(items[1..][1..], 5, 8);
    assert !SkippedCancel(items[1..], 5, 8);
    CommentOnlyData(items, Cursor(0, 0), 0, 8);
  }

  // ---------------------------------------------------------------- the two ends together

  /** Writes a list of records into a fresh buffer. */
  method WriteRecords(rs: seq<Reloc>, pc: int, w: nat) returns (buffer: array<Byte>, pos: nat)
    requires WordSize(w) && Ascending(rs, pc)
    ensures fresh(buffer) && pos <= buffer.Length
    ensures var bytes := EncodeAll(AllItems(rs, pc, 0, w), w);
            && buffer.Length - pos == |bytes|
            && forall k :: 0 <= k < |bytes| ==> buffer[buffer.Length - 1 - k] == bytes[k]
  {
    hide RecordBytes, Items, ItemOk, Encode, NextData;
    buffer := new Byte[MAX_SIZE * |rs|];
    var writer := new RelocInfoWriter(buffer, buffer.Length, pc, w);
    ghost var all := EncodeAll(AllItems(rs, pc, 0, w), w);
    ghost var left := rs;
    for i := 0 to |rs|
      invariant writer.Valid() && writer.buffer == buffer && writer.w == w && writer.top == buffer.Length
      invariant fresh(writer)
      invariant left == rs[i..] && Ascending(left, writer.lastPc)
      invariant writer.pos >= MAX_SIZE * (|rs| - i)
      invariant all == writer.written + EncodeAll(AllItems(left, writer.lastPc, writer.lastData, w), w)
    {
      StreamHead(left, writer.lastPc, writer.lastData, w);
      writer.Write(rs[i]);
      left := left[1..];
    }
    pos := writer.pos;
  }

  lemma StreamHead(rs: seq<Reloc>, pc: int, data: int, w: nat)
    requires WordSize(w) && rs != []
    ensures EncodeAll(AllItems(rs, pc, data, w), w)
         == RecordBytes(rs[0], pc, data, w) + EncodeAll(AllItems(rs[1..], rs[0].pc, NextData(rs[0], data), w), w)
    ensures |RecordBytes(rs[0], pc, data, w)| <= MAX_SIZE
  {
    EncodeAllConcat(Items(rs[0], pc, data, w), AllItems(rs[1..], rs[0].pc, NextData(rs[0], data), w), w);
    ItemsBytes(rs[0], pc, data, w);
    SizeBounds(rs[0], pc, data, w);
  }

  /** Collects everything an iterator delivers. */
  method ReadRecords(buffer: array<Byte>, start: nat, end: nat, pc: int, mask: Mask, w: nat, ghost items: seq<Item>)
    returns (out: seq<Reloc>)
    requires WordSize(w) && AllOk(items, w) && end <= start <= buffer.Length
    requires start - end == |EncodeAll(items, w)|
    requires forall k :: 0 <= k < start - end ==> buffer[start - 1 - k] == EncodeAll(items, w)[k]
    ensures out == ReadAll(items, Cursor(pc, 0), mask, w)
  {
    hide Step, Yields, Encode, ItemOk, EntryMode;
    var it := new RelocIterator(buffer, start, end, pc, mask, w, items);
    out := [];
    while !it.done
      invariant it.Valid() && fresh(it) && it.buffer == buffer
      invariant it.done ==> ReadAll(items, Cursor(pc, 0), mask, w) == out
      invariant !it.done ==> ReadAll(items, Cursor(pc, 0), mask, w)
                             == out + [Reloc(it.pc, it.mode, it.data)] + it.Remaining()
      decreases !it.done, it.pos
    {
      out := out + [Reloc(it.pc, it.mode, it.data)];
      it.Next();
    }
  }

  /** Writing records and iterating over the result with any mask. */
  method WriteThenRead(rs: seq<Reloc>, pc: int, mask: Mask, w: nat) returns (out: seq<Reloc>)
    requires WordSize(w) && WordData(rs, w) && DeltasFit(rs, pc)
    ensures Places(out) == Places(Select(rs, mask))
    ensures mask == ALL_MODES ==> out == Shown(rs, 0)
    ensures WantsPositions(mask) ==> out == Select(Shown(rs, 0), mask)
  {
    hide ReadAll, AllItems, Select, Places, Shown, ItemOk, EncodeAll;
    FitAscending(rs, pc);
    var buffer, pos := WriteRecords(rs, pc, w);
    ghost var items := AllItems(rs, pc, 0, w);
    out := ReadRecords(buffer, buffer.Length, pos, pc, mask, w, items);
    FullMaskRoundTrip(rs, pc, w);
    FilteredPlaces(items, Cursor(pc, 0), Cursor(pc, 0), mask, w);
    ShownPlaces(rs, 0, mask);
    if WantsPositions(mask) { FilteredData(items, Cursor(pc, 0), mask, w); }
  }

  lemma {:induction false} FitAscending(rs: seq<Reloc>, pc: int)
    requires DeltasFit(rs, pc)
    ensures Ascending(rs, pc)
  {
    if rs != [] { FitAscending(rs[1..], rs[0].pc); }
  }

  lemma {:induction false} ShownPlaces(rs: seq<Reloc>, data: int, mask: Mask)
    ensures Places(Select(Shown(rs, data), mask)) == Places(Select(rs, mask))
  {
    if rs != [] {
      var d := NextData(rs[0], data);
      ShownPlaces(rs[1..], d, mask);
      ConsParts(rs[0].(data := d), Shown(rs[1..], d));
      ConsParts(rs[0].(data := d), Select(Shown(rs[1..], d), mask));
      ConsParts(rs[0], Select(rs[1..], mask));
    }
  }
}
