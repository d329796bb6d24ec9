/** Handle scopes: a stack of handles kept in fixed-size blocks, with nested scopes, one spare
    block, values that escape from a scope when it is closed, and the walk over the live slots.

    Addresses are integers counted in slots and 0 is the null pointer.  Two allocated blocks never
    overlap but may touch.  The number of live handles decides everything else: handle i is in
    block i / BLOCK_SIZE, so the pointers next and limit and the number of blocks follow. */
module HandleScopes {
  import opened Wrappers

  type Value = int

  const BLOCK_SIZE := 1022   // KB - 2

  function SlotAt(blocks: seq<int>, i: nat): int
    requires i / BLOCK_SIZE < |blocks|
  {
    blocks[i / BLOCK_SIZE] + i % BLOCK_SIZE
  }

  /** Blocks needed for n handles. */
  function BlockCount(n: nat): nat { (n + BLOCK_SIZE - 1) / BLOCK_SIZE }

  /** One past the last of n handles. */
  function NextFor(blocks: seq<int>, n: nat): int
    requires BlockCount(n) <= |blocks|
  {
    if n == 0 then 0 else SlotAt(blocks, n - 1) + 1
  }

  /** The end of the block that holds the last of n handles. */
  function LimitFor(blocks: seq<int>, n: nat): int
    requires BlockCount(n) <= |blocks|
  {
    if n == 0 then 0 else blocks[(n - 1) / BLOCK_SIZE] + BLOCK_SIZE
  }

  predicate Apart(a: int, b: int) { a + BLOCK_SIZE <= b || b + BLOCK_SIZE <= a }

  /** A possible set of allocated blocks. */
  ghost predicate HeapOk(heap: set<int>) {
    && (forall a :: a in heap ==> a > 0)
    && (forall a, b :: a in heap && b in heap && a != b ==> Apart(a, b))
  }

  ghost predicate Distinct(s: seq<int>) {
    forall i, j :: 0 <= i < j < |s| ==> s[i] != s[j]
  }

  /** The listed blocks are distinct and allocated. */
  ghost predicate BlocksOk(blocks: seq<int>, heap: set<int>) {
    && HeapOk(heap) && Distinct(blocks)
    && forall i :: 0 <= i < |blocks| ==> blocks[i] in heap
  }

  /** The last block is taken from the list, and the spare one, which is not listed, from the heap. */
  lemma PoppedOk(blocks: seq<int>, heap: set<int>, spare: int)
    requires BlocksOk(blocks, heap) && blocks != [] && (spare != 0 ==> spare !in blocks)
    ensures var last, rest := blocks[|blocks| - 1], blocks[..|blocks| - 1];
            && BlocksOk(rest, heap) && BlocksOk(rest, heap - {spare})
            && last in heap && last > 0 && last !in rest && 0 !in heap
            && (forall b :: b in blocks <==> b in rest || b == last)
            && multiset(blocks) == multiset(rest) + multiset{last}
  {
    assert blocks == blocks[..|blocks| - 1] + [blocks[|blocks| - 1]];
  }

  /** Different handles have different slots. */
  lemma SlotsDiffer(blocks: seq<int>, heap: set<int>, i: nat, j: nat)
    requires BlocksOk(blocks, heap)
    requires i / BLOCK_SIZE < |blocks| && j / BLOCK_SIZE < |blocks| && i != j
    ensures SlotAt(blocks, i) != SlotAt(blocks, j)
  {
    var bi, bj := i / BLOCK_SIZE, j / BLOCK_SIZE;
    if bi != bj {
      assert blocks[bi] != blocks[bj];
      assert Apart(blocks[bi], blocks[bj]);
    }
  }

  /** Distinct blocks end at distinct addresses, none at the null pointer: the end of the last
      block is the limit for n handles just when there are no more blocks than those need. */
  lemma LastLimit(blocks: seq<int>, heap: set<int>, n: nat)
    requires BlocksOk(blocks, heap) && BlockCount(n) <= |blocks|
    ensures blocks != [] ==> (blocks[|blocks| - 1] + BLOCK_SIZE == LimitFor(blocks, n) <==> |blocks| == BlockCount(n))
    ensures LimitFor(blocks, n) == 0 <==> n == 0
  {
    if n > 0 {
      var k := (n - 1) / BLOCK_SIZE;
      assert blocks[k] in heap && BlockCount(n) == k + 1;
      assert k < |blocks| - 1 ==> blocks[k] != blocks[|blocks| - 1];
    } else if blocks != [] {
      assert blocks[|blocks| - 1] in heap;
    }
  }

  lemma LimitPrefix(blocks: seq<int>, n: nat, j: nat)
    requires BlockCount(n) <= j <= |blocks|
    ensures LimitFor(blocks[..j], n) == LimitFor(blocks, n)
  {
  }

  lemma {:induction false} UpperBound(heap: set<int>) returns (m: int)
    ensures m > 0 && forall a :: a in heap ==> a < m
    decreases |heap|
  {
    if a :| a in heap {
      m := UpperBound(heap - {a});
      if m <= a { m := a + 1; }
      assert forall b :: b in heap ==> b == a || b in heap - {a};
    } else {
      m := 1;
    }
  }

  lemma NextSlot(blocks: seq<int>, n: nat)
    requires |blocks| == BlockCount(n + 1)
    ensures n / BLOCK_SIZE < |blocks| && NextFor(blocks, n + 1) == SlotAt(blocks, n) + 1
  {
  }

  type Memory = map<int, Value>

  ghost predicate Filled(mem: Memory, blocks: seq<int>, n: nat) {
    && BlockCount(n) <= |blocks|
    && forall i :: 0 <= i < n ==> SlotAt(blocks, i) in mem
  }

  /** The values of the first n handles. */
  ghost function ValuesIn(mem: Memory, blocks: seq<int>, n: nat): (s: seq<Value>)
    requires Filled(mem, blocks, n)
    ensures |s| == n && forall i :: 0 <= i < n ==> s[i] == mem[SlotAt(blocks, i)]
    decreases n
  {
    if n == 0 then [] else ValuesIn(mem, blocks, n - 1) + [mem[SlotAt(blocks, n - 1)]]
  }

  /** Writing the slot after the last handle adds a value and disturbs none. */
  lemma FillNext(mem: Memory, blocks: seq<int>, blocks': seq<int>, heap: set<int>, n: nat, value: Value)
    requires Filled(mem, blocks, n) && blocks <= blocks' && BlocksOk(blocks', heap)
    requires n / BLOCK_SIZE < |blocks'|
    ensures var mem' := mem[SlotAt(blocks', n) := value];
            && Filled(mem', blocks', n + 1)
            && ValuesIn(mem', blocks', n + 1) == ValuesIn(mem, blocks, n) + [value]
  {
    var mem' := mem[SlotAt(blocks', n) := value];
    forall i | 0 <= i < n
      ensures SlotAt(blocks', i) == SlotAt(blocks, i) != SlotAt(blocks', n)
    {
      SlotsDiffer(blocks', heap, i, n);
    }
    assert Filled(mem', blocks', n + 1);
  }

  /** Dropping handles and the blocks they no longer need keeps the rest. */
  lemma KeepFirst(mem: Memory, blocks: seq<int>, n: nat, m: nat)
    requires Filled(mem, blocks, n) && m <= n
    ensures BlockCount(m) <= BlockCount(n)
    ensures Filled(mem, blocks[..BlockCount(m)], m)
    ensures ValuesIn(mem, blocks[..BlockCount(m)], m) == ValuesIn(mem, blocks, n)[..m]
  {
    var kept := blocks[..BlockCount(m)];
    assert forall i :: 0 <= i < m ==> SlotAt(kept, i) == SlotAt(blocks, i);
  }

  /** What a scope found when it was opened (for the specification). */
  datatype Frame = Frame(blocks: seq<int>, values: seq<Value>)

  /** The open scopes fit the present blocks and values: nothing a scope found has changed. */
  ghost predicate FramesOk(frames: seq<Frame>, blocks: seq<int>, values: seq<Value>) {
    && (if frames == [] then values == [] else frames[0].values == [])
    && (forall i :: 0 <= i < |frames| ==>
          && |frames[i].blocks| == BlockCount(|frames[i].values|)
          && frames[i].blocks <= blocks && frames[i].values <= values)
    && (forall i, j :: 0 <= i < j < |frames| ==>
          frames[i].values <= frames[j].values && frames[i].blocks <= frames[j].blocks)
  }

  lemma FramesGrow(frames: seq<Frame>, blocks: seq<int>, values: seq<Value>, blocks': seq<int>, values': seq<Value>)
    requires FramesOk(frames, blocks, values) && frames != []
    requires blocks <= blocks' && values <= values'
    ensures FramesOk(frames, blocks', values')
  {
  }

  lemma FramesEnter(frames: seq<Frame>, blocks: seq<int>, values: seq<Value>)
    requires FramesOk(frames, blocks, values) && |blocks| == BlockCount(|values|)
    ensures FramesOk(frames + [Frame(blocks, values)], blocks, values)
  {
  }

  lemma FramesShrink(frames: seq<Frame>, blocks: seq<int>, values: seq<Value>)
    requires FramesOk(frames, blocks, values) && frames != []
    ensures var f := frames[|frames| - 1];
            && |f.values| <= |values| && f.values == values[..|f.values|]
            && BlockCount(|f.values|) <= |blocks| && f.blocks == blocks[..BlockCount(|f.values|)]
            && FramesOk(frames[..|frames| - 1], f.blocks, f.values)
  {
  }

  class HandleScopeImplementer {
    var blocks: seq<int>
    var spare: int
    var next: int
    var limit: int
    var level: int
    var mem: Memory                         // the contents of the slots
    var heap: set<int>                      // blocks allocated and not freed

    ghost var count: nat                    // live handles
    ghost var frames: seq<Frame>            // one for every open scope
    ghost var everAllocated: multiset<int>
    ghost var everFreed: multiset<int>

    ghost function Values(): seq<Value>
      reads this
      requires Filled(mem, blocks, count)
    {
      ValuesIn(mem, blocks, count)
    }

    ghost predicate Conserved()
      reads this`blocks, this`spare, this`heap, this`everAllocated, this`everFreed
    {
      && BlocksOk(blocks, heap)
      && (spare != 0 ==> spare in heap && spare !in blocks)
      && (forall b :: b in heap ==> b in blocks || b == spare)
      && everAllocated == everFreed + multiset(blocks) + (if spare != 0 then multiset{spare} else multiset{})
    }

    ghost predicate Valid()
      reads this
    {
      && Conserved()
      && |blocks| == BlockCount(count)
      && next == NextFor(blocks, count) && limit == LimitFor(blocks, count)
      && Filled(mem, blocks, count)
      && FramesOk(frames, blocks, Values())
      && level == |frames|
    }

    constructor ()
      ensures Valid() && Values() == [] && frames == [] && blocks == [] && everAllocated == multiset{}
    {
      blocks, spare, next, limit, level, mem, heap := [], 0, 0, 0, 0, map[], {};
      count, frames, everAllocated, everFreed := 0, [], multiset{}, multiset{};
    }

    /** Any free address may be returned. */
    method NewArray() returns (b: int)
      requires HeapOk(heap)
      modifies this`heap, this`everAllocated
      ensures b > 0 && b !in old(heap) && heap == old(heap) + {b} && HeapOk(heap)
      ensures everAllocated == old(everAllocated) + multiset{b}
    {
      ghost var m := UpperBound(heap);
      assert forall a :: a in heap ==> Apart(a, m + BLOCK_SIZE);
      b :| b > 0 && forall a :: a in heap ==> Apart(a, b);
      assert b !in heap by { assert !Apart(b, b); }
      heap, everAllocated := heap + {b}, everAllocated + multiset{b};
    }

    /** Only an allocated block may be freed. */
    method DeleteArray(b: int)
      requires b in heap
      modifies this`heap, this`everFreed
      ensures heap == old(heap) - {b} && everFreed == old(everFreed) + multiset{b}
    {
      heap, everFreed := heap - {b}, everFreed + multiset{b};
    }

    method GetSpareOrNewBlock() returns (block: int)
      requires Conserved()
      modifies this`spare, this`heap, this`everAllocated
      ensures block > 0 && block in heap && block !in blocks && spare == 0
      ensures HeapOk(heap) && old(heap) <= heap && forall b :: b in heap ==> b in blocks || b == block
      ensures everAllocated == everFreed + multiset(blocks) + multiset{block}
    {
      if spare != 0 {
        block := spare;
      } else {
        block := NewArray();
      }
      spare := 0;
    }

    /** The slot of a live handle holds its value. */
    lemma LiveSlot(i: nat)
      requires Valid() && i < count
      ensures i / BLOCK_SIZE < |blocks| && SlotAt(blocks, i) in mem && mem[SlotAt(blocks, i)] == Values()[i]
    {
      hide Conserved, FramesOk, NextFor, LimitFor;
    }

    /** At limit there is no room left in the last block, so the test for more room there fails. */
    lemma FullAtLimit()
      requires Valid() && next == limit
      ensures count % BLOCK_SIZE == 0
      ensures blocks != [] ==> limit == blocks[|blocks| - 1] + BLOCK_SIZE
    {
    }

    /** Makes room for a handle beyond limit.  Without an open scope the failure is reported. */
    method Extend() returns (result: Option<int>)
      requires Valid() && next == limit
      modifies this`blocks, this`spare, this`limit, this`heap, this`everAllocated
      ensures result.None? <==> level == 0
      ensures result.None? ==> unchanged(this)
      ensures result.Some? ==> Conserved() && blocks == old(blocks) + [result.value]
      ensures result.Some? ==> limit == result.value + BLOCK_SIZE && count % BLOCK_SIZE == 0
    {
      if level == 0 { return None; }
      FullAtLimit();
      result := Some(next);
      if blocks != [] {
        var end := blocks[|blocks| - 1] + BLOCK_SIZE;
        limit := if limit != end then end else limit;
      }
      if result.value == limit {
        var block := AddBlock();
        result := Some(block);
      }
    }

    method AddBlock() returns (block: int)
      requires Conserved()
      modifies this`blocks, this`spare, this`limit, this`heap, this`everAllocated
      ensures Conserved() && blocks == old(blocks) + [block] && limit == block + BLOCK_SIZE
    {
      block := GetSpareOrNewBlock();
      blocks := blocks + [block];
      limit := block + BLOCK_SIZE;
    }

    /** Adds a handle to the innermost scope. */
    method CreateHandle(value: Value) returns (slot: Option<int>)
      requires Valid()
      modifies this
      ensures Valid() && frames == old(frames)
      ensures slot.None? <==> frames == []
      ensures slot.None? ==> unchanged(this)
      ensures slot.Some? ==> Values() == old(Values()) + [value] && old(blocks) <= blocks
      ensures slot.Some? ==> slot.value == SlotAt(blocks, old(count))
    {
      hide Conserved, FramesOk, Filled;
      ghost var before := blocks;
      var cur := next;
      if cur == limit {
        var extended := Extend();
        if extended.None? { return None; }
        cur := extended.value;
        assert |blocks| == BlockCount(count + 1) && cur == SlotAt(blocks, count);
      } else {
        RoomBeforeLimit();
      }
      Store(cur, value, before);
      slot := Some(cur);
    }

    lemma RoomBeforeLimit()
      requires Valid() && next != limit
      ensures |blocks| == BlockCount(count + 1) && next == SlotAt(blocks, count)
      ensures limit == LimitFor(blocks, count + 1) && frames != []
    {
    }

    lemma StoreBlocks()
      requires Conserved()
      ensures BlocksOk(blocks, heap)
    {
    }

    /** The end of CreateHandle: cur is the slot after the last handle. */
    method Store(cur: int, value: Value, ghost before: seq<int>)
      requires Conserved() && level == |frames| && frames != []
      requires |blocks| == BlockCount(count + 1) && cur == SlotAt(blocks, count)
      requires limit == LimitFor(blocks, count + 1)
      requires before <= blocks && Filled(mem, before, count)
      requires FramesOk(frames, before, ValuesIn(mem, before, count))
      modifies this`next, this`mem, this`count
      ensures Valid() && count == old(count) + 1
      ensures Values() == old(ValuesIn(mem, before, count)) + [value]
    {
      hide FramesOk, Conserved, Filled, BlocksOk, BlockCount, NextFor, LimitFor, SlotAt;
      ghost var values := ValuesIn(mem, before, count);
      NextSlot(blocks, count);
      assert BlocksOk(blocks, heap) by { StoreBlocks(); }
      FillNext(mem, before, blocks, heap, count, value);
      FramesGrow(frames, before, values, blocks, values + [value]);
      next := cur + 1;
      mem := mem[cur := value];
      count := count + 1;
    }

    /** Pops the blocks beyond those that the first n handles need; the last one popped is kept
        as the spare block and the others are freed. */
    method DeleteExtensions(prevLimit: int, ghost n: nat)
      requires Conserved() && BlockCount(n) <= |blocks| && prevLimit == LimitFor(blocks, n)
      modifies this`blocks, this`spare, this`heap, this`everFreed
      ensures Conserved() && blocks == old(blocks)[..BlockCount(n)]
      ensures spare == if |blocks| < |old(blocks)| then old(blocks)[|blocks|] else old(spare)
      ensures blocks == [] <==> prevLimit == 0
      ensures blocks != [] ==> blocks[|blocks| - 1] + BLOCK_SIZE == prevLimit
    {
      hide LimitFor, BlocksOk;
      ghost var k, all := BlockCount(n), blocks;
      while blocks != []
        invariant Conserved() && k <= |blocks| <= |all| && blocks == all[..|blocks|]
        invariant spare == if |blocks| < |all| then all[|blocks|] else old(spare)
        decreases |blocks|
      {
        var blockStart := blocks[|blocks| - 1];
        var blockLimit := blockStart + BLOCK_SIZE;
        LastLimit(blocks, heap, n);
        LimitPrefix(all, n, |blocks|);
        if prevLimit == blockLimit { break; }
        PopBlock();
      }
      LastLimit(blocks, heap, n);
      LimitPrefix(all, n, |blocks|);
    }

    /** One round of that loop. */
    method PopBlock()
      requires Conserved() && blocks != []
      modifies this`blocks, this`spare, this`heap, this`everFreed
      ensures Conserved() && blocks == old(blocks)[..|old(blocks)| - 1]
      ensures spare == old(blocks)[|old(blocks)| - 1]
    {
      hide BlocksOk;
      var blockStart := blocks[|blocks| - 1];
      PoppedOk(blocks, heap, spare);
      blocks := blocks[..|blocks| - 1];
      if spare != 0 {
        DeleteArray(spare);
      }
      spare := blockStart;
    }

    method NumberOfHandles() returns (n: int)
      requires Valid()
      ensures n == |Values()|
    {
      n := if blocks == [] then 0 else (|blocks| - 1) * BLOCK_SIZE + (next - blocks[|blocks| - 1]);
    }

    /** The walk over the roots: it visits the slot of every live handle once, and no other. */
    method IterateThis() returns (visited: seq<int>)
      requires Valid()
      ensures multiset(visited) == multiset(Slots(blocks, count))
      ensures forall a :: multiset(visited)[a] <= 1
      ensures forall a :: a in visited ==> a in mem
    {
      hide Conserved, FramesOk, FullCells, Slots, NextFor, LimitFor, Filled, Cells, SlotAt;
      visited := [];
      if blocks != [] {
        visited := VisitFullBlocks(blocks[..|blocks| - 1]);
        var last := blocks[|blocks| - 1];
        CountByNext();
        visited := VisitPointers(visited, last, next);
        SlotsByBlock(blocks, |blocks| - 1, next - last);
      }
      RootsOnce();
      assert forall a :: a in visited <==> a in multiset(visited);
    }

    lemma CountByNext()
      requires Valid() && blocks != []
      ensures 0 < next - blocks[|blocks| - 1] <= BLOCK_SIZE
      ensures count == (|blocks| - 1) * BLOCK_SIZE + (next - blocks[|blocks| - 1])
    {
    }

    lemma RootsOnce()
      requires Valid()
      ensures forall a :: multiset(Slots(blocks, count))[a] <= 1
      ensures forall a :: a in multiset(Slots(blocks, count)) ==> a in mem
      ensures blocks == [] ==> Slots(blocks, count) == []
    {
      SlotsOnce(mem, blocks, heap, count);
    }

    /** The loop over all blocks but the last, newest first. */
    static method VisitFullBlocks(full: seq<int>) returns (visited: seq<int>)
      ensures multiset(visited) == multiset(FullCells(full))
    {
      hide Cells;
      visited := [];
      var i := |full| - 1;
      assert full[..|full|] == full;
      while i >= 0
        invariant -1 <= i < |full|
        invariant multiset(visited) + multiset(FullCells(full[..i + 1])) == multiset(FullCells(full))
      {
        assert full[..i + 1][..i] == full[..i];
        visited := VisitPointers(visited, full[i], full[i] + BLOCK_SIZE);
        i := i - 1;
      }
    }

    /** The slots from start up to end. */
    static method VisitPointers(visited: seq<int>, start: int, end: int) returns (r: seq<int>)
      requires start <= end
      ensures r == visited + Cells(start, end - start)
    {
      r := visited;
      for p := start to end
        invariant r == visited + Cells(start, p - start)
      {
        r := r + [p];
      }
    }

    lemma LevelCounts()
      requires Valid()
      ensures level == |frames|
    {
    }

    /** Opens a scope; returns what HandleScope stores. */
    method EnterScope() returns (prevNext: int, prevLimit: int)
      requires Valid()
      modifies this`level, this`frames
      ensures Valid() && frames == old(frames) + [Frame(blocks, Values())]
      ensures prevNext == next && prevLimit == limit
    {
      hide Conserved, FramesOk, Filled;
      FramesEnter(frames, blocks, Values());
      prevNext, prevLimit := next, limit;
      level := level + 1;
      frames := frames + [Frame(blocks, Values())];
    }

    /** Leaves the innermost scope, given what it stored when it was opened. */
    method LeaveScope(prevNext: int, prevLimit: int)
      requires Valid() && frames != []
      requires var f := frames[|frames| - 1];
               prevNext == NextFor(f.blocks, |f.values|) && prevLimit == LimitFor(f.blocks, |f.values|)
      modifies this
      ensures Valid() && frames == old(frames)[..|old(frames)| - 1]
      ensures Frame(blocks, Values()) == old(frames)[|old(frames)| - 1]
      ensures next == prevNext && limit == prevLimit && level == old(level) - 1
    {
      hide Conserved, LimitFor, NextFor, FramesOk, ValuesIn, Filled, BlockCount;
      ghost var f, outer := frames[|frames| - 1], frames[..|frames| - 1];
      ghost var n := |f.values|;
      LeaveFacts();
      assert Filled(mem, f.blocks, n) && ValuesIn(mem, f.blocks, n) == f.values && FramesOk(outer, f.blocks, f.values);
      assert level == |frames| && |f.blocks| == BlockCount(n);
      level := level - 1;
      next := prevNext;
      if limit != prevLimit {
        limit := prevLimit;
        DeleteExtensions(limit, n);
        assert blocks == f.blocks;
      }
      assert Conserved() && blocks == f.blocks && limit == prevLimit;
      count := n;
      frames := outer;
    }

    /** The state that the innermost scope found is the present one, cut back. */
    lemma LeaveFacts()
      requires Valid() && frames != []
      ensures var f := frames[|frames| - 1];
              var n := |f.values|;
              && BlockCount(n) <= |blocks| && f.blocks == blocks[..BlockCount(n)] && |f.blocks| == BlockCount(n)
              && Filled(mem, f.blocks, n) && ValuesIn(mem, f.blocks, n) == f.values
              && LimitFor(f.blocks, n) == LimitFor(blocks, n)
              && (limit == LimitFor(blocks, n) ==> blocks == f.blocks)
              && FramesOk(frames[..|frames| - 1], f.blocks, f.values)
    {
      var n := |frames[|frames| - 1].values|;
      FramesShrink(frames, blocks, Values());
      KeepFirst(mem, blocks, count, n);
      LastLimit(blocks, heap, n);
      LimitPrefix(blocks, n, BlockCount(n));
    }
  }

  datatype CloseResult =
    | AlreadyClosed      // reported, nothing changes
    | NullResult         // the scope is left, there was no value to keep
    | NoEnclosingScope   // the scope is left, the value has nowhere to go: reported
    | Escaped(slot: int)

  class HandleScope {
    const impl: HandleScopeImplementer
    const prevNext: int
    const prevLimit: int
    var isClosed: bool
    ghost const entered: Frame

    /** This is the innermost open scope. */
    ghost predicate Innermost()
      reads this, impl
    {
      && impl.frames != [] && entered == impl.frames[|impl.frames| - 1]
      && |entered.blocks| == BlockCount(|entered.values|)
      && prevNext == NextFor(entered.blocks, |entered.values|)
      && prevLimit == LimitFor(entered.blocks, |entered.values|)
    }

    constructor (impl: HandleScopeImplementer)
      requires impl.Valid()
      modifies impl`level, impl`frames
      ensures impl.Valid() && this.impl == impl && !isClosed && Innermost()
      ensures entered == Frame(impl.blocks, impl.Values()) && impl.frames == old(impl.frames) + [entered]
      ensures prevNext == impl.next && prevLimit == impl.limit
    {
      this.impl := impl;
      this.prevNext, this.prevLimit, this.isClosed := impl.next, impl.limit, false;
      this.entered := Frame(impl.blocks, impl.Values());
      new;
      var _, _ := impl.EnterScope();
    }

    /** Whatever happened inside: the next and limit pointers, the level, the block list and every
        outer value are again what they were on entry. */
    method Leave()
      requires impl.Valid() && Innermost()
      modifies impl
      ensures impl.Valid() && impl.frames == old(impl.frames)[..|old(impl.frames)| - 1]
      ensures impl.blocks == entered.blocks && impl.Values() == entered.values
      ensures impl.next == prevNext && impl.limit == prevLimit && impl.level == old(impl.level) - 1
    {
      impl.LeaveScope(prevNext, prevLimit);
    }

    /** Closes the scope and keeps what one slot holds, be it a handle of this scope, of another one,
        or a persistent one outside all blocks. */
    method RawClose(value: Option<int>) returns (r: CloseResult)
      requires impl.Valid() && (!isClosed ==> Innermost())
      requires !isClosed && value.Some? ==> value.value in impl.mem
      modifies this, impl
      ensures impl.Valid() && isClosed
      ensures r.AlreadyClosed? <==> old(isClosed)
      ensures r.AlreadyClosed? ==> old(impl.frames) == impl.frames && old(impl.Values()) == impl.Values()
      ensures !r.AlreadyClosed? ==> impl.frames == old(impl.frames)[..|old(impl.frames)| - 1]
      ensures r.NullResult? <==> !old(isClosed) && value.None?
      ensures r.NoEnclosingScope? <==> !old(isClosed) && value.Some? && impl.frames == []
      ensures r.NullResult? || r.NoEnclosingScope? ==> impl.Values() == entered.values
      ensures r.Escaped? ==> impl.Values() == entered.values + [old(impl.mem)[value.value]]
      ensures r.Escaped? ==> r.slot == SlotAt(impl.blocks, |entered.values|)
    {
      if isClosed { return AlreadyClosed; }
      var result := if value.Some? then impl.mem[value.value] else 0;
      isClosed := true;
      Leave();
      if value.None? { return NullResult; }
      var slot := impl.CreateHandle(result);
      r := if slot.None? then NoEnclosingScope else Escaped(slot.value);
    }

    /** Leaves the scope unless it has been closed. */
    method Destroy()
      requires impl.Valid() && (!isClosed ==> Innermost())
      modifies impl
      ensures impl.Valid()
      ensures isClosed ==> impl.frames == old(impl.frames) && impl.Values() == old(impl.Values())
      ensures !isClosed ==> impl.frames == old(impl.frames)[..|old(impl.frames)| - 1]
                            && impl.Values() == entered.values && impl.blocks == entered.blocks
    {
      if !isClosed { Leave(); }
    }
  }

  /** What code does with scopes: it creates handles, and opens scopes that it leaves again,
      perhaps closing them first with the value of some live handle. */
  datatype Action =
    | Create(value: Value)
    | Scope(body: seq<Action>)
    | ScopeClosing(body: seq<Action>, index: nat)

  /** The handles after one action, and after several: a scope leaves nothing but the value it was
      closed with. */
  function Effect(a: Action, values: seq<Value>): seq<Value>
    decreases a, 0
  {
    match a
    case Create(v) => values + [v]
    case Scope(_) => values
    case ScopeClosing(body, i) =>
      var inner := Exec(body, values);
      if i < |inner| then values + [inner[i]] else values
  }

  function Exec(actions: seq<Action>, values: seq<Value>): seq<Value>
    decreases actions, 1
  {
    if actions == [] then values else Exec(actions[1..], Effect(actions[0], values))
  }

  /** Runs any well-nested code inside a scope; the state is sound throughout and every scope has
      exactly the effect Exec says. */
  method Run(impl: HandleScopeImplementer, actions: seq<Action>)
    requires impl.Valid() && impl.frames != []
    modifies impl
    ensures impl.Valid() && impl.frames == old(impl.frames)
    ensures impl.Values() == Exec(actions, old(impl.Values()))
    decreases actions, 1
  {
    hide HandleScopeImplementer.Valid, Filled, Effect;
    if actions == [] { return; }
    Perform(impl, actions[0]);
    Run(impl, actions[1..]);
  }

  method Perform(impl: HandleScopeImplementer, a: Action)
    requires impl.Valid() && impl.frames != []
    modifies impl
    ensures impl.Valid() && impl.frames == old(impl.frames)
    ensures impl.Values() == Effect(a, old(impl.Values()))
    decreases a, 0
  {
    hide HandleScopeImplementer.Valid, Filled, Exec;
    match a {
      case Create(v) =>
        var _ := impl.CreateHandle(v);
      case Scope(body) =>
        RunScope(impl, body);
      case ScopeClosing(body, i) =>
        RunScopeClosing(impl, body, i);
    }
  }

  method RunScope(impl: HandleScopeImplementer, body: seq<Action>)
    requires impl.Valid()
    modifies impl
    ensures impl.Valid() && impl.frames == old(impl.frames) && impl.Values() == old(impl.Values())
    ensures impl.next == old(impl.next) && impl.limit == old(impl.limit) && impl.level == old(impl.level)
    ensures impl.blocks == old(impl.blocks)
    decreases body, 2
  {
    hide HandleScopeImplementer.Valid, Filled;
    impl.LevelCounts();
    var scope := new HandleScope(impl);
    Run(impl, body);
    scope.Leave();
    impl.LevelCounts();
  }

  method RunScopeClosing(impl: HandleScopeImplementer, body: seq<Action>, i: nat)
    requires impl.Valid() && impl.frames != []
    modifies impl
    ensures impl.Valid() && impl.frames == old(impl.frames)
    ensures var inner := Exec(body, old(impl.Values()));
            impl.Values() == if i < |inner| then old(impl.Values()) + [inner[i]] else old(impl.Values())
    decreases body, 2
  {
    hide HandleScopeImplementer.Valid, Filled, Exec, BlockCount, NextFor, LimitFor;
    var scope := new HandleScope(impl);
    Run(impl, body);
    CloseWith(scope, i);
    scope.Destroy();
  }

  /** Closes a scope with the value of handle number i, or with none when there is no such handle. */
  method CloseWith(scope: HandleScope, i: nat)
    requires scope.impl.Valid() && !scope.isClosed && scope.Innermost() && |scope.impl.frames| > 1
    modifies scope, scope.impl
    ensures scope.impl.Valid() && scope.isClosed
    ensures scope.impl.frames == old(scope.impl.frames)[..|old(scope.impl.frames)| - 1]
    ensures var inner := old(scope.impl.Values());
            scope.impl.Values() == if i < |inner| then scope.entered.values + [inner[i]] else scope.entered.values
  {
    hide HandleScopeImplementer.Valid, Filled, BlockCount, NextFor, LimitFor;
    var n := scope.impl.NumberOfHandles();
    if i < n {
      scope.impl.LiveSlot(i);
      var _ := scope.RawClose(Some(scope.impl.blocks[i / BLOCK_SIZE] + i % BLOCK_SIZE));
    } else {
      var _ := scope.RawClose(None);
    }
  }

  /** The break test of a debug build accepts any prev_limit inside or at either end of a block.
      It stops where the release test stops unless a block begins where the last one kept ends. */
  lemma DebugBreakTest(blocks: seq<int>, heap: set<int>, n: nat, j: nat)
    requires BlocksOk(blocks, heap) && BlockCount(n) <= |blocks| && j < |blocks| && j + 1 >= BlockCount(n)
    ensures var prevLimit := LimitFor(blocks, n);
            (blocks[j] <= prevLimit <= blocks[j] + BLOCK_SIZE) == (prevLimit == blocks[j] + BLOCK_SIZE)
            <==> blocks[j] != prevLimit
  {
    assert blocks[j] in heap;
    if n > 0 {
      var k := (n - 1) / BLOCK_SIZE;
      assert blocks[k] in heap;
      if k != j { assert blocks[k] != blocks[j]; assert Apart(blocks[k], blocks[j]); }
    }
  }

  function Cells(start: int, n: nat): (s: seq<int>)
    ensures |s| == n
  {
    if n == 0 then [] else Cells(start, n - 1) + [start + n - 1]
  }

  function FullCells(blocks: seq<int>): seq<int> {
    if blocks == [] then []
    else FullCells(blocks[..|blocks| - 1]) + Cells(blocks[|blocks| - 1], BLOCK_SIZE)
  }

  /** The slots of the first n handles, oldest first. */
  function Slots(blocks: seq<int>, n: nat): seq<int>
    requires BlockCount(n) <= |blocks|
    decreases n
  {
    if n == 0 then [] else Slots(blocks, n - 1) + [SlotAt(blocks, n - 1)]
  }

  /** All blocks before the one in use are full. */
  lemma {:induction false} SlotsByBlock(blocks: seq<int>, m: nat, r: nat)
    requires m < |blocks| && r <= BLOCK_SIZE
    ensures Slots(blocks, m * BLOCK_SIZE + r) == FullCells(blocks[..m]) + Cells(blocks[m], r)
    decreases m, r
  {
    if r > 0 {
      SlotsByBlock(blocks, m, r - 1);
      var n := m * BLOCK_SIZE + r - 1;
      assert n / BLOCK_SIZE == m && n % BLOCK_SIZE == r - 1;
    } else if m > 0 {
      SlotsByBlock(blocks, m - 1, BLOCK_SIZE);
      assert blocks[..m][..m - 1] == blocks[..m - 1];
    }
  }

  lemma OneMore(s: seq<int>, x: int)
    ensures multiset(s + [x]) == multiset(s) + multiset{x}
  {
  }

  lemma FilledFirst(mem: Memory, blocks: seq<int>, n: nat)
    requires n > 0 && Filled(mem, blocks, n)
    ensures Filled(mem, blocks, n - 1) && (n - 1) / BLOCK_SIZE < |blocks| && SlotAt(blocks, n - 1) in mem
  {
  }

  lemma {:induction false} SlotsOnce(mem: Memory, blocks: seq<int>, heap: set<int>, n: nat)
    requires BlocksOk(blocks, heap) && Filled(mem, blocks, n)
    ensures forall a :: multiset(Slots(blocks, n))[a] <= 1
    ensures forall a :: a in multiset(Slots(blocks, n)) <==> exists i :: 0 <= i < n && SlotAt(blocks, i) == a
    ensures forall a :: a in multiset(Slots(blocks, n)) ==> a in mem
    decreases n
  {
    hide BlocksOk, Filled, SlotAt;
    if n > 0 {
      FilledFirst(mem, blocks, n);
      SlotsOnce(mem, blocks, heap, n - 1);
      var last := SlotAt(blocks, n - 1);
      OneMore(Slots(blocks, n - 1), last);
      forall i | 0 <= i < n - 1 ensures SlotAt(blocks, i) != last {
        SlotsDiffer(blocks, heap, i, n - 1);
      }
    }
  }
}
