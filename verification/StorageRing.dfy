/** Rings of storage headers linked in both directions, and the allocator that moves chunks of one
    preallocated block between a free ring and a ring in use. */
module StorageRing {
  import opened Wrappers

  // ------------------------------------------------------------ rings as sequences

  ghost function InsertAfter<T>(r: seq<T>, x: T, n: T): seq<T> {
    if r == [] then [] else if r[0] == x then [x, n] + r[1..] else [r[0]] + InsertAfter(r[1..], x, n)
  }

  ghost function Remove<T>(r: seq<T>, n: T): seq<T> {
    if r == [] then [] else if r[0] == n then r[1..] else [r[0]] + Remove(r[1..], n)
  }

  ghost predicate Distinct<T>(r: seq<T>) { forall i, j :: 0 <= i < j < |r| ==> r[i] != r[j] }

  lemma {:induction false} InsertAt<T>(r: seq<T>, i: nat, n: T)
    requires i < |r| && Distinct(r)
    ensures InsertAfter(r, r[i], n) == r[..i + 1] + [n] + r[i + 1..]
  {
    if i > 0 {
      InsertAt(r[1..], i - 1, n);
      assert r[..i + 1] == [r[0]] + r[1..][..i];
    }
  }

  lemma {:induction false} RemoveAt<T>(r: seq<T>, i: nat)
    requires i < |r| && Distinct(r)
    ensures Remove(r, r[i]) == r[..i] + r[i + 1..]
  {
    if i > 0 {
      RemoveAt(r[1..], i - 1);
      assert r[..i] == [r[0]] + r[1..][..i - 1];
    }
  }

  lemma {:induction false} Untouched<T>(r: seq<T>, x: T, n: T)
    requires x !in r
    ensures InsertAfter(r, x, n) == r && Remove(r, x) == r
  {
    if r != [] { Untouched(r[1..], x, n); }
  }

  /** Taking out what was put in gives the ring back. */
  lemma {:induction false} InsertThenRemove<T>(r: seq<T>, x: T, n: T)
    requires n !in r
    ensures Remove(InsertAfter(r, x, n), n) == r
  {
    if r != [] && r[0] != x {
      InsertThenRemove(r[1..], x, n);
    }
  }

  // ------------------------------------------------------------ several rings

  ghost predicate Holds<T>(rs: seq<seq<T>>, x: T) { exists a: nat :: a < |rs| && x in rs[a] }

  ghost predicate Disjoint<T>(rs: seq<seq<T>>) {
    forall a: nat, b: nat, i: nat :: a < b < |rs| && i < |rs[a]| ==> rs[a][i] !in rs[b]
  }

  ghost function Linked<T>(rs: seq<seq<T>>, x: T, n: T): seq<seq<T>> {
    seq(|rs|, a requires 0 <= a < |rs| => InsertAfter(rs[a], x, n))
  }

  ghost function Unlinked<T>(rs: seq<seq<T>>, n: T): seq<seq<T>> {
    seq(|rs|, a requires 0 <= a < |rs| => Remove(rs[a], n))
  }

  lemma {:induction false} InsertMembers<T>(r: seq<T>, x: T, n: T)
    ensures forall y :: y in InsertAfter(r, x, n) <==> y in r || (y == n && x in r)
  {
    if r != [] && r[0] != x {
      InsertMembers(r[1..], x, n);
      assert r == [r[0]] + r[1..];
    }
  }

  lemma {:induction false} RemoveMembers<T>(r: seq<T>, n: T)
    requires Distinct(r)
    ensures forall y :: y in Remove(r, n) <==> y in r && y != n
  {
    if r != [] {
      assert r == [r[0]] + r[1..];
      if r[0] != n { RemoveMembers(r[1..], n); }
    }
  }

  lemma DisjointAt<T>(rs: seq<seq<T>>, a: nat, b: nat, y: T)
    requires Disjoint(rs) && a < b < |rs|
    ensures !(y in rs[a] && y in rs[b])
  {
  }

  lemma LinkedDisjoint<T>(rs: seq<seq<T>>, x: T, n: T)
    requires Disjoint(rs) && !Holds(rs, n)
    ensures Disjoint(Linked(rs, x, n))
    ensures forall y :: Holds(Linked(rs, x, n), y) <==> Holds(rs, y) || (y == n && Holds(rs, x))
  {
    var rs' := Linked(rs, x, n);
    forall a: nat | a < |rs|
      ensures forall y :: y in rs'[a] <==> y in rs[a] || (y == n && x in rs[a])
    {
      InsertMembers(rs[a], x, n);
    }
    forall a: nat, b: nat, i: nat | a < b < |rs| && i < |rs'[a]| ensures rs'[a][i] !in rs'[b] {
      InsertApart(rs[a], rs[b], x, n);
    }
  }

  lemma InsertApart<T>(r: seq<T>, q: seq<T>, x: T, n: T)
    requires forall y :: y in r ==> y !in q
    requires n !in r && n !in q
    ensures forall y :: y in InsertAfter(r, x, n) ==> y !in InsertAfter(q, x, n)
  {
    InsertMembers(r, x, n);
    InsertMembers(q, x, n);
  }

  lemma RemoveApart<T>(r: seq<T>, q: seq<T>, n: T)
    requires Distinct(r) && Distinct(q) && forall y :: y in r ==> y !in q
    ensures forall y :: y in Remove(r, n) ==> y !in Remove(q, n)
  {
    RemoveMembers(r, n);
    RemoveMembers(q, n);
  }

  lemma UnlinkedDisjoint<T>(rs: seq<seq<T>>, n: T)
    requires Disjoint(rs) && forall a: nat :: a < |rs| ==> Distinct(rs[a])
    ensures Disjoint(Unlinked(rs, n))
    ensures forall y :: Holds(Unlinked(rs, n), y) <==> Holds(rs, y) && y != n
  {
    var rs' := Unlinked(rs, n);
    forall a: nat | a < |rs|
      ensures forall y :: y in rs'[a] <==> y in rs[a] && y != n
    {
      RemoveMembers(rs[a], n);
    }
    forall a: nat, b: nat, i: nat | a < b < |rs| && i < |rs'[a]| ensures rs'[a][i] !in rs'[b] {
      RemoveApart(rs[a], rs[b], n);
    }
  }

  // ------------------------------------------------------------ rings of headers

  class PreallocatedStorage {
    const address: nat
    var size: nat
    var next: PreallocatedStorage
    var previous: PreallocatedStorage

    /** A header at an address, alone in its ring. */
    constructor (address: nat, size: nat)
      ensures this.address == address && this.size == size && IsRing([this])
    {
      this.address := address;
      this.size := size;
      previous, next := this, this;
    }

    /** Puts this header right after `other`; the other rings stay as they are. */
    method LinkTo(other: PreallocatedStorage, ghost rs: seq<seq<PreallocatedStorage>>)
      requires AreRings(rs) && Holds(rs, other) && !Holds(rs, this)
      modifies this`next, this`previous, other`next, other.next`previous
      ensures AreRings(Linked(rs, other, this))
      ensures next == old(other.next) && previous == other
    {
      hide Linked, InsertAfter, Distinct;
      ghost var a: nat, i: nat := Place(rs, other);
      ghost var r := rs[a];
      DistinctAt(r, i);
      DistinctAt(r, After(|r|, i));
      OtherRings(rs, a, {this, other, other.next});
      next := other.next;
      other.next.previous := this;
      previous := other;
      other.next := this;
      RingWith(r, i, this);
      LinkedRings(rs, a, i, this);
    }

    /** Takes this header out of its ring; its own links stay as they were unless it is alone. */
    method Unlink(ghost rs: seq<seq<PreallocatedStorage>>)
      requires AreRings(rs) && Holds(rs, this)
      modifies next`previous, previous`next
      ensures AreRings(Unlinked(rs, this))
      ensures next == old(next) && previous == old(previous)
    {
      hide Unlinked, Remove, Distinct;
      ghost var a: nat, i: nat := Place(rs, this);
      ghost var r := rs[a];
      DistinctAt(r, Before(|r|, i));
      DistinctAt(r, After(|r|, i));
      OtherRings(rs, a, {next, previous});
      next.previous := previous;
      previous.next := next;
      RingWithout(r, i);
      UnlinkedRings(rs, a, i);
    }
  }

  lemma Place(rs: seq<seq<PreallocatedStorage>>, x: PreallocatedStorage) returns (a: nat, i: nat)
    requires Holds(rs, x)
    ensures a < |rs| && i < |rs[a]| && rs[a][i] == x
  {
    a, i :| a < |rs| && i < |rs[a]| && rs[a][i] == x;
  }

  lemma OtherRings(rs: seq<seq<PreallocatedStorage>>, a: nat, touched: set<PreallocatedStorage>)
    requires Disjoint(rs) && a < |rs|
    requires forall x :: x in touched ==> x in rs[a] || !Holds(rs, x)
    ensures forall b: nat, i: nat :: b < |rs| && b != a && i < |rs[b]| ==> rs[b][i] !in touched
  {
    forall b: nat, i: nat | b < |rs| && b != a && i < |rs[b]| ensures rs[b][i] !in touched {
      DisjointAt(rs, if a < b then a else b, if a < b then b else a, rs[b][i]);
    }
  }

  lemma LinkedRings(rs: seq<seq<PreallocatedStorage>>, a: nat, i: nat, n: PreallocatedStorage)
    requires Disjoint(rs) && !Holds(rs, n) && a < |rs| && i < |rs[a]| && Distinct(rs[a])
    requires IsRing(rs[a][..i + 1] + [n] + rs[a][i + 1..])
    requires forall b: nat :: b < |rs| && b != a ==> IsRing(rs[b])
    ensures AreRings(Linked(rs, rs[a][i], n))
  {
    hide IsRing;
    LinkedDisjoint(rs, rs[a][i], n);
    InsertAt(rs[a], i, n);
    OtherRings(rs, a, {rs[a][i]});
    forall b: nat | b < |rs| && b != a ensures InsertAfter(rs[b], rs[a][i], n) == rs[b] {
      Untouched(rs[b], rs[a][i], n);
    }
  }

  lemma UnlinkedRings(rs: seq<seq<PreallocatedStorage>>, a: nat, i: nat)
    requires Disjoint(rs) && a < |rs| && i < |rs[a]| && forall b: nat :: b < |rs| ==> Distinct(rs[b])
    requires IsRing(rs[a][..i] + rs[a][i + 1..])
    requires forall b: nat :: b < |rs| && b != a ==> IsRing(rs[b])
    ensures AreRings(Unlinked(rs, rs[a][i]))
  {
    hide IsRing;
    UnlinkedDisjoint(rs, rs[a][i]);
    RemoveAt(rs[a], i);
    OtherRings(rs, a, {rs[a][i]});
    forall b: nat | b < |rs| && b != a ensures Remove(rs[b], rs[a][i]) == rs[b] {
      Untouched(rs[b], rs[a][i], rs[a][i]);
    }
  }

  function Before(n: nat, k: nat): nat
    requires n > 0
  {
    if k > 0 then k - 1 else n - 1
  }

  function After(n: nat, k: nat): nat { if k + 1 < n then k + 1 else 0 }

  /** Following `next` goes once round r, and following `previous` goes back. */
  ghost predicate IsRing(r: seq<PreallocatedStorage>)
    reads r`next, r`previous
  {
    && Distinct(r)
    && (forall k: nat {:trigger r[k].next} :: k < |r| ==> r[k].next == r[After(|r|, k)])
    && (forall k: nat {:trigger r[k].previous} :: k < |r| ==> r[k].previous == r[Before(|r|, k)])
  }

  lemma DistinctAt<T>(r: seq<T>, i: nat)
    requires Distinct(r) && i < |r|
    ensures forall k: nat :: k < |r| ==> (r[k] == r[i] <==> k == i)
  {
  }

  /** The links of r with n put in after i. */
  lemma RingWith(r: seq<PreallocatedStorage>, i: nat, n: PreallocatedStorage)
    requires i < |r| && Distinct(r) && n !in r
    requires forall k: nat {:trigger r[k].next} :: k < |r| ==> r[k].next == (if k == i then n else r[After(|r|, k)])
    requires forall k: nat {:trigger r[k].previous} :: k < |r| ==>
               r[k].previous == (if k == After(|r|, i) then n else r[Before(|r|, k)])
    requires n.next == r[After(|r|, i)] && n.previous == r[i]
    ensures IsRing(r[..i + 1] + [n] + r[i + 1..])
  {
    DistinctWith(r, i, n);
    hide Distinct;
    var r' := r[..i + 1] + [n] + r[i + 1..];
    assert forall k: nat :: k <= i ==> r'[k] == r[k];
    assert forall k: nat :: i + 1 < k <= |r| ==> r'[k] == r[k - 1];
    forall k: nat | k < |r'| ensures r'[k].next == r'[After(|r'|, k)] && r'[k].previous == r'[Before(|r'|, k)] {
      if k <= i { assert r'[k] == r[k]; } else if k > i + 1 { assert r'[k] == r[k - 1]; } else { assert r'[k] == n; }
    }
  }

  lemma DistinctWith<T>(r: seq<T>, i: nat, n: T)
    requires i < |r| && Distinct(r) && n !in r
    ensures Distinct(r[..i + 1] + [n] + r[i + 1..])
  {
  }

  /** The links of r with the header at i taken out. */
  lemma RingWithout(r: seq<PreallocatedStorage>, i: nat)
    requires i < |r| && Distinct(r)
    requires forall k: nat {:trigger r[k].next} :: k < |r| && k != i ==>
               r[k].next == r[After(|r|, if After(|r|, k) == i then i else k)]
    requires forall k: nat {:trigger r[k].previous} :: k < |r| && k != i ==>
               r[k].previous == r[Before(|r|, if Before(|r|, k) == i then i else k)]
    ensures IsRing(r[..i] + r[i + 1..])
  {
    var r' := r[..i] + r[i + 1..];
    forall k: nat | k < |r'| ensures r'[k].next == r'[After(|r'|, k)] && r'[k].previous == r'[Before(|r'|, k)] {
    }
  }

  ghost function Nodes(rs: seq<seq<PreallocatedStorage>>): set<PreallocatedStorage> {
    set a: nat, i: nat | a < |rs| && i < |rs[a]| :: rs[a][i]
  }

  /** Each sequence is a ring, and no header is in two. */
  ghost predicate AreRings(rs: seq<seq<PreallocatedStorage>>)
    reads Nodes(rs)`next, Nodes(rs)`previous
  {
    Disjoint(rs) && forall a: nat :: a < |rs| ==> IsRing(rs[a])
  }

  // ------------------------------------------------------------ any number of moves

  datatype RingOp<T> = Link(node: T, other: T) | Unlink(node: T)

  ghost predicate Legal<T>(rs: seq<seq<T>>, op: RingOp<T>) {
    match op
    case Link(n, x) => Holds(rs, x) && !Holds(rs, n)
    case Unlink(n) => Holds(rs, n)
  }

  ghost function Exec<T>(rs: seq<seq<T>>, op: RingOp<T>): seq<seq<T>> {
    match op
    case Link(n, x) => Linked(rs, x, n)
    case Unlink(n) => Unlinked(rs, n)
  }

  ghost function ExecAll<T>(rs: seq<seq<T>>, ops: seq<RingOp<T>>): seq<seq<T>> {
    if ops == [] then rs else Exec(ExecAll(rs, ops[..|ops| - 1]), ops[|ops| - 1])
  }

  ghost predicate AllLegal<T>(rs: seq<seq<T>>, ops: seq<RingOp<T>>) {
    forall k: nat {:trigger ops[k]} :: k < |ops| ==> Legal(ExecAll(rs, ops[..k]), ops[k])
  }

  /** Whether x is in a ring after the moves: by the last move of x, or as it was. */
  ghost predicate Ends<T>(rs: seq<seq<T>>, ops: seq<RingOp<T>>, x: T) {
    if ops == [] then Holds(rs, x)
    else
      var last := ops[|ops| - 1];
      if last.node == x then last.Link? else Ends(rs, ops[..|ops| - 1], x)
  }

  ghost predicate Sound<T>(rs: seq<seq<T>>) {
    Disjoint(rs) && forall a: nat :: a < |rs| ==> Distinct(rs[a])
  }

  lemma {:induction false} InsertDistinct<T>(r: seq<T>, x: T, n: T)
    requires Distinct(r) && n !in r
    ensures Distinct(InsertAfter(r, x, n))
  {
    if i: nat :| i < |r| && r[i] == x {
      InsertAt(r, i, n);
    } else {
      Untouched(r, x, n);
    }
  }

  lemma {:induction false} RemoveDistinct<T>(r: seq<T>, n: T)
    requires Distinct(r)
    ensures Distinct(Remove(r, n))
  {
    if i: nat :| i < |r| && r[i] == n {
      RemoveAt(r, i);
    } else {
      Untouched(r, n, n);
    }
  }

  /** Over any run of moves every node is in at most one ring, and in it once; which nodes are in
      a ring is decided by the moves alone. */
  lemma {:induction false} NodesConserved<T>(rs: seq<seq<T>>, ops: seq<RingOp<T>>)
    requires Sound(rs) && AllLegal(rs, ops)
    ensures Sound(ExecAll(rs, ops)) && |ExecAll(rs, ops)| == |rs|
    ensures forall x :: Holds(ExecAll(rs, ops), x) <==> Ends(rs, ops, x)
  {
    if ops != [] {
      var front, last := ops[..|ops| - 1], ops[|ops| - 1];
      assert forall k: nat :: k < |front| ==> front[..k] == ops[..k];
      NodesConserved(rs, front);
      var qs := ExecAll(rs, front);
      assert Legal(qs, last);
      match last
      case Link(n, x) =>
        LinkedDisjoint(qs, x, n);
        forall a: nat | a < |qs| ensures Distinct(Linked(qs, x, n)[a]) { InsertDistinct(qs[a], x, n); }
      case Unlink(n) =>
        UnlinkedDisjoint(qs, n);
        forall a: nat | a < |qs| ensures Distinct(Unlinked(qs, n)[a]) { RemoveDistinct(qs[a], n); }
    }
  }

  /** Unlinking what was just linked gives back the former rings. */
  lemma LinkThenUnlink<T>(rs: seq<seq<T>>, x: T, n: T)
    requires !Holds(rs, n)
    ensures Unlinked(Linked(rs, x, n), n) == rs
  {
    var qs := Unlinked(Linked(rs, x, n), n);
    forall a: nat | a < |rs| ensures qs[a] == rs[a] {
      InsertThenRemove(rs[a], x, n);
    }
  }

  /** A header that still knows its neighbour goes back to its place: the ring is the former one,
      begun at the next header if this was the first. */
  lemma UnlinkThenLink<T>(r: seq<T>, i: nat)
    requires Distinct(r) && |r| > 1 && i < |r|
    ensures InsertAfter(Remove(r, r[i]), r[Before(|r|, i)], r[i]) == if i > 0 then r else r[1..] + [r[0]]
  {
    hide Distinct, Remove, InsertAfter;
    RemoveAt(r, i);
    RemoveDistinct(r, r[i]);
    if i > 0 {
      var q := r[..i] + r[i + 1..];
      InsertAt(q, i - 1, r[i]);
      assert q[..i] == r[..i] && q[i..] == r[i + 1..];
    } else {
      var q, j := r[1..], |r| - 2;
      assert r[..0] + r[1..] == q;
      InsertAt(q, j, r[0]);
      assert q[..j + 1] == q && q[j + 1..] == [];
    }
  }

  ghost function Movers(ops: seq<RingOp<PreallocatedStorage>>): set<PreallocatedStorage> {
    set k: nat | k < |ops| :: ops[k].node
  }

  lemma {:induction false} EndsAmong(rs: seq<seq<PreallocatedStorage>>, ops: seq<RingOp<PreallocatedStorage>>,
                                     x: PreallocatedStorage)
    requires Ends(rs, ops, x)
    ensures x in Nodes(rs) || x in Movers(ops)
  {
    if ops != [] {
      var front := ops[..|ops| - 1];
      if ops[|ops| - 1].node != x { EndsAmong(rs, front, x); }
      assert forall k: nat :: k < |front| ==> front[k] == ops[k];
    }
  }

  lemma Neighbours(rs: seq<seq<PreallocatedStorage>>, x: PreallocatedStorage)
    requires AreRings(rs) && Holds(rs, x)
    ensures Holds(rs, x.next) && Holds(rs, x.previous)
  {
    var a, i := Place(rs, x);
    assert IsRing(rs[a]);
    assert rs[a][i].next in rs[a] && rs[a][i].previous in rs[a];
  }

  lemma ExecNext<T>(rs: seq<seq<T>>, ops: seq<RingOp<T>>, k: nat)
    requires k < |ops|
    ensures ExecAll(rs, ops[..k + 1]) == Exec(ExecAll(rs, ops[..k]), ops[k])
  {
    assert ops[..k + 1][..k] == ops[..k] && ops[..k + 1][k] == ops[k];
  }

  /** A legal move changes only headers of the rings and headers that are moved. */
  lemma MoveFrame(rs: seq<seq<PreallocatedStorage>>, ops: seq<RingOp<PreallocatedStorage>>, k: nat)
    requires Sound(rs) && AllLegal(rs, ops) && k < |ops| && AreRings(ExecAll(rs, ops[..k]))
    ensures Legal(ExecAll(rs, ops[..k]), ops[k])
    ensures var may := Nodes(rs) + Movers(ops);
            match ops[k]
            case Link(n, x) => n in may && x in may && x.next in may
            case Unlink(n) => n.next in may && n.previous in may
  {
    var front := ops[..k];
    assert forall j: nat :: j < k ==> front[..j] == ops[..j];
    NodesConserved(rs, front);
    forall x | Holds(ExecAll(rs, front), x) ensures x in Nodes(rs) + Movers(ops) {
      EndsAmong(rs, front, x);
      assert forall j: nat :: j < k ==> front[j] == ops[j];
    }
    var qs := ExecAll(rs, front);
    assert Legal(qs, ops[k]);
    match ops[k]
    case Link(n, x) => Neighbours(qs, x);
    case Unlink(n) => Neighbours(qs, n);
  }

  /** Carries out the moves on the headers. */
  method Run(ops: seq<RingOp<PreallocatedStorage>>, ghost rs: seq<seq<PreallocatedStorage>>)
    requires AreRings(rs) && AllLegal(rs, ops)
    modifies Nodes(rs), Movers(ops)
    ensures AreRings(ExecAll(rs, ops))
  {
    assert Sound(rs) && ops[..0] == [] && ExecAll(rs, []) == rs;
    hide AreRings, AllLegal, ExecAll, Ends, Linked, Unlinked, Holds, Sound, Nodes, Movers, IsRing;
    var k := 0;
    while k < |ops|
      invariant 0 <= k <= |ops| && AreRings(ExecAll(rs, ops[..k]))
    {
      ghost var qs := ExecAll(rs, ops[..k]);
      MoveFrame(rs, ops, k);
      ExecNext(rs, ops, k);
      match ops[k] {
        case Link(n, x) => n.LinkTo(x, qs);
        case Unlink(n) => n.Unlink(qs);
      }
      k := k + 1;
    }
    assert ops[..k] == ops;
  }

  // ------------------------------------------------------------ the preallocated block

  const POINTER_SIZE: nat := 8
  /** The header before each chunk: a size and two pointers. */
  const HEADER: nat := 24

  function RoundUp(size: nat): (r: nat)
    ensures size <= r < size + POINTER_SIZE && r % POINTER_SIZE == 0
  {
    (size + POINTER_SIZE - 1) / POINTER_SIZE * POINTER_SIZE
  }

  function EndOf(x: PreallocatedStorage): nat
    reads x`size
  {
    x.address + HEADER + x.size
  }

  /** The chunks, each with its header, fill the block from base to end. */
  ghost predicate Tiled(chunks: seq<PreallocatedStorage>, base: nat, end: nat)
    reads chunks`size
  {
    && chunks != [] && chunks[0].address == base
    && (forall i: nat {:trigger EndOf(chunks[i])} :: i < |chunks| ==>
          EndOf(chunks[i]) == Following(chunks, i, end))
  }

  /** Where the chunk after the one at i begins. */
  ghost function Following(chunks: seq<PreallocatedStorage>, i: nat, end: nat): nat {
    if i + 1 < |chunks| then chunks[i + 1].address else end
  }

  /** The chunk at i has been cut in two: the part cut off comes right after it. */
  lemma TiledCut(chunks: seq<PreallocatedStorage>, base: nat, end: nat, i: nat, n: PreallocatedStorage)
    requires i < |chunks| && chunks[0].address == base
    requires forall k: nat {:trigger EndOf(chunks[k])} :: k < |chunks| && k != i ==>
               EndOf(chunks[k]) == Following(chunks, k, end)
    requires n.address == EndOf(chunks[i]) && EndOf(n) == Following(chunks, i, end)
    ensures Tiled(chunks[..i + 1] + [n] + chunks[i + 1..], base, end)
  {
    var c := chunks[..i + 1] + [n] + chunks[i + 1..];
    forall k: nat | k < |c| ensures EndOf(c[k]) == Following(c, k, end) {
      if k <= i { assert c[k] == chunks[k]; } else if k > i + 1 { assert c[k] == chunks[k - 1]; }
    }
  }

  lemma {:induction false} TilesInOrder(chunks: seq<PreallocatedStorage>, base: nat, end: nat, i: nat, j: nat)
    requires Tiled(chunks, base, end) && i < j < |chunks|
    ensures EndOf(chunks[i]) <= chunks[j].address
  {
    if i + 1 < j {
      TilesInOrder(chunks, base, end, i, j - 1);
      assert EndOf(chunks[j - 1]) == chunks[j].address;
    } else {
      assert EndOf(chunks[i]) == chunks[j].address;
    }
  }

  function Bytes(chunks: seq<PreallocatedStorage>): nat
    reads chunks`size
  {
    if chunks == [] then 0 else HEADER + chunks[0].size + Bytes(chunks[1..])
  }

  /** No byte is lost: the chunks and their headers add up to the block. */
  lemma {:induction false} BytesConserved(chunks: seq<PreallocatedStorage>, base: nat, end: nat)
    requires Tiled(chunks, base, end)
    ensures base + Bytes(chunks) == end
  {
    assert EndOf(chunks[0]) == Following(chunks, 0, end);
    var rest := chunks[1..];
    if rest != [] {
      forall i: nat | i < |rest| ensures EndOf(rest[i]) == Following(rest, i, end) {
        assert EndOf(chunks[i + 1]) == Following(chunks, i + 1, end);
      }
      BytesConserved(rest, EndOf(chunks[0]), end);
    }
  }

  /** The first chunk of exactly this size, or else the first with room for a header to spare. */
  ghost predicate IsChoice(free: seq<PreallocatedStorage>, size: nat, k: nat)
    reads free`size
  {
    && k < |free|
    && if free[k].size == size then forall j :: 0 <= j < k ==> free[j].size != size
       else
         && free[k].size >= size + HEADER
         && (forall j :: 0 <= j < |free| ==> free[j].size != size)
         && (forall j :: 0 <= j < k ==> free[j].size < size + HEADER)
  }

  ghost predicate NoChoice(free: seq<PreallocatedStorage>, size: nat)
    reads free`size
  {
    forall j :: 0 <= j < |free| ==> free[j].size != size && free[j].size < size + HEADER
  }

  /** The chunks are those that are free and those in use. */
  ghost predicate Shared<T>(chunks: seq<T>, free: seq<T>, used: seq<T>) {
    && (forall x :: x in chunks ==> x in free || x in used)
    && (forall x :: x in free ==> x in chunks)
    && (forall x :: x in used ==> x in chunks)
  }

  lemma SharedMove<T>(chunks: seq<T>, free: seq<T>, used: seq<T>, s: T)
    requires Shared(chunks, free, used) && Distinct(free) && Distinct(used) && s in chunks
    ensures Shared(chunks, Remove(free, s), [s] + Remove(used, s))
    ensures Shared(chunks, [s] + Remove(free, s), Remove(used, s))
  {
    hide Remove, Distinct;
    RemoveMembers(free, s);
    RemoveMembers(used, s);
    var f, u := Remove(free, s), Remove(used, s);
    var u', f' := [s] + u, [s] + f;
    assert forall x :: x in u' <==> x == s || x in u;
    assert forall x :: x in f' <==> x == s || x in f;
    assert Shared(chunks, f, u') && Shared(chunks, f', u);
  }

  lemma SharedAdd<T>(chunks: seq<T>, free: seq<T>, used: seq<T>, s: T, n: T)
    requires Shared(chunks, free, used) && s in chunks
    ensures Shared(InsertAfter(chunks, s, n), [n] + free, used)
  {
    hide InsertAfter;
    InsertMembers(chunks, s, n);
    var c, f := InsertAfter(chunks, s, n), [n] + free;
    assert forall x :: x in f <==> x == n || x in free;
    assert Shared(c, f, used);
  }

  class Isolate {
    const freeList: PreallocatedStorage
    const inUseList: PreallocatedStorage
    ghost const base: nat
    ghost const end: nat
    ghost var free: seq<PreallocatedStorage>
    ghost var used: seq<PreallocatedStorage>
    ghost var chunks: seq<PreallocatedStorage>

    ghost function Rings(): seq<seq<PreallocatedStorage>>
      reads this
    {
      [[freeList] + free, [inUseList] + used]
    }

    /** The two rings hold the chunks, each once, and the chunks fill the block. */
    ghost predicate Valid()
      reads this, Nodes(Rings()), chunks
    {
      && AreRings(Rings())
      && Distinct(chunks) && Tiled(chunks, base, end)
      && Shared(chunks, free, used)
    }

    constructor (base: nat, size: nat)
      requires size >= HEADER
      ensures Valid() && this.base == base && end == base + size
      ensures used == [] && free == chunks && |free| == 1 && fresh(free[0])
    {
      var freeHead := new PreallocatedStorage(0, 0);
      var inUseHead := new PreallocatedStorage(0, 0);
      var chunk := new PreallocatedStorage(base, size - HEADER);
      freeHead.next, freeHead.previous := chunk, chunk;
      chunk.next, chunk.previous := freeHead, freeHead;
      PairRings([freeHead, chunk], [inUseHead]);
      freeList, inUseList := freeHead, inUseHead;
      this.base, end := base, base + size;
      free, used, chunks := [chunk], [], [chunk];
      assert [freeHead] + [chunk] == [freeHead, chunk] && [inUseHead] + [] == [inUseHead];
      new;
      hide AreRings, IsRing, Nodes, Disjoint;
    }

    /** Walking the free ring: the k-th step leads to the k-th free chunk, and then to the head. */
    lemma FreeRing(k: nat)
      requires AreRings(Rings()) && k <= |free|
      ensures ([freeList] + free)[k].next == if k < |free| then free[k] else freeList
      ensures k < |free| ==> free[k] != freeList
    {
      var r := [freeList] + free;
      assert Rings()[0] == r && IsRing(r);
      assert r[k].next == r[After(|r|, k)];
      assert k < |free| ==> r[k + 1] == free[k] && r[0] == freeList;
    }

    /** Allocates from the free chunks: the first of exactly the rounded size, or else the first
        that leaves room for a header, which is cut in two. */
    method New(size: nat) returns (r: Option<PreallocatedStorage>)
      requires Valid()
      modifies this, Nodes(Rings())
      ensures Valid()
      ensures r == None <==> old(NoChoice(free, RoundUp(size)))
      ensures r == None ==> free == old(free) && used == old(used) && chunks == old(chunks)
      ensures r != None ==>
                (exists k: nat :: k < |old(free)| && old(free)[k] == r.value && old(IsChoice(free, RoundUp(size), k)))
      ensures r != None ==> r.value.size == RoundUp(size) && used == [r.value] + old(used)
      ensures forall x :: x in old(chunks) && r != Some(x) ==> x.size == old(x.size)
      ensures r != None ==>
                if old(r.value.size) == RoundUp(size) then
                  free == Remove(old(free), r.value) && chunks == old(chunks)
                else
                  && free != [] && fresh(free[0])
                  && free == [free[0]] + Remove(old(free), r.value)
                  && chunks == InsertAfter(old(chunks), r.value, free[0])
                  && free[0].address == EndOf(r.value) && EndOf(free[0]) == old(EndOf(r.value))
    {
      hide AreRings, Tiled, Distinct, Shared, Remove, InsertAfter;
      var rounded := RoundUp(size);
      TwoHolds([freeList] + free, [inUseList] + used);
      AllHeld(Rings());
      var storage := FindExact(rounded);
      if storage != freeList {
        Take(storage);
        return Some(storage);
      }
      storage := FindRoom(rounded);
      if storage != freeList {
        Take(storage);
        var leftOver := Cut(storage, rounded);
        return Some(storage);
      }
      return None;
    }

    /** The first free chunk of a size, or the head of the ring. */
    method FindExact(size: nat) returns (storage: PreallocatedStorage)
      requires Valid()
      ensures storage == freeList ==> forall j :: 0 <= j < |free| ==> free[j].size != size
      ensures storage != freeList ==>
                exists k: nat :: k < |free| && free[k] == storage && storage.size == size && IsChoice(free, size, k)
    {
      hide AreRings, Tiled, Distinct, Shared;
      ghost var k: nat := 0;
      FreeRing(0);
      storage := freeList.next;
      while storage != freeList && storage.size != size
        invariant k <= |free| && AreRings(Rings())
        invariant storage == if k < |free| then free[k] else freeList
        invariant forall j :: 0 <= j < k ==> free[j].size != size
        decreases |free| - k
      {
        FreeRing(k + 1);
        storage := storage.next;
        k := k + 1;
      }
      FreeRing(k);
      assert storage != freeList ==> IsChoice(free, size, k);
    }

    /** The first free chunk with room for a header to spare, when none is of the exact size. */
    method FindRoom(size: nat) returns (storage: PreallocatedStorage)
      requires Valid() && forall j :: 0 <= j < |free| ==> free[j].size != size
      ensures storage == freeList ==> NoChoice(free, size)
      ensures storage != freeList ==>
                exists k: nat :: k < |free| && free[k] == storage && storage.size >= size + HEADER
                                 && IsChoice(free, size, k)
    {
      hide AreRings, Tiled, Distinct, Shared;
      ghost var k: nat := 0;
      FreeRing(0);
      storage := freeList.next;
      while storage != freeList && storage.size < size + HEADER
        invariant k <= |free| && AreRings(Rings())
        invariant storage == if k < |free| then free[k] else freeList
        invariant forall j :: 0 <= j < k ==> free[j].size < size + HEADER
        decreases |free| - k
      {
        FreeRing(k + 1);
        storage := storage.next;
        k := k + 1;
      }
      FreeRing(k);
      assert storage != freeList ==> IsChoice(free, size, k);
    }

    /** Gives a chunk back, whichever ring it is in; chunks are never joined. */
    method Delete(storage: PreallocatedStorage)
      requires Valid() && storage in chunks
      modifies this`free, this`used, Nodes(Rings())`next, Nodes(Rings())`previous
      ensures Valid()
      ensures free == [storage] + Remove(old(free), storage) && used == Remove(old(used), storage)
    {
      hide AreRings, Tiled, Distinct, Sound, Remove, Nodes;
      ChunkNodes();
      RingsAreSound(Rings());
      HeadApart(freeList, free, inUseList, used, storage);
      SharedMove(chunks, free, used, storage);
      MoveToFront(storage, freeList, freeList, free, inUseList, used);
      free, used := [storage] + Remove(free, storage), Remove(used, storage);
    }

    /** Moves a free chunk as it is to the front of the ring in use. */
    method Take(storage: PreallocatedStorage)
      requires Valid() && storage in free
      modifies this`free, this`used, Nodes(Rings())`next, Nodes(Rings())`previous
      ensures Valid()
      ensures free == Remove(old(free), storage) && used == [storage] + old(used)
      ensures forall x :: x in Nodes(Rings()) <==> x in old(Nodes(Rings()))
    {
      hide AreRings, Tiled, Distinct, Sound, Remove, Nodes;
      ChunkNodes();
      RingsAreSound(Rings());
      HeadApart(freeList, free, inUseList, used, storage);
      Untouched(used, storage, storage);
      SharedMove(chunks, free, used, storage);
      MoveToFront(storage, inUseList, freeList, free, inUseList, used);
      free, used := Remove(free, storage), [storage] + used;
      SameNodes(freeList, old(free), inUseList, old(used), storage);
    }

    /** Cuts the end off a chunk in use and puts it in front of the free chunks. */
    method Cut(storage: PreallocatedStorage, size: nat) returns (leftOver: PreallocatedStorage)
      requires Valid() && storage in used && storage.size >= size + HEADER
      modifies this`free, this`chunks, storage`size, Nodes(Rings())`next, Nodes(Rings())`previous
      ensures Valid() && fresh(leftOver)
      ensures free == [leftOver] + old(free)
      ensures chunks == InsertAfter(old(chunks), storage, leftOver)
      ensures storage.size == size && leftOver.address == EndOf(storage)
      ensures EndOf(leftOver) == old(EndOf(storage))
    {
      hide AreRings, Nodes, InsertAfter, Distinct, Holds;
      ChunkNodes();
      ghost var rs := Rings();
      ghost var i: nat :| i < |chunks| && chunks[i] == storage;
      DistinctAt(chunks, i);
      assert EndOf(chunks[i]) == Following(chunks, i, end);
      hide Following;
      leftOver := Carve(storage, size, rs);
      NotHeld(leftOver);
      InsertDistinct(chunks, storage, leftOver);
      SharedAdd(chunks, free, used, storage, leftOver);
      PutInFront(leftOver, freeList, free, inUseList, used);
      InsertAt(chunks, i, leftOver);
      TiledCut(chunks, base, end, i, leftOver);
      chunks := InsertAfter(chunks, storage, leftOver);
      free := [leftOver] + free;
    }

    lemma NotHeld(x: PreallocatedStorage)
      requires Shared(chunks, free, used) && !Holds(Rings(), x)
      ensures x !in chunks
    {
      TwoHolds([freeList] + free, [inUseList] + used);
    }

    /** Two chunks handed out lie apart, and inside the block. */
    lemma NoOverlap(x: PreallocatedStorage, y: PreallocatedStorage)
      requires Valid() && x in used && y in used && x != y
      ensures EndOf(x) <= y.address || EndOf(y) <= x.address
      ensures base <= x.address && EndOf(x) <= end
    {
      assert x in chunks && y in chunks;
      var i: nat :| i < |chunks| && chunks[i] == x;
      var j: nat :| j < |chunks| && chunks[j] == y;
      if i < j { TilesInOrder(chunks, base, end, i, j); } else { TilesInOrder(chunks, base, end, j, i); }
      var last := |chunks| - 1;
      assert EndOf(chunks[last]) == Following(chunks, last, end);
      if i < last { TilesInOrder(chunks, base, end, i, last); }
      if 0 < i { TilesInOrder(chunks, base, end, 0, i); }
    }

    /** No chunk is twice in use, or in use and free. */
    lemma PartsApart()
      requires Valid()
      ensures Distinct(free) && Distinct(used)
      ensures forall x :: x in used ==> x in chunks && x !in free
      ensures forall x :: x in free ==> x in chunks
    {
      hide AreRings, Tiled, Sound;
      RingsAreSound(Rings());
      SoundParts(freeList, free, inUseList, used);
    }

    lemma NodesAre()
      ensures forall x :: x in Nodes(Rings()) <==> x == freeList || x in free || x == inUseList || x in used
    {
      forall x: PreallocatedStorage
        ensures x in Nodes(Rings()) <==> x == freeList || x in free || x == inUseList || x in used
      {
        NodesOfTwo(freeList, free, inUseList, used, x);
      }
    }

    /** Every chunk is in one of the rings. */
    lemma ChunkNodes()
      requires Valid()
      ensures forall i :: 0 <= i < |chunks| ==> chunks[i] in Nodes(Rings())
    {
      TwoHolds([freeList] + free, [inUseList] + used);
      AllHeld(Rings());
    }
  }

  // ------------------------------------------------------------ runs of the allocator

  /** What a client asks for: memory, or to give back the chunk at some place in its list; a place
      that is none stands for a null pointer. */
  datatype Request = Allocate(size: nat) | Release(place: nat)

  /** A chunk that was handed out, and the size asked for. */
  datatype Grant = Grant(chunk: PreallocatedStorage, size: nat)

  /** The client's list after one answer, and after several: what was handed out and not given back,
      the latest first. */
  function AfterAnswer(r: Request, answer: Option<PreallocatedStorage>, list: seq<Grant>): seq<Grant> {
    match r
    case Allocate(size) => if answer == None then list else [Grant(answer.value, size)] + list
    case Release(k) => if k < |list| then list[..k] + list[k + 1..] else list
  }

  function AfterAnswers(rs: seq<Request>, answers: seq<Option<PreallocatedStorage>>, list: seq<Grant>): seq<Grant>
    requires |rs| == |answers|
  {
    if rs == [] then list else AfterAnswers(rs[1..], answers[1..], AfterAnswer(rs[0], answers[0], list))
  }

  /** The chunks in use are those in the client's list, and each has the size asked for, rounded up. */
  ghost predicate Honoured(iso: Isolate, list: seq<Grant>)
    reads iso`used, iso.used`size
  {
    && |list| == |iso.used|
    && forall i :: 0 <= i < |list| ==> list[i].chunk == iso.used[i] && iso.used[i].size == RoundUp(list[i].size)
  }

  ghost predicate Aligned(chunks: seq<PreallocatedStorage>) {
    forall x :: x in chunks ==> x.address % POINTER_SIZE == 0
  }

  /** Serves any sequence of requests: whatever is handed out and not given back is just what is in
      use, every such chunk keeps its size, and all chunks stay aligned. */
  method Serve(iso: Isolate, rs: seq<Request>, list: seq<Grant>) returns (answers: seq<Option<PreallocatedStorage>>)
    requires iso.Valid() && Honoured(iso, list)
    modifies iso, Nodes(iso.Rings())
    ensures iso.Valid() && |answers| == |rs| && Honoured(iso, AfterAnswers(rs, answers, list))
    ensures old(Aligned(iso.chunks)) ==> Aligned(iso.chunks)
    decreases |rs|
  {
    if rs == [] { return []; }
    hide Isolate.Valid, Isolate.Rings, Nodes, Honoured, Aligned, AfterAnswer;
    var answer := None;
    match rs[0] {
      case Allocate(size) => answer := ServeAllocate(iso, size, list);
      case Release(k) => ServeRelease(iso, k, list);
    }
    var later := Serve(iso, rs[1..], AfterAnswer(rs[0], answer, list));
    answers := [answer] + later;
  }

  method ServeAllocate(iso: Isolate, size: nat, list: seq<Grant>) returns (answer: Option<PreallocatedStorage>)
    requires iso.Valid() && Honoured(iso, list)
    modifies iso, Nodes(iso.Rings())
    ensures iso.Valid() && Honoured(iso, AfterAnswer(Allocate(size), answer, list))
    ensures old(Aligned(iso.chunks)) ==> Aligned(iso.chunks)
    ensures forall x :: x in Nodes(iso.Rings()) ==> x in old(Nodes(iso.Rings())) || fresh(x)
  {
    hide Isolate.Valid, Isolate.Rings, Nodes, Distinct, NoChoice, Remove, InsertAfter, RoundUp, Aligned;
    iso.NodesAre();
    iso.PartsApart();
    ghost var free, used, chunks := iso.free, iso.used, iso.chunks;
    answer := iso.New(size);
    iso.NodesAre();
    if answer != None {
      assert answer.value in free;
      hide IsChoice;
      RemoveMembers(free, answer.value);
      assert forall x :: x in used ==> x.size == old(x.size);
      if iso.chunks != chunks {
        CutAligned(chunks, answer.value, RoundUp(size), iso.free[0]);
      }
    }
  }

  lemma CutAligned(chunks: seq<PreallocatedStorage>, x: PreallocatedStorage, size: nat, n: PreallocatedStorage)
    requires x in chunks && n.address == x.address + HEADER + size && size % POINTER_SIZE == 0
    ensures Aligned(chunks) ==> Aligned(InsertAfter(chunks, x, n))
  {
    InsertMembers(chunks, x, n);
  }

  method ServeRelease(iso: Isolate, k: nat, list: seq<Grant>)
    requires iso.Valid() && Honoured(iso, list)
    modifies iso, Nodes(iso.Rings())
    ensures iso.Valid() && Honoured(iso, AfterAnswer(Release(k), None, list)) && iso.chunks == old(iso.chunks)
    ensures forall x :: x in Nodes(iso.Rings()) ==> x in old(Nodes(iso.Rings())) || fresh(x)
  {
    hide Isolate.Valid, Isolate.Rings, Nodes, Distinct, Remove, RoundUp;
    iso.NodesAre();
    if k < |list| {
      iso.PartsApart();
      var x := list[k].chunk;
      ghost var free, used := iso.free, iso.used;
      assert used[k] == x && x in used;
      RemoveAt(used, k);
      iso.Delete(x);
      RemoveMembers(free, x);
      RemoveMembers(used, x);
      iso.NodesAre();
      assert forall y :: y in iso.free ==> y == x || y in Remove(free, x);
    }
  }

  /** Two chunks that the client holds lie apart, inside the block. */
  lemma GrantsApart(iso: Isolate, list: seq<Grant>, i: nat, j: nat)
    requires iso.Valid() && Honoured(iso, list) && i < j < |list|
    ensures EndOf(list[i].chunk) <= list[j].chunk.address || EndOf(list[j].chunk) <= list[i].chunk.address
    ensures iso.base <= list[i].chunk.address && EndOf(list[i].chunk) <= iso.end
    ensures list[i].chunk != list[j].chunk && list[i].chunk !in iso.free
  {
    iso.PartsApart();
    hide Isolate.Valid;
    iso.NoOverlap(list[i].chunk, list[j].chunk);
  }

  /** A new header after the first `size` bytes of a chunk, which it shortens to that size. */
  method Carve(storage: PreallocatedStorage, size: nat, ghost rs: seq<seq<PreallocatedStorage>>)
    returns (leftOver: PreallocatedStorage)
    requires AreRings(rs) && storage.size >= size + HEADER
    modifies storage`size
    ensures AreRings(rs) && fresh(leftOver) && !Holds(rs, leftOver)
    ensures storage.size == size && leftOver.address == EndOf(storage)
    ensures EndOf(leftOver) == old(EndOf(storage))
  {
    leftOver := new PreallocatedStorage(storage.address + HEADER + size, storage.size - size - HEADER);
    storage.size := size;
    forall a: nat | a < |rs| ensures IsRing(rs[a]) {
      assert old(IsRing(rs[a]));
    }
  }

  lemma PairRings(r: seq<PreallocatedStorage>, q: seq<PreallocatedStorage>)
    requires IsRing(r) && IsRing(q) && forall x :: x in r ==> x !in q
    ensures AreRings([r, q])
  {
  }

  /** Moves a chunk to the front of the ring of one of the two list heads f and u. */
  method MoveToFront(storage: PreallocatedStorage, head: PreallocatedStorage,
                     ghost f: PreallocatedStorage, ghost free: seq<PreallocatedStorage>,
                     ghost u: PreallocatedStorage, ghost used: seq<PreallocatedStorage>)
    requires AreRings([[f] + free, [u] + used])
    requires (storage in free || storage in used) && (head == f || head == u)
    modifies Nodes([[f] + free, [u] + used])`next, Nodes([[f] + free, [u] + used])`previous
    ensures AreRings(InFront(storage, head, f, Remove(free, storage), u, Remove(used, storage)))
  {
    hide AreRings, Linked, Unlinked, Remove, Holds, Nodes, Sound, InFront;
    ghost var rs := [[f] + free, [u] + used];
    RingsAreSound(rs);
    Moved(f, free, u, used, storage, head);
    Neighbours(rs, storage);
    AllHeld(rs);
    storage.Unlink(rs);
    Neighbours(Unlinked(rs, storage), head);
    storage.LinkTo(head, Unlinked(rs, storage));
  }

  /** Puts a new chunk in front of the ring headed by f. */
  method PutInFront(n: PreallocatedStorage, f: PreallocatedStorage, ghost free: seq<PreallocatedStorage>,
                    ghost u: PreallocatedStorage, ghost used: seq<PreallocatedStorage>)
    requires AreRings([[f] + free, [u] + used]) && !Holds([[f] + free, [u] + used], n)
    modifies n`next, n`previous
    modifies Nodes([[f] + free, [u] + used])`next, Nodes([[f] + free, [u] + used])`previous
    ensures AreRings([[f] + ([n] + free), [u] + used])
  {
    hide AreRings, Linked, Unlinked, Holds, Nodes, Sound;
    ghost var rs := [[f] + free, [u] + used];
    RingsAreSound(rs);
    TwoHolds([f] + free, [u] + used);
    AllHeld(rs);
    Neighbours(rs, f);
    HeadsApart(f, free, u, used);
    PutIn(f, free, u, used, n, f);
    n.LinkTo(f, rs);
  }

  ghost function InFront<T>(x: T, head: T, f: T, free: seq<T>, u: T, used: seq<T>): seq<seq<T>> {
    if head == f then [[f] + ([x] + free), [u] + used] else [[f] + free, [u] + ([x] + used)]
  }

  lemma RingsAreSound(rs: seq<seq<PreallocatedStorage>>)
    requires AreRings(rs)
    ensures Sound(rs)
  {
  }

  lemma TwoHolds<T>(r: seq<T>, q: seq<T>)
    ensures forall x :: Holds([r, q], x) <==> x in r || x in q
  {
    assert [r, q][0] == r && [r, q][1] == q;
  }

  lemma AllHeld(rs: seq<seq<PreallocatedStorage>>)
    ensures forall x :: x in Nodes(rs) <==> Holds(rs, x)
  {
  }

  lemma TakenOut<T>(f: T, free: seq<T>, u: T, used: seq<T>, s: T)
    requires f != s && u != s
    ensures Unlinked([[f] + free, [u] + used], s) == [[f] + Remove(free, s), [u] + Remove(used, s)]
  {
    assert Remove([f] + free, s) == [f] + Remove(free, s) by { assert ([f] + free)[1..] == free; }
    assert Remove([u] + used, s) == [u] + Remove(used, s) by { assert ([u] + used)[1..] == used; }
  }

  lemma PutIn<T>(f: T, free: seq<T>, u: T, used: seq<T>, s: T, head: T)
    requires (head == f || head == u) && f != u && f !in used && u !in free
    ensures Linked([[f] + free, [u] + used], head, s)
            == InFront(s, head, f, free, u, used)
  {
    if head == f {
      Untouched([u] + used, f, s);
      assert ([f] + free)[1..] == free && [f, s] + free == [f] + ([s] + free);
    } else {
      Untouched([f] + free, u, s);
      assert ([u] + used)[1..] == used && [u, s] + used == [u] + ([s] + used);
    }
  }

  lemma Moved(f: PreallocatedStorage, free: seq<PreallocatedStorage>, u: PreallocatedStorage,
              used: seq<PreallocatedStorage>, s: PreallocatedStorage, head: PreallocatedStorage)
    requires Sound([[f] + free, [u] + used])
    requires (s in free || s in used) && (head == f || head == u)
    ensures var rs := [[f] + free, [u] + used];
            && Holds(rs, s) && Holds(Unlinked(rs, s), head) && !Holds(Unlinked(rs, s), s)
            && (forall x :: Holds(Unlinked(rs, s), x) ==> Holds(rs, x))
            && Linked(Unlinked(rs, s), head, s)
               == InFront(s, head, f, Remove(free, s), u, Remove(used, s))
  {
    hide Linked, Unlinked, Remove, InFront, Disjoint, Distinct;
    var rs := [[f] + free, [u] + used];
    TwoHolds([f] + free, [u] + used);
    UnlinkedDisjoint(rs, s);
    HeadApart(f, free, u, used, s);
    TakenOut(f, free, u, used, s);
    RemoveMembers(free, s);
    RemoveMembers(used, s);
    PutIn(f, Remove(free, s), u, Remove(used, s), s, head);
  }

  lemma SameNodes(f: PreallocatedStorage, free: seq<PreallocatedStorage>, u: PreallocatedStorage,
                  used: seq<PreallocatedStorage>, s: PreallocatedStorage)
    requires s in free && Distinct(free)
    ensures forall x :: x in Nodes([[f] + Remove(free, s), [u] + ([s] + used)])
                        <==> x in Nodes([[f] + free, [u] + used])
  {
    RemoveMembers(free, s);
    hide Remove, Distinct;
    var rs, rs' := [[f] + free, [u] + used], [[f] + Remove(free, s), [u] + ([s] + used)];
    forall x: PreallocatedStorage ensures x in Nodes(rs) <==> x in Nodes(rs') {
      NodesOfTwo(f, free, u, used, x);
      NodesOfTwo(f, Remove(free, s), u, [s] + used, x);
    }
  }

  lemma NodesOfTwo(f: PreallocatedStorage, free: seq<PreallocatedStorage>, u: PreallocatedStorage,
                   used: seq<PreallocatedStorage>, x: PreallocatedStorage)
    ensures x in Nodes([[f] + free, [u] + used]) <==> x == f || x in free || x == u || x in used
  {
    var rs := [[f] + free, [u] + used];
    if x in Nodes(rs) {
      var a: nat, i: nat :| a < |rs| && i < |rs[a]| && rs[a][i] == x;
      assert rs[a] == [f] + free || rs[a] == [u] + used;
    }
    if x == f || x in free { assert x in rs[0]; }
    if x == u || x in used { assert x in rs[1]; }
  }

  lemma HeadsApart<T>(f: T, free: seq<T>, u: T, used: seq<T>)
    requires Sound([[f] + free, [u] + used])
    ensures f != u && f !in used && u !in free
  {
    var r, q := [f] + free, [u] + used;
    DisjointAt([r, q], 0, 1, f);
    DisjointAt([r, q], 0, 1, u);
    assert r[0] == f && q[0] == u;
  }

  lemma SoundParts<T>(f: T, free: seq<T>, u: T, used: seq<T>)
    requires Sound([[f] + free, [u] + used])
    ensures Distinct(free) && Distinct(used) && forall x :: x in used ==> x !in free
  {
    var r, q := [f] + free, [u] + used;
    assert [r, q][0] == r && [r, q][1] == q;
    assert forall i :: 0 <= i < |free| ==> free[i] == r[i + 1];
    assert forall i :: 0 <= i < |used| ==> used[i] == q[i + 1];
    forall x | x in used ensures x !in free { DisjointAt([r, q], 0, 1, x); }
  }

  lemma HeadApart<T>(f: T, free: seq<T>, u: T, used: seq<T>, s: T)
    requires Sound([[f] + free, [u] + used]) && (s in free || s in used)
    ensures f != u && f !in free && f !in used && u !in free && u !in used && s != f && s != u
    ensures Distinct(free) && Distinct(used)
    ensures forall x :: x in free ==> x !in used
  {
    var r, q := [f] + free, [u] + used;
    DisjointAt([r, q], 0, 1, f);
    DisjointAt([r, q], 0, 1, u);
    DisjointAt([r, q], 0, 1, s);
    assert r[0] == f && q[0] == u;
    assert forall i :: 0 <= i < |free| ==> free[i] == r[i + 1];
    assert forall i :: 0 <= i < |used| ==> used[i] == q[i + 1];
    forall x | x in free ensures x !in used { DisjointAt([r, q], 0, 1, x); }
  }
}