/** The heap page allocator: first fit over the nested bitmap. */
module PageHeap {
  import opened Wrappers
  import opened NestedBitmap

  const PAGE_SIZE := 4096
  /** `BitMap<BitAlloc4K>`: 64K bits. */
  const HEIGHT := 3

  // ------------------------------------------------------------- page owners

  /** Who holds each page: nobody, the boot reservation, or an allocation, which is
      named by its serial number. */
  datatype Owner = Nobody | Reserved | Alloc(id: nat)

  function Fill(s: seq<Owner>, a: nat, n: nat, o: Owner): (r: seq<Owner>)
    requires a + n <= |s|
    ensures |r| == |s|
    decreases n
  {
    if n == 0 then s else Fill(s[a := o], a + 1, n - 1, o)
  }

  lemma {:induction false} FillAt(s: seq<Owner>, a: nat, n: nat, o: Owner, i: nat)
    requires a + n <= |s| && i < |s|
    ensures Fill(s, a, n, o)[i] == if a <= i < a + n then o else s[i]
    decreases n
  {
    if n > 0 { FillAt(s[a := o], a + 1, n - 1, o, i); }
  }

  function Count(s: seq<Owner>, o: Owner): (n: nat)
    ensures n <= |s|
  {
    if s == [] then 0 else Count(s[1..], o) + if s[0] == o then 1 else 0
  }

  lemma {:induction false} CountUpdate(s: seq<Owner>, i: nat, x: Owner, o: Owner)
    requires i < |s|
    ensures Count(s[i := x], o) + (if s[i] == o then 1 else 0) == Count(s, o) + (if x == o then 1 else 0)
  {
    if i == 0 {
      assert s[0 := x][1..] == s[1..];
    } else {
      assert s[i := x][1..] == s[1..][i - 1 := x];
      CountUpdate(s[1..], i - 1, x, o);
    }
  }

  /** Pages all held by x pass to y. */
  lemma {:induction false} CountFill(s: seq<Owner>, a: nat, n: nat, x: Owner, y: Owner, o: Owner)
    requires a + n <= |s| && forall i :: a <= i < a + n ==> s[i] == x
    ensures Count(Fill(s, a, n, y), o) + (if x == o then n else 0) == Count(s, o) + (if y == o then n else 0)
    decreases n
  {
    if n > 0 {
      CountUpdate(s, a, y, o);
      CountFill(s[a := y], a + 1, n - 1, x, y, o);
    }
  }

  // ------------------------------------------------------------------ first fit

  /** A run of n clear pages at a. */
  predicate ClearRun(s: seq<Owner>, a: nat, n: nat) {
    a + n <= |s| && forall i :: a <= i < a + n ==> s[i] == Nobody
  }

  /** The least length the search looks for: it never accepts an empty run. */
  function AtLeastOne(n: nat): nat { if n == 0 then 1 else n }

  // ---------------------------------------------------------------------- runs

  datatype Block = Block(start: nat, len: nat)

  /** The heap with its history: live allocations by serial number. */
  datatype Heap = Heap(owner: seq<Owner>, free: int, last: nat, live: map<nat, Block>, serial: nat)

  datatype Op = Reserve(a: nat, n: nat) | AllocPages(n: nat, at: nat) | FreePages(id: nat)

  /** What the callers must respect: reserved pages are clear, freed blocks are
      live. An allocation may land on any clear run. */
  predicate Legal(h: Heap, op: Op) {
    match op
    case Reserve(a, n) => ClearRun(h.owner, a, n)
    case AllocPages(n, at) => ClearRun(h.owner, at, n)
    case FreePages(id) => id in h.live && h.live[id].start + h.live[id].len <= |h.owner|
  }

  function Do(h: Heap, op: Op): (r: Heap)
    requires Legal(h, op)
  {
    match op
    case Reserve(a, n) => h.(owner := Fill(h.owner, a, n, Reserved))
    case AllocPages(n, at) =>
      h.(owner := Fill(h.owner, at, n, Alloc(h.serial)), free := h.free - n,
         last := if at + n < |h.owner| then at + n else 0,
         live := h.live[h.serial := Block(at, n)], serial := h.serial + 1)
    case FreePages(id) =>
      var b := h.live[id];
      h.(owner := Fill(h.owner, b.start, b.len, Nobody), free := h.free + b.len, last := b.start, live := h.live - {id})
  }

  /** Page i is marked with this number exactly when it is in the block. */
  predicate Marked(h: Heap, id: nat, i: nat)
    requires id in h.live && i < |h.owner|
  {
    h.owner[i] == Alloc(id) <==> h.live[id].start <= i < h.live[id].start + h.live[id].len
  }

  /** Every live block holds exactly the pages marked with its number. */
  ghost predicate Holds(h: Heap) {
    && (forall id {:trigger h.live[id]} :: id in h.live ==>
      id < h.serial && h.live[id].start + h.live[id].len <= |h.owner|)
    && (forall id, i: nat {:trigger Marked(h, id, i)} :: id in h.live && i < |h.owner| ==> Marked(h, id, i))
    && (forall i {:trigger h.owner[i]} :: 0 <= i < |h.owner| && h.owner[i].Alloc? ==> h.owner[i].id in h.live)
  }

  /** `free` counts the clear pages and the ones ever reserved. */
  ghost predicate Inv(h: Heap) {
    Holds(h) && h.free == Count(h.owner, Nobody) + Count(h.owner, Reserved)
  }

  lemma AllocHolds(h: Heap, n: nat, at: nat)
    requires Inv(h) && Legal(h, AllocPages(n, at))
    ensures Holds(Do(h, AllocPages(n, at)))
  {
    var r := Do(h, AllocPages(n, at));
    forall i: nat | i < |h.owner| ensures r.owner[i] == if at <= i < at + n then Alloc(h.serial) else h.owner[i] {
      FillAt(h.owner, at, n, Alloc(h.serial), i);
    }
    forall id, i: nat | id in r.live && i < |r.owner| ensures Marked(r, id, i) {
      if id in h.live { assert Marked(h, id, i); }
    }
  }

  lemma FreeHolds(h: Heap, id: nat)
    requires Inv(h) && Legal(h, FreePages(id))
    ensures Holds(Do(h, FreePages(id)))
  {
    var r, b := Do(h, FreePages(id)), h.live[id];
    forall i: nat | i < |h.owner| ensures r.owner[i] == if b.start <= i < b.start + b.len then Nobody else h.owner[i] {
      FillAt(h.owner, b.start, b.len, Nobody, i);
    }
    forall x, i: nat | x in r.live && i < |r.owner| ensures Marked(r, x, i) {
      assert Marked(h, x, i) && Marked(h, id, i);
    }
    forall i: nat | i < |r.owner| && r.owner[i].Alloc? ensures r.owner[i].id in r.live {
      assert Marked(h, id, i);
    }
  }

  lemma ReserveHolds(h: Heap, a: nat, n: nat)
    requires Inv(h) && Legal(h, Reserve(a, n))
    ensures Holds(Do(h, Reserve(a, n)))
  {
    var r := Do(h, Reserve(a, n));
    forall i: nat | i < |h.owner| ensures r.owner[i] == if a <= i < a + n then Reserved else h.owner[i] {
      FillAt(h.owner, a, n, Reserved, i);
    }
    forall id, i: nat | id in r.live && i < |r.owner| ensures Marked(r, id, i) {
      assert Marked(h, id, i);
    }
  }

  /** Every operation keeps the count. */
  lemma StepInv(h: Heap, op: Op)
    requires Inv(h) && Legal(h, op)
    ensures Inv(Do(h, op)) && |Do(h, op).owner| == |h.owner|
  {
    match op
    case Reserve(a, n) =>
      ReserveHolds(h, a, n);
      CountFill(h.owner, a, n, Nobody, Reserved, Nobody);
      CountFill(h.owner, a, n, Nobody, Reserved, Reserved);
    case AllocPages(n, at) =>
      AllocHolds(h, n, at);
      CountFill(h.owner, at, n, Nobody, Alloc(h.serial), Nobody);
      CountFill(h.owner, at, n, Nobody, Alloc(h.serial), Reserved);
    case FreePages(id) =>
      FreeHolds(h, id);
      var b := h.live[id];
      forall i: nat | b.start <= i < b.start + b.len ensures h.owner[i] == Alloc(id) { assert Marked(h, id, i); }
      CountFill(h.owner, b.start, b.len, Alloc(id), Nobody, Nobody);
      CountFill(h.owner, b.start, b.len, Alloc(id), Nobody, Reserved);
  }

  function Boot(size: nat): Heap { Heap(seq(size, _ => Nobody), size, 0, map[], 0) }

  lemma {:induction false} BootInv(size: nat)
    ensures Inv(Boot(size))
  {
    BootCount(Boot(size).owner);
  }

  lemma {:induction false} BootCount(s: seq<Owner>)
    requires forall i :: 0 <= i < |s| ==> s[i] == Nobody
    ensures Count(s, Nobody) == |s| && Count(s, Reserved) == 0
  {
    if s != [] { BootCount(s[1..]); }
  }

  ghost predicate RunLegal(h: Heap, ops: seq<Op>)
    decreases |ops|
  {
    ops == [] || (Legal(h, ops[0]) && RunLegal(Do(h, ops[0]), ops[1..]))
  }

  ghost function Run(h: Heap, ops: seq<Op>): Heap
    requires RunLegal(h, ops)
    decreases |ops|
  {
    if ops == [] then h else Run(Do(h, ops[0]), ops[1..])
  }

  /** In every run the count is right, it covers every allocation that could be
      made, and live allocations have no page in common. */
  lemma {:induction false} HeapSafe(size: nat, ops: seq<Op>)
    requires RunLegal(Boot(size), ops)
    ensures var h := Run(Boot(size), ops);
      && |h.owner| == size && h.free == Count(h.owner, Nobody) + Count(h.owner, Reserved)
      && (forall a: nat, n: nat :: ClearRun(h.owner, a, n) ==> n <= h.free)
      && (forall x, y :: x in h.live && y in h.live && x != y ==> Apart(h.live[x], h.live[y]))
  {
    BootInv(size);
    RunInv(Boot(size), ops);
    var h := Run(Boot(size), ops);
    forall a: nat, n: nat | ClearRun(h.owner, a, n) ensures n <= h.free { Covered(h, a, n); }
    forall x, y | x in h.live && y in h.live && x != y ensures Apart(h.live[x], h.live[y]) { LiveApart(h, x, y); }
  }

  predicate Apart(b: Block, c: Block) {
    b.len == 0 || c.len == 0 || b.start + b.len <= c.start || c.start + c.len <= b.start
  }

  lemma LiveApart(h: Heap, x: nat, y: nat)
    requires Inv(h) && x in h.live && y in h.live && x != y
    ensures Apart(h.live[x], h.live[y])
  {
    var b, c := h.live[x], h.live[y];
    var i := if b.start < c.start then c.start else b.start;
    if b.len > 0 && c.len > 0 { assert Marked(h, x, i) && Marked(h, y, i); }
  }

  lemma {:induction false} RunInv(h: Heap, ops: seq<Op>)
    requires Inv(h) && RunLegal(h, ops)
    ensures Inv(Run(h, ops)) && |Run(h, ops).owner| == |h.owner|
    decreases |ops|
  {
    if ops != [] {
      StepInv(h, ops[0]);
      RunInv(Do(h, ops[0]), ops[1..]);
    }
  }

  /** A reserved page stays reserved. */
  lemma {:induction false} ReservedForGood(h: Heap, ops: seq<Op>, i: nat)
    requires Inv(h) && RunLegal(h, ops) && i < |h.owner| && h.owner[i] == Reserved
    ensures Inv(Run(h, ops)) && |Run(h, ops).owner| == |h.owner| && Run(h, ops).owner[i] == Reserved
    decreases |ops|
  {
    if ops != [] {
      StepInv(h, ops[0]);
      match ops[0] {
        case Reserve(a, n) => FillAt(h.owner, a, n, Reserved, i);
        case AllocPages(n, at) => FillAt(h.owner, at, n, Alloc(h.serial), i);
        case FreePages(id) =>
          FillAt(h.owner, h.live[id].start, h.live[id].len, Nobody, i);
          assert Marked(h, id, i);
      }
      ReservedForGood(Do(h, ops[0]), ops[1..], i);
    }
  }

  // -------------------------------------------------------------- the allocator

  /** Where `first_fit` finds room for n pages: at `last` for one page, if that is clear;
      else at the leftmost clear run. */
  ghost predicate Leftmost(s: seq<Owner>, last: nat, n: nat, at: nat) {
    if n <= 1 && last < |s| && s[last] == Nobody then at == last
    else forall a: nat :: ClearRun(s, a, AtLeastOne(n)) ==> at <= a
  }

  class HeapRegion {
    var bits: Bitmap
    var base: nat
    var size: nat
    var free: nat
    var last: nat
    ghost var now: Heap

    /** The bitmap shows the pages that are held. */
    ghost predicate Shows(t: Bitmap, owner: seq<Owner>)
    {
      Shaped(t, HEIGHT) && |owner| <= Cap(HEIGHT) &&
      forall i: nat {:trigger Get(t, HEIGHT, i)} :: i < |owner| ==> Get(t, HEIGHT, i) == (owner[i] != Nobody)
    }

    ghost predicate Valid()
      reads this
    {
      |now.owner| == size && 0 < size && last < size && Shows(bits, now.owner) && free == now.free && last == now.last
        && Inv(now)
    }

    /** `first_fit`. */
    method FirstFit(n: nat) returns (r: Option<nat>)
      requires Valid()
      ensures r.Some? ==> ClearRun(now.owner, r.value, AtLeastOne(n))
      ensures r.Some? ==> Leftmost(now.owner, last, n, r.value)
      ensures r.None? <==> forall a: nat :: !ClearRun(now.owner, a, AtLeastOne(n))
    {
      if n <= 1 && !Get(bits, HEIGHT, last) {
        assert ClearRun(now.owner, last, AtLeastOne(n));
        return Some(last);
      }
      var count := 0;
      for i := 0 to size
        invariant count <= i && count < AtLeastOne(n)
        invariant forall k: nat {:trigger now.owner[k]} :: i - count <= k < i ==> now.owner[k] == Nobody
        invariant count < i ==> now.owner[i - count - 1] != Nobody
        invariant forall a: nat :: ClearRun(now.owner, a, AtLeastOne(n)) ==> a >= i - count
      {
        if !Get(bits, HEIGHT, i) {
          count := count + 1;
          if count >= n {
            assert ClearRun(now.owner, i + 1 - count, AtLeastOne(n));
            return Some(i + 1 - count);
          }
        } else {
          count := 0;
        }
      }
      r := None;
    }

    /** `region_init` on a fresh bitmap. */
    constructor (base: nat, size: nat)
      requires 0 < size <= 0x1_0000
      ensures Valid() && now == Boot(size) && this.base == base && this.size == size
    {
      this.bits, this.base, this.size, this.free, this.last := Zero(HEIGHT), base, size, size, 0;
      this.now := Boot(size);
      new;
      assert Cap(HEIGHT) == 0x1_0000;
      forall i: nat | i < size ensures !Get(bits, HEIGHT, i) { GetZero(HEIGHT, i); }
      BootInv(size);
    }

    /** The loops that set or clear pages a..a + n. */
    method Mark(a: nat, n: nat, v: bool, ghost o: Owner)
      requires a + n <= |now.owner| && Shows(bits, now.owner) && v == (o != Nobody)
      modifies this`bits
      ensures Shows(bits, Fill(now.owner, a, n, o))
    {
      ghost var t := bits;
      for i := a to a + n
        invariant Shaped(bits, HEIGHT)
        invariant forall j: nat {:trigger Get(bits, HEIGHT, j)} :: j < |now.owner| ==>
          Get(bits, HEIGHT, j) == if a <= j < i then v else Get(t, HEIGHT, j)
      {
        ghost var u := bits;
        bits := Put(bits, HEIGHT, i, v);
        forall j: nat | j < |now.owner| ensures Get(bits, HEIGHT, j) == if j == i then v else Get(u, HEIGHT, j) {
          GetPut(u, HEIGHT, i, v, j);
        }
      }
      forall j: nat | j < |now.owner| ensures Get(bits, HEIGHT, j) == (Fill(now.owner, a, n, o)[j] != Nobody) {
        FillAt(now.owner, a, n, o, j);
      }
    }

    /** `reserve_pages`; it panics on a page that is held. */
    method ReservePages(addr: nat, n: nat)
      requires Valid() && base <= addr && (addr - base) % PAGE_SIZE == 0
        && ClearRun(now.owner, (addr - base) / PAGE_SIZE, n)
      modifies this
      ensures Valid() && base == old(base) && size == old(size)
      ensures now == Do(old(now), Reserve((addr - base) / PAGE_SIZE, n))
    {
      var a := (addr - base) / PAGE_SIZE;
      StepInv(now, Reserve(a, n));
      Mark(a, n, true, Reserved);
      now := Do(now, Reserve(a, n));
    }

    /** `alloc_pages`; the next search starts behind the pages, or at 0 behind the last. */
    method AllocatePages(n: nat) returns (r: Option<nat>)
      requires Valid()
      modifies this
      ensures Valid() && base == old(base) && size == old(size)
      ensures r.None? <==> forall a: nat :: !ClearRun(old(now).owner, a, AtLeastOne(n))
      ensures r.None? ==> now == old(now) && bits == old(bits)
      ensures r.Some? ==> r.value >= base && (r.value - base) % PAGE_SIZE == 0
      ensures r.Some? ==> Legal(old(now), AllocPages(n, (r.value - base) / PAGE_SIZE)) &&
                          now == Do(old(now), AllocPages(n, (r.value - base) / PAGE_SIZE))
      ensures r.Some? ==> Leftmost(old(now).owner, old(last), n, (r.value - base) / 4096) && free == old(free) - n
      ensures r.Some? ==> var end := (r.value - base) / 4096 + n; last == if end < size then end else 0
      ensures r.None? ==> free == old(free) && last == old(last)
    {
      var fit := FirstFit(n);
      if fit.None? { return None; }
      var at := fit.value;
      assert ClearRun(now.owner, at, n);
      StepInv(now, AllocPages(n, at));
      Covered(now, at, n);
      Mark(at, n, true, Alloc(now.serial));
      free := free - n;
      last := if at + n < size then at + n else 0;
      now := Do(now, AllocPages(n, at));
      PageAddress(at);
      r := Some(base + at * PAGE_SIZE);
    }

    /** `mem_heap_alloc`: its test against `free` turns away nothing that fits. */
    method HeapAlloc(n: nat) returns (r: Option<nat>)
      requires Valid()
      modifies this
      ensures Valid() && base == old(base) && size == old(size)
      ensures r.None? <==> n == 0 || forall a: nat :: !ClearRun(old(now).owner, a, n)
      ensures r.None? ==> now == old(now)
      ensures r.Some? ==> r.value >= base && Legal(old(now), AllocPages(n, (r.value - base) / PAGE_SIZE)) &&
                          now == Do(old(now), AllocPages(n, (r.value - base) / PAGE_SIZE))
      ensures r.Some? ==> Leftmost(old(now).owner, old(last), n, (r.value - base) / 4096) && free == old(free) - n
      ensures r.Some? ==> var end := (r.value - base) / 4096 + n; last == if end < size then end else 0
      ensures r.None? ==> free == old(free) && last == old(last)
    {
      if n == 0 { return None; }
      if n > free {
        forall a: nat ensures !ClearRun(now.owner, a, n) { if ClearRun(now.owner, a, n) { Covered(now, a, n); } }
        return None;
      }
      assert AtLeastOne(n) == n;
      r := AllocatePages(n);
      if r.Some? { assert ClearRun(old(now).owner, (r.value - base) / PAGE_SIZE, n); }
    }

    /** `free_pages` of a live block; the next search starts there. */
    method FreeBlock(addr: nat, n: nat, ghost id: nat)
      requires Valid() && base <= addr && (addr - base) % PAGE_SIZE == 0
      requires id in now.live && now.live[id] == Block((addr - base) / PAGE_SIZE, n) && n > 0
      modifies this
      ensures Valid() && base == old(base) && size == old(size) && now == Do(old(now), FreePages(id))
      ensures free == old(free) + n && last == (addr - base) / 4096
    {
      var a := (addr - base) / PAGE_SIZE;
      StepInv(now, FreePages(id));
      Mark(a, n, false, Nobody);
      free := free + n;
      last := a;
      now := Do(now, FreePages(id));
    }
  }

  lemma PageAddress(at: nat)
    ensures (at * PAGE_SIZE) % PAGE_SIZE == 0 && (at * PAGE_SIZE) / PAGE_SIZE == at
  {
  }

  /** `free` covers every clear run. */
  lemma Covered(h: Heap, a: nat, n: nat)
    requires Inv(h) && ClearRun(h.owner, a, n)
    ensures n <= h.free
  {
    CountFill(h.owner, a, n, Nobody, Reserved, Nobody);
  }
}
