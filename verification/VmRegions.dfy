/** The allocator of guest memory: a list of regions that is split on allocation
    and coalesced on release. */
module VmRegions {
  const PAGE_SIZE := 4096

  /** Base address, size in pages, and free pages, which are none or all. */
  datatype MemRegion = MemRegion(base: nat, size: nat, free: nat)

  function End(r: MemRegion): nat { r.base + r.size * PAGE_SIZE }

  predicate In(r: MemRegion, a: nat) { r.base <= a < End(r) }

  predicate RegionOk(r: MemRegion) {
    r.base > 0 && r.base % PAGE_SIZE == 0 && r.size > 0 && (r.free == 0 || r.free == r.size)
  }

  predicate Apart(r: MemRegion, q: MemRegion) { End(r) <= q.base || End(q) <= r.base }

  /** Regions are sound and do not overlap. */
  ghost predicate WF(rs: seq<MemRegion>) {
    && (forall i :: 0 <= i < |rs| ==> RegionOk(rs[i]))
    && (forall i, j :: 0 <= i < j < |rs| ==> Apart(rs[i], rs[j]))
  }

  predicate Touch(r: MemRegion, q: MemRegion) { r.free != 0 && q.free != 0 && End(r) == q.base }

  /** No two free regions touch, except perhaps with region m. */
  ghost predicate NoTouchBut(rs: seq<MemRegion>, m: int) {
    forall i, j :: 0 <= i < |rs| && 0 <= j < |rs| && i != j && i != m && j != m ==> !Touch(rs[i], rs[j])
  }

  ghost predicate NoTouch(rs: seq<MemRegion>) { NoTouchBut(rs, -1) }

  ghost predicate Good(rs: seq<MemRegion>) { WF(rs) && NoTouch(rs) }

  /** Address a belongs to the memory the allocator manages; it is free. */
  ghost predicate Covers(rs: seq<MemRegion>, a: nat) { exists i :: 0 <= i < |rs| && In(rs[i], a) }
  ghost predicate FreeAt(rs: seq<MemRegion>, a: nat) { exists i :: 0 <= i < |rs| && In(rs[i], a) && rs[i].free != 0 }

  ghost predicate SameMemory(rs: seq<MemRegion>, qs: seq<MemRegion>) {
    forall a: nat :: Covers(rs, a) <==> Covers(qs, a)
  }

  // ------------------------------------------------------------------ allocation

  /** The state after n pages are taken from the front of region i. */
  function Carve(rs: seq<MemRegion>, i: nat, n: nat): seq<MemRegion>
    requires i < |rs| && n <= rs[i].size
  {
    var r := rs[i];
    if r.size > n
    then rs[i := MemRegion(r.base, n, 0)] + [MemRegion(r.base + n * PAGE_SIZE, r.size - n, r.size - n)]
    else rs[i := r.(free := 0)]
  }

  lemma CarveWF(rs: seq<MemRegion>, i: nat, n: nat)
    requires Good(rs) && i < |rs| && 0 < n <= rs[i].free
    ensures Good(Carve(rs, i, n))
  {
    var qs := Carve(rs, i, n);
    forall k, j | 0 <= k < j < |qs| ensures Apart(qs[k], qs[j]) {
      if k < |rs| && k != i { assert if k < i then Apart(rs[k], rs[i]) else Apart(rs[i], rs[k]); }
      if j < |rs| && j != i { assert if j < i then Apart(rs[j], rs[i]) else Apart(rs[i], rs[j]); }
    }
    forall k, j | 0 <= k < |qs| && 0 <= j < |qs| && k != j ensures !Touch(qs[k], qs[j]) {
      var k', j' := if k == |rs| then i else k, if j == |rs| then i else j;
      if k' != j' {
        assert !Touch(rs[k'], rs[j']);
        assert if k' < j' then Apart(rs[k'], rs[j']) else Apart(rs[j'], rs[k']);
      }
    }
  }

  lemma CarveCover(rs: seq<MemRegion>, i: nat, n: nat, a: nat)
    requires WF(rs) && i < |rs| && 0 < n <= rs[i].free
    ensures Covers(Carve(rs, i, n), a) <==> Covers(rs, a)
    ensures FreeAt(Carve(rs, i, n), a) <==> FreeAt(rs, a) && !(rs[i].base <= a < rs[i].base + n * PAGE_SIZE)
  {
    var qs := Carve(rs, i, n);
    if k :| 0 <= k < |rs| && In(rs[k], a) {
      OnlyRegion(rs, k, a);
      if k != i {
        assert In(qs[k], a) && qs[k] == rs[k];
      } else if a < rs[i].base + n * PAGE_SIZE {
        assert In(qs[i], a);
      } else {
        assert In(qs[|rs|], a);
      }
    }
    if k :| 0 <= k < |qs| && In(qs[k], a) {
      assert In(rs[if k == |rs| then i else k], a);
      OnlyRegion(rs, if k == |rs| then i else k, a);
    }
  }

  /** An address is in one region at most. */
  lemma OnlyRegion(rs: seq<MemRegion>, k: nat, a: nat)
    requires WF(rs) && k < |rs| && In(rs[k], a)
    ensures forall j :: 0 <= j < |rs| && In(rs[j], a) ==> j == k
  {
  }

  /** n pages from b on are all free. */
  ghost predicate FreeRun(rs: seq<MemRegion>, b: nat, n: nat) {
    forall a :: b <= a < b + n * PAGE_SIZE ==> FreeAt(rs, a)
  }

  lemma AnyApart(rs: seq<MemRegion>, i: nat, j: nat)
    requires WF(rs) && i < |rs| && j < |rs| && i != j
    ensures Apart(rs[i], rs[j])
  {
    assert if i < j then Apart(rs[i], rs[j]) else Apart(rs[j], rs[i]);
  }

  /** Free memory stops at the end of a free region. */
  lemma EndNotFree(rs: seq<MemRegion>, i: nat)
    requires Good(rs) && i < |rs| && rs[i].free != 0
    ensures !FreeAt(rs, End(rs[i]))
  {
    forall j | 0 <= j < |rs| && j != i ensures !(In(rs[j], End(rs[i])) && rs[j].free != 0) {
      AnyApart(rs, i, j);
      assert !Touch(rs[i], rs[j]);
    }
  }

  /** A run of free pages lies in one region, since free regions do not touch. */
  lemma RunInOneRegion(rs: seq<MemRegion>, b: nat, n: nat)
    requires Good(rs) && n > 0
    ensures FreeRun(rs, b, n) ==>
      exists i :: 0 <= i < |rs| && rs[i].free >= n && rs[i].base <= b && b + n * PAGE_SIZE <= End(rs[i])
  {
    if FreeRun(rs, b, n) {
      assert FreeAt(rs, b);
      var i :| 0 <= i < |rs| && In(rs[i], b) && rs[i].free != 0;
      assert RegionOk(rs[i]);
      EndNotFree(rs, i);
      assert !(b <= End(rs[i]) < b + n * PAGE_SIZE);
    }
  }

  // ------------------------------------------------------------------ coalescing

  /** Region x grows over region y, which starts where x ends, and y goes. */
  function Join(rs: seq<MemRegion>, x: nat, y: nat): seq<MemRegion>
    requires x < |rs| && y < |rs| && x != y
  {
    var g := rs[x].(size := rs[x].size + rs[y].size, free := rs[x].free + rs[y].size);
    var qs := rs[x := g];
    qs[..y] + qs[y + 1..]
  }

  /** Where region k of the joined list stood before, and where the grown one is. */
  function Was(y: nat, k: nat): nat { if k < y then k else k + 1 }
  function Now(x: nat, y: nat): nat
    requires x != y
  {
    if x < y then x else x - 1
  }

  ghost predicate Joinable(rs: seq<MemRegion>, x: nat, y: nat) {
    x < |rs| && y < |rs| && x != y && Touch(rs[x], rs[y])
  }

  lemma JoinAt(rs: seq<MemRegion>, x: nat, y: nat)
    requires x < |rs| && y < |rs| && x != y
    ensures |Join(rs, x, y)| == |rs| - 1
    ensures forall k :: 0 <= k < |rs| - 1 ==>
      Join(rs, x, y)[k] == if Was(y, k) == x
                           then rs[x].(size := rs[x].size + rs[y].size, free := rs[x].free + rs[y].size)
                             else rs[Was(y, k)]
    ensures Was(y, Now(x, y)) == x
  {
  }

  /** Joining keeps the regions sound and apart. */
  lemma JoinWF(rs: seq<MemRegion>, x: nat, y: nat)
    requires WF(rs) && Joinable(rs, x, y)
    ensures WF(Join(rs, x, y))
  {
    var qs := Join(rs, x, y);
    JoinAt(rs, x, y);
    assert RegionOk(rs[x]) && RegionOk(rs[y]);
    forall k | 0 <= k < |qs| ensures RegionOk(qs[k]) {
      assert RegionOk(rs[Was(y, k)]);
    }
    forall k, j | 0 <= k < j < |qs| ensures Apart(qs[k], qs[j]) {
      var k', j' := Was(y, k), Was(y, j);
      AnyApart(rs, k', j');
      AnyApart(rs, k', y);
      AnyApart(rs, j', y);
    }
  }

  lemma JoinTouch(rs: seq<MemRegion>, x: nat, y: nat, m: nat)
    requires WF(rs) && Joinable(rs, x, y) && (m == x || m == y) && NoTouchBut(rs, m)
    ensures NoTouchBut(Join(rs, x, y), Now(x, y))
  {
    var qs := Join(rs, x, y);
    JoinAt(rs, x, y);
    forall i, j | 0 <= i < |qs| && 0 <= j < |qs| && i != j && i != Now(x, y) && j != Now(x, y)
      ensures !Touch(qs[i], qs[j]) {
      assert !Touch(rs[Was(y, i)], rs[Was(y, j)]);
    }
  }

  /** Joining changes neither what is managed nor what is free. */
  lemma JoinCover(rs: seq<MemRegion>, x: nat, y: nat, a: nat)
    requires WF(rs) && Joinable(rs, x, y)
    ensures Covers(Join(rs, x, y), a) <==> Covers(rs, a)
    ensures FreeAt(Join(rs, x, y), a) <==> FreeAt(rs, a)
  {
    var qs := Join(rs, x, y);
    JoinAt(rs, x, y);
    var n := Now(x, y);
    assert RegionOk(rs[x]) && RegionOk(rs[y]);
    assert In(qs[n], a) <==> In(rs[x], a) || In(rs[y], a);
    if k :| 0 <= k < |rs| && In(rs[k], a) {
      OnlyRegion(rs, k, a);
      if k != x && k != y {
        var k' := if k < y then k else k - 1;
        assert qs[k'] == rs[k];
      }
    }
    if k :| 0 <= k < |qs| && In(qs[k], a) && k != n {
      OnlyRegion(rs, Was(y, k), a);
      assert qs[k] == rs[Was(y, k)];
    }
  }

  /** What a release must achieve: the same memory, and exactly r free in addition. */
  ghost predicate Released(rs: seq<MemRegion>, r: MemRegion, qs: seq<MemRegion>) {
    && SameMemory(rs, qs)
    && forall a: nat :: FreeAt(qs, a) <==> FreeAt(rs, a) || In(r, a)
  }

  /** Marking region i free. */
  lemma FreeOne(rs: seq<MemRegion>, i: nat)
    requires Good(rs) && i < |rs| && rs[i].free == 0
    ensures var qs := rs[i := rs[i].(free := rs[i].size)];
      WF(qs) && NoTouchBut(qs, i) && Released(rs, rs[i], qs)
  {
    var qs := rs[i := rs[i].(free := rs[i].size)];
    forall k | 0 <= k < |qs| ensures RegionOk(qs[k]) { assert RegionOk(rs[k]); }
    forall k, j | 0 <= k < j < |qs| ensures Apart(qs[k], qs[j]) { assert Apart(rs[k], rs[j]); }
    forall k, j | 0 <= k < |qs| && 0 <= j < |qs| && k != j && k != i && j != i ensures !Touch(qs[k], qs[j]) {
      assert !Touch(rs[k], rs[j]);
    }
    forall a: nat
      ensures Covers(rs, a) <==> Covers(qs, a)
      ensures FreeAt(qs, a) <==> FreeAt(rs, a) || In(rs[i], a)
    {
      if k :| 0 <= k < |rs| && In(rs[k], a) { assert In(qs[k], a); OnlyRegion(rs, k, a); }
      if k :| 0 <= k < |qs| && In(qs[k], a) { assert In(rs[k], a); OnlyRegion(rs, k, a); }
    }
  }

  lemma JoinReleased(rs: seq<MemRegion>, r: MemRegion, qs: seq<MemRegion>, x: nat, y: nat)
    requires WF(qs) && Joinable(qs, x, y) && Released(rs, r, qs)
    ensures Released(rs, r, Join(qs, x, y))
  {
    forall a: nat
      ensures Covers(rs, a) <==> Covers(Join(qs, x, y), a)
      ensures FreeAt(Join(qs, x, y), a) <==> FreeAt(rs, a) || In(r, a)
    {
      JoinCover(qs, x, y, a);
    }
  }

  // ------------------------------------------------------------------ operations

  /** The first region from k on with at least n free pages. */
  function Fit(rs: seq<MemRegion>, n: nat, k: nat): (i: nat)
    requires k <= |rs|
    ensures k <= i <= |rs| && (forall j :: k <= j < i ==> rs[j].free < n) && (i < |rs| ==> rs[i].free >= n)
    decreases |rs| - k
  {
    if k == |rs| || rs[k].free >= n then k else Fit(rs, n, k + 1)
  }

  /** `mem_vm_region_alloc` of n pages: the address, 0 for none, and the regions. */
  function Alloc(rs: seq<MemRegion>, n: nat): (nat, seq<MemRegion>) {
    var i := Fit(rs, n, 0);
    if i < |rs| && n <= rs[i].size then (rs[i].base, Carve(rs, i, n)) else (0, rs)
  }

  /** Region idx can be merged with region m. */
  predicate Before(rs: seq<MemRegion>, m: nat, idx: nat)
    requires m < |rs| && idx < |rs|
  {
    rs[idx].free != 0 && rs[m].base == End(rs[idx])
  }
  predicate Behind(rs: seq<MemRegion>, m: nat, idx: nat)
    requires m < |rs| && idx < |rs|
  {
    rs[idx].free != 0 && End(rs[m]) == rs[idx].base
  }

  /** The first region from k on that touches region m. */
  function Partner(rs: seq<MemRegion>, m: nat, k: nat): (i: nat)
    requires m < |rs| && k <= |rs|
    ensures k <= i <= |rs| && (i < |rs| ==> Before(rs, m, i) || Behind(rs, m, i))
    ensures forall j :: k <= j < i ==> !Before(rs, m, j) && !Behind(rs, m, j)
    decreases |rs| - k
  {
    if k == |rs| || Before(rs, m, k) || Behind(rs, m, k) then k else Partner(rs, m, k + 1)
  }

  /** The merge loop with region m just grown. */
  function Coalesce(rs: seq<MemRegion>, m: nat): seq<MemRegion>
    requires m < |rs|
    decreases |rs|
  {
    var i := Partner(rs, m, 0);
    if i == |rs| || i == m then rs
    else if Before(rs, m, i) then Coalesce(Join(rs, i, m), Now(i, m))
    else Coalesce(Join(rs, m, i), Now(m, i))
  }

  /** The first used region from k on that starts at `start`. */
  function Used(rs: seq<MemRegion>, start: nat, k: nat): (i: nat)
    requires k <= |rs|
    ensures k <= i <= |rs| && (i < |rs| ==> rs[i].base == start && rs[i].free == 0)
    ensures forall j :: k <= j < i ==> !(rs[j].base == start && rs[j].free == 0)
    decreases |rs| - k
  {
    if k == |rs| || (rs[k].base == start && rs[k].free == 0) then k else Used(rs, start, k + 1)
  }

  /** `mem_vm_region_free` of n pages. */
  function Free(rs: seq<MemRegion>, start: nat, n: nat): seq<MemRegion> {
    var i := Used(rs, start, 0);
    if i == |rs| then rs else Coalesce(rs[i := rs[i].(free := n)], i)
  }

  /** An allocation succeeds exactly when enough contiguous pages are free; it
      takes them, they were free, and nothing else changes hands. */
  lemma AllocOk(rs: seq<MemRegion>, n: nat)
    requires Good(rs) && n > 0
    ensures var (addr, qs) := Alloc(rs, n);
      && Good(qs) && SameMemory(rs, qs)
      && (addr != 0 <==> exists b: nat :: FreeRun(rs, b, n))
      && (addr != 0 ==> FreeRun(rs, addr, n))
      && (forall a: nat :: FreeAt(qs, a) <==> FreeAt(rs, a) && !(addr != 0 && addr <= a < addr + n * PAGE_SIZE))
  {
    var i := Fit(rs, n, 0);
    var (addr, qs) := Alloc(rs, n);
    if i < |rs| {
      assert RegionOk(rs[i]);
      CarveWF(rs, i, n);
      forall a: nat
        ensures Covers(rs, a) <==> Covers(qs, a)
        ensures FreeAt(qs, a) <==> FreeAt(rs, a) && !(addr <= a < addr + n * PAGE_SIZE)
      {
        CarveCover(rs, i, n, a);
      }
      forall a | addr <= a < addr + n * PAGE_SIZE ensures FreeAt(rs, a) {
        assert In(rs[i], a);
      }
      assert FreeRun(rs, addr, n);
    } else {
      forall b: nat ensures !FreeRun(rs, b, n) {
        RunInOneRegion(rs, b, n);
      }
    }
  }

  lemma {:induction false} CoalesceOk(rs: seq<MemRegion>, r: MemRegion, qs: seq<MemRegion>, m: nat)
    requires WF(qs) && m < |qs| && qs[m].free != 0 && NoTouchBut(qs, m) && Released(rs, r, qs)
    ensures Good(Coalesce(qs, m)) && Released(rs, r, Coalesce(qs, m))
    decreases |qs|
  {
    var i := Partner(qs, m, 0);
    assert RegionOk(qs[m]);
    if i == |qs| {
      NothingTouches(qs, m);
    } else if Before(qs, m, i) {
      assert Joinable(qs, i, m);
      CoalesceStep(rs, r, qs, i, m, m);
      CoalesceOk(rs, r, Join(qs, i, m), Now(i, m));
    } else {
      assert Joinable(qs, m, i);
      CoalesceStep(rs, r, qs, m, i, m);
      CoalesceOk(rs, r, Join(qs, m, i), Now(m, i));
    }
  }

  lemma {:induction false} NothingTouches(qs: seq<MemRegion>, m: nat)
    requires m < |qs| && NoTouchBut(qs, m) && Partner(qs, m, 0) == |qs|
    ensures NoTouch(qs)
  {
    forall i, j | 0 <= i < |qs| && 0 <= j < |qs| && i != j ensures !Touch(qs[i], qs[j]) {
      if i == m { assert !Behind(qs, m, j); }
      if j == m { assert !Before(qs, m, i); }
    }
  }

  lemma CoalesceStep(rs: seq<MemRegion>, r: MemRegion, qs: seq<MemRegion>, x: nat, y: nat, m: nat)
    requires WF(qs) && Joinable(qs, x, y) && (m == x || m == y) && NoTouchBut(qs, m) && Released(rs, r, qs)
    ensures var js := Join(qs, x, y); var n := Now(x, y);
      WF(js) && n < |js| < |qs| && js[n].free != 0 && NoTouchBut(js, n) && Released(rs, r, js)
  {
    JoinAt(qs, x, y);
    JoinWF(qs, x, y);
    JoinTouch(qs, x, y, m);
    JoinReleased(rs, r, qs, x, y);
    assert RegionOk(qs[x]) && RegionOk(qs[y]);
  }

  /** Releasing a used region with its own size makes exactly that region free;
      all else stays, and no two free regions touch afterwards. */
  lemma {:induction false} FreeOk(rs: seq<MemRegion>, start: nat, n: nat)
    requires Good(rs) && forall k :: 0 <= k < |rs| && rs[k].base == start && rs[k].free == 0 ==> rs[k].size == n
    ensures Good(Free(rs, start, n))
    ensures var i := Used(rs, start, 0);
      if i < |rs| then Released(rs, rs[i], Free(rs, start, n)) else Free(rs, start, n) == rs
  {
    var i := Used(rs, start, 0);
    if i < |rs| {
      assert RegionOk(rs[i]);
      FreeOne(rs, i);
      CoalesceOk(rs, rs[i], rs[i := rs[i].(free := n)], i);
    }
  }

  // ------------------------------------------------------------------------ runs

  datatype Op = AllocOp(n: nat) | FreeOp(start: nat, n: nat)

  /** Callers ask for at least one page and release what they were given. */
  predicate Legal(rs: seq<MemRegion>, op: Op) {
    match op
    case AllocOp(n) => n > 0
    case FreeOp(start, n) => forall k :: 0 <= k < |rs| && rs[k].base == start && rs[k].free == 0 ==> rs[k].size == n
  }

  function Step(rs: seq<MemRegion>, op: Op): seq<MemRegion> {
    match op
    case AllocOp(n) => Alloc(rs, n).1
    case FreeOp(start, n) => Free(rs, start, n)
  }

  predicate RunLegal(rs: seq<MemRegion>, ops: seq<Op>)
    decreases |ops|
  {
    ops == [] || (Legal(rs, ops[0]) && RunLegal(Step(rs, ops[0]), ops[1..]))
  }

  function Run(rs: seq<MemRegion>, ops: seq<Op>): seq<MemRegion>
    decreases |ops|
  {
    if ops == [] then rs else Run(Step(rs, ops[0]), ops[1..])
  }

  /** After any run the regions still partition the boot memory, each is free or
      used as a whole, and no two free ones touch. */
  lemma {:induction false} RunGood(rs: seq<MemRegion>, ops: seq<Op>)
    requires Good(rs) && RunLegal(rs, ops)
    ensures Good(Run(rs, ops)) && SameMemory(rs, Run(rs, ops))
    decreases |ops|
  {
    if ops != [] {
      var qs := Step(rs, ops[0]);
      match ops[0] {
        case AllocOp(n) => AllocOk(rs, n);
        case FreeOp(start, n) => FreeOk(rs, start, n);
      }
      assert SameMemory(rs, qs);
      RunGood(qs, ops[1..]);
    }
  }

  predicate AllFree(rs: seq<MemRegion>) { forall i :: 0 <= i < |rs| ==> rs[i].free != 0 }

  /** Free, non-touching regions are determined by the memory they cover. */
  lemma Canonical(rs: seq<MemRegion>, qs: seq<MemRegion>, i: nat) returns (j: nat)
    requires Good(rs) && Good(qs) && AllFree(rs) && AllFree(qs) && SameMemory(rs, qs) && i < |rs|
    ensures j < |qs| && qs[j] == rs[i]
  {
    var r := rs[i];
    assert RegionOk(r) && In(r, r.base);
    assert Covers(rs, r.base);
    assert Covers(qs, r.base);
    j :| 0 <= j < |qs| && In(qs[j], r.base);
    assert RegionOk(qs[j]);
    NoEarlier(rs, qs, i, j);
    NoLater(rs, qs, i, j);
    NoLater(qs, rs, j, i);
  }

  /** The managed memory has a gap on both sides of a region when all is free. */
  lemma Gaps(rs: seq<MemRegion>, i: nat)
    requires Good(rs) && AllFree(rs) && i < |rs|
    ensures !Covers(rs, End(rs[i])) && (rs[i].base > 0 ==> !Covers(rs, rs[i].base - 1))
  {
    assert RegionOk(rs[i]);
    forall k | 0 <= k < |rs| && k != i
      ensures !In(rs[k], End(rs[i])) && (rs[i].base > 0 ==> !In(rs[k], rs[i].base - 1))
    {
      AnyApart(rs, k, i);
      assert !Touch(rs[i], rs[k]) && !Touch(rs[k], rs[i]);
      assert RegionOk(rs[k]);
    }
  }

  lemma NoEarlier(rs: seq<MemRegion>, qs: seq<MemRegion>, i: nat, j: nat)
    requires Good(rs) && AllFree(rs) && SameMemory(rs, qs) && i < |rs| && j < |qs| && In(qs[j], rs[i].base)
    ensures qs[j].base == rs[i].base
  {
    Gaps(rs, i);
    assert rs[i].base > 0 ==> !Covers(qs, rs[i].base - 1);
    assert rs[i].base > 0 ==> !In(qs[j], rs[i].base - 1);
  }

  /** Region i of rs does not end before region j of qs with the same base. */
  lemma NoLater(rs: seq<MemRegion>, qs: seq<MemRegion>, i: nat, j: nat)
    requires Good(rs) && AllFree(rs) && SameMemory(rs, qs) && i < |rs| && j < |qs| && qs[j].base == rs[i].base
    ensures qs[j].size <= rs[i].size
  {
    Gaps(rs, i);
    assert RegionOk(rs[i]);
    assert !Covers(qs, End(rs[i]));
    assert !In(qs[j], End(rs[i]));
  }

  /** Once everything is released, the region set is the one from boot. */
  lemma {:induction false} ReleasingAllRestoresBoot(boot: seq<MemRegion>, ops: seq<Op>)
    requires Good(boot) && AllFree(boot) && RunLegal(boot, ops) && AllFree(Run(boot, ops))
    ensures forall r :: r in Run(boot, ops) <==> r in boot
  {
    RunGood(boot, ops);
    var rs := Run(boot, ops);
    forall r | r in rs ensures r in boot {
      var i :| 0 <= i < |rs| && rs[i] == r;
      var j := Canonical(rs, boot, i);
    }
    forall r | r in boot ensures r in rs {
      var i :| 0 <= i < |boot| && boot[i] == r;
      var j := Canonical(boot, rs, i);
    }
  }

  // ------------------------------------------------------------------------ bytes

  /** All bytes of the range are free. */
  ghost predicate FreeBytes(rs: seq<MemRegion>, b: nat, size: nat) { forall a :: b <= a < b + size ==> FreeAt(rs, a) }

  /** The bytes of the range, and no others, stop being free; there is none if no range of
      that size is free. */
  ghost predicate Taken(rs: seq<MemRegion>, addr: nat, qs: seq<MemRegion>, size: nat) {
    && (addr != 0 <==> exists b: nat :: FreeBytes(rs, b, size))
    && (addr != 0 ==> FreeBytes(rs, addr, size))
    && forall a: nat :: FreeAt(qs, a) <==> FreeAt(rs, a) && !(addr != 0 && addr <= a < addr + size)
  }

  lemma AllocBytes(rs: seq<MemRegion>, size: nat)
    requires Good(rs) && size > 0 && size % 4096 == 0
    ensures Taken(rs, Alloc(rs, size / PAGE_SIZE).0, Alloc(rs, size / PAGE_SIZE).1, size)
  {
    var n := size / PAGE_SIZE;
    AllocOk(rs, n);
    forall b: nat ensures FreeRun(rs, b, n) <==> FreeBytes(rs, b, size) { assert n * PAGE_SIZE == size; }
  }

  /** A used region starts at this address. */
  predicate UsedAt(rs: seq<MemRegion>, start: nat) {
    exists k :: 0 <= k < |rs| && rs[k].base == start && rs[k].free == 0
  }

  lemma {:induction false} UsedBytes(rs: seq<MemRegion>, start: nat, size: nat)
    requires Good(rs)
    requires forall k :: 0 <= k < |rs| && rs[k].base == start && rs[k].free == 0 ==> rs[k].size == size / PAGE_SIZE
    ensures var i := Used(rs, start, 0);
      && (UsedAt(rs, start) <==> i < |rs|)
      && (i < |rs| ==> forall a: nat :: In(rs[i], a) <==> start <= a < start + size / 4096 * 4096)
  {
  }

  // ---------------------------------------------------------------------- object

  class VmRegion {
    var region: seq<MemRegion>

    constructor (boot: seq<MemRegion>)
      ensures region == boot
    {
      region := boot;
    }

    /** `mem_vm_region_alloc` for a size in bytes. */
    method RegionAlloc(size: nat) returns (addr: nat)
      requires Good(region) && size > 0 && size % 4096 == 0
      modifies this
      ensures Good(region) && (addr, region) == Alloc(old(region), size / PAGE_SIZE)
      ensures Taken(old(region), addr, region, size)
    {
      var n := size / PAGE_SIZE;
      AllocOk(region, n);
      AllocBytes(region, size);
      for i := 0 to |region|
        invariant region == old(region) && Fit(region, n, 0) == Fit(region, n, i)
      {
        if region[i].free >= n {
          var r := region[i];
          assert RegionOk(r) && Fit(region, n, i) == i;
          if r.size > n {
            region := region + [MemRegion(r.base + size, r.size - n, r.size - n)];
            region := region[i := MemRegion(r.base, n, r.free)];
          }
          region := region[i := region[i].(free := 0)];
          assert region == Carve(old(region), i, n);
          return r.base;
        }
      }
      return 0;
    }

    /** `mem_vm_region_free`. */
    method RegionFree(start: nat, size: nat)
      requires Good(region)
      requires forall k :: 0 <= k < |region| && region[k].base == start && region[k].free == 0 ==>
        region[k].size == size / PAGE_SIZE
      modifies this
      ensures Good(region) && region == Free(old(region), start, size / PAGE_SIZE)
      ensures forall a: nat :: FreeAt(region, a) <==>
        FreeAt(old(region), a) || (UsedAt(old(region), start) && start <= a < start + size / 4096 * 4096)
    {
      var n := size / PAGE_SIZE;
      FreeOk(region, start, n);
      UsedBytes(region, start, size);
      var m: nat := 0;
      while m < |region| && !(region[m].base == start && region[m].free == 0)
        invariant m <= |region| && Used(region, start, 0) == Used(region, start, m)
      {
        m := m + 1;
      }
      if m == |region| { return; }
      assert RegionOk(region[m]);
      region := region[m := region[m].(free := region[m].free + n)];
      Merge(m);
    }

    method FindPartner(m: nat) returns (i: nat)
      requires m < |region|
      ensures i == Partner(region, m, 0)
    {
      i := 0;
      while i < |region| && !Before(region, m, i) && !Behind(region, m, i)
        invariant i <= |region| && Partner(region, m, 0) == Partner(region, m, i)
      {
        i := i + 1;
      }
    }

    method JoinRegions(x: nat, y: nat)
      requires x < |region| && y < |region| && x != y
      modifies this
      ensures region == Join(old(region), x, y)
    {
      var n := region[y].size;
      region := region[x := region[x].(size := region[x].size + n, free := region[x].free + n)];
      region := region[..y] + region[y + 1..];
    }

    /** The merge loop. */
    method Merge(at: nat)
      requires at < |region|
      modifies this
      ensures region == Coalesce(old(region), at)
    {
      var m: nat := at;
      var i := FindPartner(m);
      while i != |region| && i != m
        invariant m < |region| && i == Partner(region, m, 0) && Coalesce(region, m) == Coalesce(old(region), at)
        decreases |region|
      {
        CoalesceTurn(region, m);
        if Before(region, m, i) {
          JoinRegions(i, m);
          m := if i < m then i else i - 1;
        } else {
          JoinRegions(m, i);
          m := if m < i then m else m - 1;
        }
        i := FindPartner(m);
      }
    }
  }

  lemma {:induction false} CoalesceTurn(rs: seq<MemRegion>, m: nat)
    requires m < |rs| && Partner(rs, m, 0) != |rs| && Partner(rs, m, 0) != m
    ensures var i := Partner(rs, m, 0);
      && |Join(rs, i, m)| == |rs| - 1 && |Join(rs, m, i)| == |rs| - 1
      && Coalesce(rs, m) == if Before(rs, m, i) then Coalesce(Join(rs, i, m), Now(i, m))
        else Coalesce(Join(rs, m, i), Now(m, i))
  {
  }
}
