/** Whole runs of page-table calls, and the range operations as such runs:
    `map_range`, `map_range_2mb`, their unmapping counterparts, the choice
    between the two granularities, and `access_permission`. */
module Ranges {
  import opened Wrappers
  import opened Arith
  import opened Descriptors
  import opened PageTable
  import opened AddressSpace

  // ------------------------------------------------------------------------ runs

  function Run(pt: PT, ops: seq<Op>): PT {
    if ops == [] then pt else Apply(Run(pt, ops[..|ops| - 1]), ops[|ops| - 1])
  }

  predicate RunLegal(pt: PT, ops: seq<Op>) {
    ops == [] || (RunLegal(pt, ops[..|ops| - 1]) && Legal(Run(pt, ops[..|ops| - 1]), ops[|ops| - 1]))
  }

  /** What stayed hidden from the caller at each call. */
  function Hides(pt: PT, ops: seq<Op>): (hs: seq<Hidden>)
    ensures |hs| == |ops|
  {
    if ops == [] then [] else Hides(pt, ops[..|ops| - 1]) + [Hide(Run(pt, ops[..|ops| - 1]), ops[|ops| - 1])]
  }

  ghost function AbstractRun(m: map<nat, Leaf>, ops: seq<Op>, hs: seq<Hidden>): map<nat, Leaf>
    requires |ops| == |hs|
  {
    if ops == [] then m else
    Abstract(AbstractRun(m, ops[..|ops| - 1], hs[..|ops| - 1]), ops[|ops| - 1], hs[|ops| - 1])
  }

  ghost function RunOrphans(pt: PT, ops: seq<Op>): set<nat> {
    if ops == [] then {} else
    RunOrphans(pt, ops[..|ops| - 1]) + Orphans(Run(pt, ops[..|ops| - 1]), ops[|ops| - 1])
  }

  lemma {:induction false} RunSnoc(pt: PT, front: seq<Op>, op: Op)
    ensures var p := Run(pt, front);
      && Run(pt, front + [op]) == Apply(p, op)
      && Hides(pt, front + [op]) == Hides(pt, front) + [Hide(p, op)]
      && RunOrphans(pt, front + [op]) == RunOrphans(pt, front) + Orphans(p, op)
  {
    assert (front + [op])[..|front|] == front;
  }

  /** Any sequence of calls has on the translations the effect of the same
      sequence on a partial function; every reachable table keeps its one owner
      and its one path; frames are neither lost nor invented; and what is owned
      but unreachable is what `unmap_2mb` cut off, nothing else. */
  lemma {:induction false} RunRefines(pt: PT, slot: map<nat, Slot>, ops: seq<Op>) returns (slot': map<nat, Slot>)
    requires Good(pt, slot) && RunLegal(pt, ops)
    ensures Good(Run(pt, ops), slot') && Conserves(pt, Run(pt, ops))
    ensures Space(Run(pt, ops)) == AbstractRun(Space(pt), ops, Hides(pt, ops))
    ensures Leaked(Run(pt, ops), slot') == Leaked(pt, slot) + RunOrphans(pt, ops)
  {
    slot' := slot;
    if ops != [] {
      var front := ops[..|ops| - 1];
      var slot1 := RunRefines(pt, slot, front);
      assert Hides(pt, ops)[..|ops| - 1] == Hides(pt, front);
      slot' := CallRefines(Run(pt, front), slot1, ops[|ops| - 1]);
    }
  }

  /** A new guest's table: an empty directory owning nothing. */
  predicate Fresh(pt: PT) {
    && pt.pages == [] && pt.dir !in pt.free && pt.dir in pt.mem && pt.mem[pt.dir] == Zeros()
    && forall x, y :: 0 <= x < y < |pt.free| ==> pt.free[x] != pt.free[y]
  }

  lemma FreshGood(pt: PT)
    requires Fresh(pt)
    ensures Good(pt, map[]) && Space(pt) == map[] && Leaked(pt, map[]) == {}
  {
    assert forall i :: 0 <= i < ENTRIES ==> Entry(pt, pt.dir, i) == ZERO;
    SpaceIs(pt, map[]);
  }

  // --------------------------------------------------------------- 4 KB page runs

  lemma SameButBlocks(a: PT, b: PT, n: nat)
    requires n < BLOCKS && SameBut(a, b, n / 512, n % 512)
    ensures forall u :: 0 <= u < PAGES && u / 512 != n ==> InBlock(b, u) == InBlock(a, u)
  {
    forall u | 0 <= u < PAGES && u / 512 != n ensures InBlock(b, u) == InBlock(a, u) {
      assert SameBelow(a, b, u / 512 / 512, u / 512 % 512);
    }
  }

  /** 4 KB calls never create or split a block. */
  lemma PagesKeepBlocks(pt: PT, slot: map<nat, Slot>, op: Op)
    requires Good(pt, slot) && Legal(pt, op) && (op.MapP? || op.UnmapP?)
    ensures forall u :: 0 <= u < PAGES ==> InBlock(Apply(pt, op), u) == InBlock(pt, u)
  {
    var i, j, k := op.v / 512 / 512, op.v / 512 % 512, op.v % 512;
    if op.MapP? {
      var _ := MapPageOk(pt, slot, i, j, k, op.pa, op.attrs);
    } else {
      var _ := UnmapPageOk(pt, slot, i, j, k);
    }
    SameButBlocks(pt, Apply(pt, op), op.v / 512);
  }

  function MapOps(v: nat, n: nat, pa: nat, attrs: nat): (ops: seq<Op>)
    ensures |ops| == n
  {
    if n == 0 then [] else MapOps(v, n - 1, pa, attrs) + [MapP(v + n - 1, pa + (n - 1) * PAGE_SIZE, attrs)]
  }

  function UnmapOps(v: nat, n: nat): (ops: seq<Op>)
    ensures |ops| == n
  {
    if n == 0 then [] else UnmapOps(v, n - 1) + [UnmapP(v + n - 1)]
  }

  predicate Free(pt: PT, v: nat, n: nat) {
    forall u :: v <= u < v + n ==> View(pt, u) == None
  }

  ghost predicate NoBlocks(pt: PT, v: nat, n: nat) {
    forall u :: v <= u < v + n ==> !InBlock(pt, u)
  }

  lemma FreeHasNoBlocks(pt: PT, v: nat, n: nat)
    requires Free(pt, v, n)
    ensures NoBlocks(pt, v, n)
  {
    forall u | v <= u < v + n ensures !InBlock(pt, u) {
      assert View(pt, u) == None;
    }
  }

  /** q maps the range page by page where the tables could be had, and agrees
      with pt elsewhere. */
  ghost predicate RangeMapped(pt: PT, q: PT, v: nat, n: nat, pa: nat, attrs: nat, hs: seq<Hidden>) {
    && |hs| == n
    && forall u :: 0 <= u < PAGES ==>
      View(q, u) == if v <= u < v + n
                    then (if hs[u - v].frames then Some(Leaf(pa + (u - v) * PAGE_SIZE, attrs)) else None)
                    else View(pt, u)
  }

  lemma ExtendRange(pt: PT, p: PT, q: PT, v: nat, n: nat, pa: nat, attrs: nat, hs: seq<Hidden>, h: Hidden)
    requires v + n < PAGES && Free(pt, v, n + 1) && RangeMapped(pt, p, v, n, pa, attrs, hs)
    requires forall u :: 0 <= u < PAGES ==>
      View(q, u) == if u == v + n && View(p, u) == None && h.frames then Some(Leaf(pa + n * PAGE_SIZE, attrs))
        else View(p, u)
    ensures RangeMapped(pt, q, v, n + 1, pa, attrs, hs + [h])
  {
    assert View(pt, v + n) == None;
  }

  /** One `map`, in terms of views. */
  lemma MapPView(pt: PT, slot: map<nat, Slot>, op: Op) returns (slot': map<nat, Slot>)
    requires Good(pt, slot) && Legal(pt, op) && op.MapP?
    ensures var q := Apply(pt, op);
      && Good(q, slot') && Conserves(pt, q) && Leaked(q, slot') == Leaked(pt, slot)
      && (forall u :: 0 <= u < PAGES ==> InBlock(q, u) == InBlock(pt, u))
      && (forall u :: 0 <= u < PAGES ==>
            View(q, u) == if u == op.v && View(pt, u) == None && Hide(pt, op).frames
                          then Some(Leaf(op.pa, op.attrs)) else View(pt, u))
  {
    var i, j, k := op.v / 512 / 512, op.v / 512 % 512, op.v % 512;
    PagesKeepBlocks(pt, slot, op);
    assert (forall u :: 0 <= u < PAGES ==>
      View(Apply(pt, op), u) == if u == op.v && View(pt, u) == None && Hide(pt, op).frames
                                then Some(Leaf(op.pa, op.attrs)) else View(pt, u)) by {
      var _ := MapPageOk(pt, slot, i, j, k, op.pa, op.attrs);
      PageSetView(pt, Apply(pt, op), op.v,
        if Walk(pt, i, j, k) == None && Granted(pt, i, j) then Some(Leaf(op.pa, op.attrs)) else Walk(pt, i, j, k));
    }
    slot' := MapPRefines(pt, slot, op);
  }

  /** `map_range` over a free range maps exactly the pages whose tables the heap
      could supply, each to its own frame, and nothing else. */
  lemma {:induction false} MapRangeView(pt: PT, slot: map<nat, Slot>, v: nat, n: nat, pa: nat, attrs: nat)
      returns (slot': map<nat, Slot>)
    requires Good(pt, slot) && v + n <= PAGES && Free(pt, v, n)
    ensures var ops := MapOps(v, n, pa, attrs); var q := Run(pt, ops);
      && Good(q, slot') && Conserves(pt, q) && Leaked(q, slot') == Leaked(pt, slot)
      && (forall u :: 0 <= u < PAGES ==> InBlock(q, u) == InBlock(pt, u))
      && RangeMapped(pt, q, v, n, pa, attrs, Hides(pt, ops))
  {
    slot' := slot;
    if n > 0 {
      var ops, front := MapOps(v, n, pa, attrs), MapOps(v, n - 1, pa, attrs);
      assert ops[..n - 1] == front;
      var op := ops[n - 1];
      assert Free(pt, v, n - 1);
      var slot1 := MapRangeView(pt, slot, v, n - 1, pa, attrs);
      var p := Run(pt, front);
      FreeHasNoBlocks(pt, v, n);
      assert !InBlock(pt, op.v);
      slot' := MapPView(p, slot1, op);
      ExtendRange(pt, p, Apply(p, op), v, n - 1, pa, attrs, Hides(pt, front), Hide(p, op));
    }
  }

  /** `map_range` outside blocks never makes one. */
  lemma {:induction false} MapRangeBlocks(pt: PT, slot: map<nat, Slot>, v: nat, n: nat, pa: nat, attrs: nat)
      returns (slot': map<nat, Slot>)
    requires Good(pt, slot) && v + n <= PAGES && NoBlocks(pt, v, n)
    ensures Good(Run(pt, MapOps(v, n, pa, attrs)), slot')
    ensures forall u :: 0 <= u < PAGES ==> InBlock(Run(pt, MapOps(v, n, pa, attrs)), u) == InBlock(pt, u)
  {
    slot' := slot;
    if n > 0 {
      var front, op := MapOps(v, n - 1, pa, attrs), MapP(v + n - 1, pa + (n - 1) * PAGE_SIZE, attrs);
      assert Run(pt, MapOps(v, n, pa, attrs)) == Apply(Run(pt, front), op) by { RunSnoc(pt, front, op); }
      var slot1 := MapRangeBlocks(pt, slot, v, n - 1, pa, attrs);
      assert !InBlock(pt, op.v);
      slot' := MapPView(Run(pt, front), slot1, op);
    }
  }

  /** `unmap_range` removes exactly the pages of its range. */
  lemma {:induction false} UnmapRangeView(pt: PT, slot: map<nat, Slot>, v: nat, n: nat) returns (slot': map<nat, Slot>)
    requires Good(pt, slot) && v + n <= PAGES && NoBlocks(pt, v, n)
    ensures var q := Run(pt, UnmapOps(v, n));
      && Good(q, slot') && Conserves(pt, q) && Leaked(q, slot') == Leaked(pt, slot)
      && (forall u :: 0 <= u < PAGES ==> InBlock(q, u) == InBlock(pt, u))
      && (forall u :: 0 <= u < PAGES ==> View(q, u) == if v <= u < v + n then None else View(pt, u))
  {
    slot' := slot;
    if n > 0 {
      var ops, front := UnmapOps(v, n), UnmapOps(v, n - 1);
      assert ops[..n - 1] == front;
      var slot1 := UnmapRangeView(pt, slot, v, n - 1);
      var p := Run(pt, front);
      var u := v + n - 1;
      assert ops[n - 1] == UnmapP(u);
      assert !InBlock(pt, u);
      PagesKeepBlocks(p, slot1, ops[n - 1]);
      slot' := UnmapPRefines(p, slot1, ops[n - 1]);
      var _ := UnmapPageOk(p, slot1, u / 512 / 512, u / 512 % 512, u % 512);
      PageSetView(p, Run(pt, ops), u, None);
    }
  }

  // --------------------------------------------------------------- 2 MB block runs

  const BLOCK_SIZE := 0x20_0000

  function MapBlockOps(b: nat, n: nat, pa: nat, attrs: nat): (ops: seq<Op>)
    ensures |ops| == n && forall k :: 0 <= k < n ==> ops[k].MapB? && ops[k].b == b + k
  {
    if n == 0 then [] else MapBlockOps(b, n - 1, pa, attrs) + [MapB(b + n - 1, pa + (n - 1) * BLOCK_SIZE, attrs)]
  }

  function UnmapBlockOps(b: nat, n: nat): (ops: seq<Op>)
    ensures |ops| == n && forall k :: 0 <= k < n ==> ops[k].UnmapB? && ops[k].b == b + k
  {
    if n == 0 then [] else UnmapBlockOps(b, n - 1) + [UnmapB(b + n - 1)]
  }

  /** Page u of m' when m' is m with the blocks of the range that found their tables. */
  ghost predicate BlockPage(m: map<nat, Leaf>, m': map<nat, Leaf>, b: nat, n: nat, pa: nat, attrs: nat,
      hs: seq<Hidden>, u: nat)
    requires |hs| == n
  {
    if b <= u / 512 < b + n then
      (u in m' <==> hs[u / 512 - b].frames) && (u in m' ==> m'[u] == Leaf(pa + (u - 512 * b) * PAGE_SIZE, attrs))
    else
      (u in m' <==> u in m) && (u in m ==> m'[u] == m[u])
  }

  ghost predicate BlocksMapped(m: map<nat, Leaf>, m': map<nat, Leaf>, b: nat, n: nat, pa: nat, attrs: nat,
      hs: seq<Hidden>)
    requires |hs| == n
  {
    forall u: nat :: BlockPage(m, m', b, n, pa, attrs, hs, u)
  }

  predicate NoneIn(m: map<nat, Leaf>, v: nat, n: nat) {
    forall u :: v <= u < v + n ==> u !in m
  }

  /** A `map_2mb` on a free block of a partial function. */
  lemma AbstractMapB(m: map<nat, Leaf>, b: nat, pa: nat, attrs: nat, h: Hidden)
    requires forall u :: u in m ==> u / 512 != b
    ensures var m' := Abstract(m, MapB(b, pa, attrs), h);
      && (forall u :: u in m' <==> u in m || (u / 512 == b && h.frames))
      && (forall u :: u in m' ==> m'[u] == if u / 512 == b then Leaf(pa + u % 512 * PAGE_SIZE, attrs) else m[u])
  {
    assert forall u: nat :: u / 512 == b <==> 512 * b <= u < 512 * b + 512 && Within(b, u);
  }

  lemma NextBlock(m: map<nat, Leaf>, m1: map<nat, Leaf>, b: nat, n: nat, pa: nat, attrs: nat, hs: seq<Hidden>)
    requires n > 0 && |hs| == n && NoneIn(m, 512 * b, 512 * n) && BlocksMapped(m, m1, b, n - 1, pa, attrs, hs[..n - 1])
    ensures BlocksMapped(m, Abstract(m1, MapB(b + n - 1, pa + (n - 1) * BLOCK_SIZE, attrs), hs[n - 1]), b, n, pa,
      attrs, hs)
  {
    var m2 := Abstract(m1, MapB(b + n - 1, pa + (n - 1) * BLOCK_SIZE, attrs), hs[n - 1]);
    forall u | u in m1 ensures u / 512 != b + n - 1 {
      assert BlockPage(m, m1, b, n - 1, pa, attrs, hs[..n - 1], u);
      assert u / 512 == b + n - 1 ==> 512 * b <= u < 512 * b + 512 * n;
    }
    AbstractMapB(m1, b + n - 1, pa + (n - 1) * BLOCK_SIZE, attrs, hs[n - 1]);
    forall u: nat ensures BlockPage(m, m2, b, n, pa, attrs, hs, u) {
      assert BlockPage(m, m1, b, n - 1, pa, attrs, hs[..n - 1], u);
    }
  }

  lemma {:induction false} AbstractMapBlocks(m: map<nat, Leaf>, b: nat, n: nat, pa: nat, attrs: nat, hs: seq<Hidden>)
    requires |hs| == n && NoneIn(m, 512 * b, 512 * n)
    ensures BlocksMapped(m, AbstractRun(m, MapBlockOps(b, n, pa, attrs), hs), b, n, pa, attrs, hs)
  {
    if n > 0 {
      var ops, front := MapBlockOps(b, n, pa, attrs), MapBlockOps(b, n - 1, pa, attrs);
      assert ops[..n - 1] == front;
      AbstractMapBlocks(m, b, n - 1, pa, attrs, hs[..n - 1]);
      var m1 := AbstractRun(m, front, hs[..n - 1]);
      assert AbstractRun(m, ops, hs) == Abstract(m1, MapB(b + n - 1, pa + (n - 1) * BLOCK_SIZE, attrs), hs[n - 1]);
      NextBlock(m, m1, b, n, pa, attrs, hs);
    }
  }

  lemma {:induction false} AbstractUnmapBlocks(m: map<nat, Leaf>, b: nat, n: nat, hs: seq<Hidden>)
    requires |hs| == n
    ensures AbstractRun(m, UnmapBlockOps(b, n), hs) == map u | u in m && !(b <= u / 512 < b + n) :: m[u]
  {
    if n > 0 {
      assert UnmapBlockOps(b, n)[..n - 1] == UnmapBlockOps(b, n - 1);
      AbstractUnmapBlocks(m, b, n - 1, hs[..n - 1]);
    }
  }

  lemma {:induction false} BlockOpsLegal(pt: PT, ops: seq<Op>)
    requires forall k :: 0 <= k < |ops| ==> (ops[k].MapB? || ops[k].UnmapB?) && ops[k].b < BLOCKS
    ensures RunLegal(pt, ops)
  {
    if ops != [] { BlockOpsLegal(pt, ops[..|ops| - 1]); }
  }

  // ---------------------------------------------- the two granularities compared

  /** Every call of the run found the table frames it needed. */
  ghost predicate AllFrames(pt: PT, ops: seq<Op>) {
    forall k :: 0 <= k < |ops| ==> Hides(pt, ops)[k].frames
  }

  lemma SpaceView(pt: PT)
    ensures forall u :: 0 <= u < PAGES ==> View(pt, u) == if u in Space(pt) then Some(Space(pt)[u]) else None
    ensures forall u :: u in Space(pt) ==> u < PAGES
  {
  }

  lemma MapBlocksSpace(pt: PT, slot: map<nat, Slot>, b: nat, n: nat, pa: nat, attrs: nat)
      returns (slot': map<nat, Slot>)
    requires Good(pt, slot) && b + n <= BLOCKS && Free(pt, 512 * b, 512 * n)
    ensures var ops := MapBlockOps(b, n, pa, attrs); var q := Run(pt, ops);
      && Good(q, slot') && BlocksMapped(Space(pt), Space(q), b, n, pa, attrs, Hides(pt, ops))
  {
    var ops := MapBlockOps(b, n, pa, attrs);
    BlockOpsLegal(pt, ops);
    slot' := RunRefines(pt, slot, ops);
    AbstractMapBlocks(Space(pt), b, n, pa, attrs, Hides(pt, ops));
  }

  /** The 2 MB fast path translates every page of a free aligned range, and gives
      it the attributes, that the 4 KB loop would. */
  lemma {:induction false} BlockPathRefinesPagePath(pt: PT, slot: map<nat, Slot>, b: nat, n: nat, pa: nat, attrs: nat)
    requires Good(pt, slot) && b + n <= BLOCKS && Free(pt, 512 * b, 512 * n)
    requires AllFrames(pt, MapBlockOps(b, n, pa, attrs)) && AllFrames(pt, MapOps(512 * b, 512 * n, pa, attrs))
    ensures Space(Run(pt, MapBlockOps(b, n, pa, attrs))) == Space(Run(pt, MapOps(512 * b, 512 * n, pa, attrs)))
  {
    var fast, slow := Run(pt, MapBlockOps(b, n, pa, attrs)), Run(pt, MapOps(512 * b, 512 * n, pa, attrs));
    var hs := Hides(pt, MapBlockOps(b, n, pa, attrs));
    var _ := MapBlocksSpace(pt, slot, b, n, pa, attrs);
    var _ := MapRangeView(pt, slot, 512 * b, 512 * n, pa, attrs);
    PagesAsBlocks(pt, slow, Space(fast), b, n, pa, attrs, hs, Hides(pt, MapOps(512 * b, 512 * n, pa, attrs)));
  }

  lemma PagesAsBlocks(pt: PT, slow: PT, fast: map<nat, Leaf>, b: nat, n: nat, pa: nat, attrs: nat, hs: seq<Hidden>,
      hs': seq<Hidden>)
    requires |hs| == n && (forall k :: 0 <= k < n ==> hs[k].frames)
      && BlocksMapped(Space(pt), fast, b, n, pa, attrs, hs)
    requires b + n <= BLOCKS && RangeMapped(pt, slow, 512 * b, 512 * n, pa, attrs, hs')
      && (forall k :: 0 <= k < |hs'| ==> hs'[k].frames)
    ensures fast == Space(slow)
  {
    forall u: nat ensures u in fast <==> u in Space(slow) {
      assert BlockPage(Space(pt), fast, b, n, pa, attrs, hs, u);
    }
    forall u | u in fast ensures fast[u] == Space(slow)[u] {
      assert BlockPage(Space(pt), fast, b, n, pa, attrs, hs, u);
    }
  }

  /** `pt_map_range`. */
  function MapRangeOps(ipa: nat, len: nat, pa: nat, attrs: nat, block: bool): seq<Op> {
    if ipa % BLOCK_SIZE == 0 && len % BLOCK_SIZE == 0 && pa % BLOCK_SIZE == 0 && block
    then MapBlockOps(ipa / BLOCK_SIZE, RoundUp(len, BLOCK_SIZE) / BLOCK_SIZE, pa, attrs)
    else MapOps(ipa / PAGE_SIZE, RoundUp(len, PAGE_SIZE) / PAGE_SIZE, pa, attrs)
  }

  /** `pt_unmap_range`: it does not know the physical address. */
  function UnmapRangeOps(ipa: nat, len: nat, block: bool): seq<Op> {
    if ipa % BLOCK_SIZE == 0 && len % BLOCK_SIZE == 0 && block
    then UnmapBlockOps(ipa / BLOCK_SIZE, RoundUp(len, BLOCK_SIZE) / BLOCK_SIZE)
    else UnmapOps(ipa / PAGE_SIZE, RoundUp(len, PAGE_SIZE) / PAGE_SIZE)
  }

  function FirstPage(ipa: nat): nat { ipa / PAGE_SIZE }
  function PageCount(len: nat): nat { RoundUp(len, PAGE_SIZE) / PAGE_SIZE }

  lemma AlignedRange(ipa: nat, len: nat)
    requires ipa % BLOCK_SIZE == 0 && len % BLOCK_SIZE == 0
    ensures 512 * (ipa / BLOCK_SIZE) == FirstPage(ipa)
    ensures 512 * (RoundUp(len, BLOCK_SIZE) / BLOCK_SIZE) == PageCount(len)
  {
    RoundUpUnits(len, BLOCK_SIZE);
    RoundUpUnits(len, PAGE_SIZE);
    AlignedUnits(ipa, len);
  }

  lemma AlignedUnits(ipa: nat, len: nat)
    requires ipa % 0x20_0000 == 0 && len % 0x20_0000 == 0
    ensures 512 * (ipa / 0x20_0000) == ipa / 4096
    ensures 512 * ((len + 0x1f_ffff) / 0x20_0000) == (len + 4095) / 4096
  {
  }

  /** Only the pages of the range can change. */
  ghost predicate SameOutside(pt: PT, q: PT, v: nat, n: nat) {
    forall u :: 0 <= u < PAGES && !(v <= u < v + n) ==> View(q, u) == View(pt, u)
  }

  lemma MapRangeFrame(pt: PT, slot: map<nat, Slot>, ipa: nat, len: nat, pa: nat, attrs: nat, block: bool)
      returns (slot': map<nat, Slot>)
    requires Good(pt, slot) && FirstPage(ipa) + PageCount(len) <= PAGES && Free(pt, FirstPage(ipa), PageCount(len))
    ensures var q := Run(pt, MapRangeOps(ipa, len, pa, attrs, block));
      && Good(q, slot') && SameOutside(pt, q, FirstPage(ipa), PageCount(len))
      && (!(ipa % BLOCK_SIZE == 0 && len % BLOCK_SIZE == 0 && block) ==> NoBlocks(q, FirstPage(ipa), PageCount(len)))
  {
    if ipa % BLOCK_SIZE == 0 && len % BLOCK_SIZE == 0 && pa % BLOCK_SIZE == 0 && block {
      AlignedRange(ipa, len);
      var b, n := ipa / BLOCK_SIZE, RoundUp(len, BLOCK_SIZE) / BLOCK_SIZE;
      slot' := MapBlocksSpace(pt, slot, b, n, pa, attrs);
      BlocksOutside(pt, Run(pt, MapBlockOps(b, n, pa, attrs)), b, n, pa, attrs,
        Hides(pt, MapBlockOps(b, n, pa, attrs)));
    } else {
      slot' := MapRangeView(pt, slot, FirstPage(ipa), PageCount(len), pa, attrs);
      FreeHasNoBlocks(pt, FirstPage(ipa), PageCount(len));
    }
  }

  lemma BlocksOutside(pt: PT, q: PT, b: nat, n: nat, pa: nat, attrs: nat, hs: seq<Hidden>)
    requires |hs| == n && BlocksMapped(Space(pt), Space(q), b, n, pa, attrs, hs)
    ensures SameOutside(pt, q, 512 * b, 512 * n)
  {
    SpaceView(pt);
    SpaceView(q);
    forall u | 0 <= u < PAGES && !(512 * b <= u < 512 * b + 512 * n) ensures View(q, u) == View(pt, u) {
      assert BlockPage(Space(pt), Space(q), b, n, pa, attrs, hs, u);
    }
  }

  /** Mapping a free range and unmapping it with the same address, length and flag
      restores every translation, also when a misaligned physical address forced
      4 KB pages that are then removed block-wise. */
  lemma {:induction false} MapThenUnmap(pt: PT, slot: map<nat, Slot>, ipa: nat, len: nat, pa: nat, attrs: nat,
      block: bool)
    requires Good(pt, slot) && FirstPage(ipa) + PageCount(len) <= PAGES && Free(pt, FirstPage(ipa), PageCount(len))
    ensures Space(Run(Run(pt, MapRangeOps(ipa, len, pa, attrs, block)), UnmapRangeOps(ipa, len, block))) == Space(pt)
  {
    var slot1 := MapRangeFrame(pt, slot, ipa, len, pa, attrs, block);
    var q := Run(pt, MapRangeOps(ipa, len, pa, attrs, block));
    var r := Run(q, UnmapRangeOps(ipa, len, block));
    if ipa % BLOCK_SIZE == 0 && len % BLOCK_SIZE == 0 && block {
      AlignedRange(ipa, len);
      var b, n := ipa / BLOCK_SIZE, RoundUp(len, BLOCK_SIZE) / BLOCK_SIZE;
      var _ := UnmapBlocksSpace(q, slot1, b, n);
      GoneInRange(q, r, b, n);
    } else {
      var _ := UnmapRangeView(q, slot1, FirstPage(ipa), PageCount(len));
    }
    Restored(pt, q, r, FirstPage(ipa), PageCount(len));
  }

  lemma UnmapBlocksSpace(pt: PT, slot: map<nat, Slot>, b: nat, n: nat) returns (slot': map<nat, Slot>)
    requires Good(pt, slot) && b + n <= BLOCKS
    ensures var q := Run(pt, UnmapBlockOps(b, n));
      && Good(q, slot') && Space(q) == (map u | u in Space(pt) && !(b <= u / 512 < b + n) :: Space(pt)[u])
      && Leaked(q, slot') == Leaked(pt, slot) + RunOrphans(pt, UnmapBlockOps(b, n))
  {
    BlockOpsLegal(pt, UnmapBlockOps(b, n));
    slot' := RunRefines(pt, slot, UnmapBlockOps(b, n));
    AbstractUnmapBlocks(Space(pt), b, n, Hides(pt, UnmapBlockOps(b, n)));
  }

  lemma GoneInRange(q: PT, r: PT, b: nat, n: nat)
    requires b + n <= BLOCKS && Space(r) == map u | u in Space(q) && !(b <= u / 512 < b + n) :: Space(q)[u]
    ensures forall u :: 0 <= u < PAGES ==> View(r, u) == if 512 * b <= u < 512 * b + 512 * n then None else View(q, u)
  {
    SpaceView(q);
    SpaceView(r);
  }

  lemma Restored(pt: PT, q: PT, r: PT, v: nat, n: nat)
    requires v + n <= PAGES && Free(pt, v, n) && SameOutside(pt, q, v, n)
    requires forall u :: 0 <= u < PAGES ==> View(r, u) == if v <= u < v + n then None else View(q, u)
    ensures Space(r) == Space(pt)
  {
    SpaceView(pt);
    SpaceIs(r, Space(pt));
  }

  // ---------------------------------------------------------------- enough frames

  /** 2n free frames cover any n calls of `map`. */
  lemma {:induction false} FramesSuffice(pt: PT, v: nat, n: nat, pa: nat, attrs: nat)
    requires |pt.free| >= 2 * n
    ensures AllFrames(pt, MapOps(v, n, pa, attrs))
    ensures |Run(pt, MapOps(v, n, pa, attrs)).free| + 2 * n >= |pt.free|
  {
    if n > 0 {
      FramesSuffice(pt, v, n - 1, pa, attrs);
      OneMoreFrame(pt, MapOps(v, n - 1, pa, attrs), MapP(v + n - 1, pa + (n - 1) * PAGE_SIZE, attrs), n);
    }
  }

  lemma {:induction false} OneMoreFrame(pt: PT, ops: seq<Op>, op: Op, n: nat)
    requires op.MapP? && AllFrames(pt, ops) && n > 0 && |Run(pt, ops).free| + 2 * (n - 1) >= |pt.free| >= 2 * n
    ensures AllFrames(pt, ops + [op]) && |Run(pt, ops + [op]).free| + 2 * n >= |pt.free|
  {
    assert (ops + [op])[..|ops|] == ops;
    MapPCost(Run(pt, ops), op);
  }

  /** A `map` takes at most two frames, and needs no more. */
  lemma MapPCost(pt: PT, op: Op)
    requires op.MapP?
    ensures |Apply(pt, op).free| + 2 >= |pt.free|
    ensures |pt.free| >= 2 ==> Hide(pt, op).frames
  {
    var i, j := op.v / 512 / 512, op.v / 512 % 512;
    var a := EnsureL2(pt, i);
    assert |a.free| + 1 >= |pt.free|;
    var b := EnsurePath(pt, i, j);
    assert |b.free| + 1 >= |a.free|;
  }
}
