/** Which frames a stage-2 table owns over whole runs: what it gives back, when
    `pages` is exactly the set of reachable tables, and what mapping and unmapping
    a range leaves behind. */
module FrameOwnership {
  import opened Wrappers
  import opened Arith
  import opened Descriptors
  import opened PageTable
  import opened AddressSpace
  import opened Ranges

  // ------------------------------------------------------------------ giving back

  lemma SetPageApTidy(pt: PT, slot: map<nat, Slot>, i: nat, j: nat, k: nat, ap: nat)
    requires Inv(pt, slot) && i < ENTRIES && j < ENTRIES && k < ENTRIES
    ensures Tidy(pt, SetPageAp(pt, i, j, k, ap))
  {
    var l1 := Entry(pt, pt.dir, i);
    if l1.Valid() && Entry(pt, l1.pa, j).Valid() {
      var l2 := Entry(pt, l1.pa, j);
      assert L1Ok(pt, slot, i, l1);
      assert L2Ok(pt, slot, i, j, l2);
      TidyPut(pt, l1.pa, j, l2.(attrs := WithAp(l2.attrs, ap)));
      if l2.kind == TABLE {
        var l3 := Entry(pt, l2.pa, k);
        TidyPut(pt, l2.pa, k, l3.(attrs := WithAp(l3.attrs, ap)));
      }
    }
  }

  lemma CallTidy(pt: PT, slot: map<nat, Slot>, op: Op)
    requires Good(pt, slot) && Legal(pt, op)
    ensures Tidy(pt, Apply(pt, op))
  {
    match op
    case MapP(v, pa, attrs) => MapPageTidy(pt, slot, v / 512 / 512, v / 512 % 512, v % 512, pa, attrs);
    case UnmapP(v) => UnmapPageTidy(pt, slot, v / 512 / 512, v / 512 % 512, v % 512);
    case MapB(b, pa, attrs) => MapBlockTidy(pt, slot, b / 512, b % 512, pa, attrs);
    case UnmapB(b) => UnmapBlockTidy(pt, slot, b / 512, b % 512);
    case SetAp(v, ap) => SetPageApTidy(pt, slot, v / 512 / 512, v / 512 % 512, v % 512, ap);
  }

  lemma {:induction false} RunTidy(pt: PT, slot: map<nat, Slot>, ops: seq<Op>)
    requires Good(pt, slot) && RunLegal(pt, ops)
    ensures Tidy(pt, Run(pt, ops))
  {
    if ops != [] {
      var front := ops[..|ops| - 1];
      RunTidy(pt, slot, front);
      var slot1 := RunRefines(pt, slot, front);
      CallTidy(Run(pt, front), slot1, ops[|ops| - 1]);
      TidyTrans(pt, Run(pt, front), Run(pt, ops));
    }
  }

  /** Over any run, a table that has left `pages` is all zero and nothing points to
      it. */
  lemma {:induction false} RunReleases(pt: PT, slot: map<nat, Slot>, ops: seq<Op>)
    requires Good(pt, slot) && RunLegal(pt, ops)
    ensures Released(pt, Run(pt, ops))
  {
    RunTidy(pt, slot, ops);
    var slot' := RunRefines(pt, slot, ops);
    TidyReleases(pt, Run(pt, ops), slot');
  }

  // ------------------------------------------------- `pages` and reachable tables

  predicate TableAt(pt: PT, b: nat) { HasTable(pt, b / 512, b % 512) }

  /** Some call of the run is an `unmap_2mb` that meets a table. */
  predicate CutsTable(pt: PT, ops: seq<Op>) {
    && ops != []
    && var front, op := ops[..|ops| - 1], ops[|ops| - 1];
       CutsTable(pt, front) || (op.UnmapB? && TableAt(Run(pt, front), op.b))
  }

  /** What a run cuts off is reachable until then, so it is none of the frames that
      were unreachable before. */
  lemma {:induction false} OrphansAreNew(pt: PT, slot: map<nat, Slot>, ops: seq<Op>)
    requires Good(pt, slot) && RunLegal(pt, ops)
    ensures RunOrphans(pt, ops) !! Leaked(pt, slot)
    ensures RunOrphans(pt, ops) == {} <==> !CutsTable(pt, ops)
  {
    if ops != [] {
      var front, op := ops[..|ops| - 1], ops[|ops| - 1];
      OrphansAreNew(pt, slot, front);
      var slot1 := RunRefines(pt, slot, front);
      OrphanReachable(Run(pt, front), slot1, op);
    }
  }

  lemma OrphanReachable(pt: PT, slot: map<nat, Slot>, op: Op)
    requires Good(pt, slot) && Legal(pt, op)
    ensures Orphans(pt, op) !! Leaked(pt, slot)
    ensures Orphans(pt, op) == {} <==> !(op.UnmapB? && TableAt(pt, op.b))
  {
    if op.UnmapB? && TableAt(pt, op.b) {
      var i, j := op.b / 512, op.b % 512;
      assert L1Ok(pt, slot, i, Entry(pt, pt.dir, i));
      assert L2Ok(pt, slot, i, j, Entry(pt, Entry(pt, pt.dir, i).pa, j));
    }
  }

  /** The table owns the reachable tables and nothing else. */
  ghost predicate OwnsExactly(pt: PT) {
    forall f {:trigger Reachable(pt, f)} :: f in pt.pages <==> Reachable(pt, f)
  }

  lemma OwnsExactlyIff(pt: PT, slot: map<nat, Slot>)
    requires Inv(pt, slot)
    ensures OwnsExactly(pt) <==> Leaked(pt, slot) == {}
  {
    if Leaked(pt, slot) == {} {
      forall f ensures f in pt.pages <==> Reachable(pt, f) {
        SlotsAreReachable(pt, slot, f);
        assert f in pt.pages && f !in slot ==> f in Leaked(pt, slot);
      }
    } else {
      var f :| f in Leaked(pt, slot);
      SlotsAreReachable(pt, slot, f);
      assert f in pt.pages && !Reachable(pt, f);
    }
  }

  /** From a table that owns exactly its reachable tables, a run leaves it owning
      exactly them if and only if no `unmap_2mb` in it meets 2 MB that are mapped
      page by page. */
  lemma {:induction false} PagesExactIff(pt: PT, slot: map<nat, Slot>, ops: seq<Op>)
    requires Good(pt, slot) && OwnsExactly(pt) && RunLegal(pt, ops)
    ensures OwnsExactly(Run(pt, ops)) <==> !CutsTable(pt, ops)
  {
    OwnsExactlyIff(pt, slot);
    OrphansAreNew(pt, slot, ops);
    var slot' := RunRefines(pt, slot, ops);
    OwnsExactlyIff(Run(pt, ops), slot');
  }

  /** In particular over every run of a new guest's table. */
  lemma {:induction false} FreshPagesExactIff(pt: PT, ops: seq<Op>)
    requires Fresh(pt) && RunLegal(pt, ops)
    ensures OwnsExactly(Run(pt, ops)) <==> !CutsTable(pt, ops)
  {
    FreshGood(pt);
    OwnsExactlyIff(pt, map[]);
    PagesExactIff(pt, map[], ops);
  }

  // ------------------------------------------------ what a mapped range leaves

  lemma NothingWithin(pt: PT, b: nat, n: nat, c: nat)
    requires b <= c < b + n && Free(pt, 512 * b, 512 * n)
    ensures forall v :: v in Space(pt) ==> !Within(c, v)
  {
    forall v: nat | Within(c, v) ensures v !in Space(pt) { assert 512 * b <= v < 512 * b + 512 * n; }
  }

  /** A free block has no level-2 entry. */
  lemma FreeHasNoTable(pt: PT, b: nat, n: nat, c: nat)
    requires NoHollow(pt) && b <= c < b + n <= BLOCKS && Free(pt, 512 * b, 512 * n)
    ensures !TableAt(pt, c) && !HasBlock(pt, c / 512, c % 512)
  {
    NothingWithin(pt, b, n, c);
    if TableAt(pt, c) || HasBlock(pt, c / 512, c % 512) { BlockOccupied(pt, c); }
  }

  ghost predicate NoTables(pt: PT, b: nat, n: nat) {
    forall c {:trigger TableAt(pt, c)} :: b <= c < b + n ==> !TableAt(pt, c)
  }

  lemma OtherBlock(a: PT, b: PT, c: nat, d: nat)
    requires c < BLOCKS && d < BLOCKS && c != d && SameBut(a, b, c / 512, c % 512)
    ensures TableAt(b, d) == TableAt(a, d)
  {
    assert SameBelow(a, b, d / 512, d % 512);
  }

  /** `map_2mb` makes no level-3 table. */
  lemma MapBlockTables(pt: PT, slot: map<nat, Slot>, c: nat, pa: nat, attrs: nat, d: nat)
    requires Inv(pt, slot) && c < BLOCKS && d < BLOCKS
    ensures TableAt(Apply(pt, MapB(c, pa, attrs)), d) ==> TableAt(pt, d)
  {
    var q := Apply(pt, MapB(c, pa, attrs));
    var _ := MapBlockOk(pt, slot, c / 512, c % 512, pa, attrs);
    if BlockGranted(pt, c / 512, c % 512) {
      if c != d { OtherBlock(pt, q, c, d); }
    } else {
      assert SameBelow(pt, q, d / 512, d % 512);
    }
  }

  /** Block calls on a good table leave a good table. */
  lemma BlockRunGood(pt: PT, slot: map<nat, Slot>, ops: seq<Op>) returns (slot': map<nat, Slot>)
    requires Good(pt, slot) && forall k :: 0 <= k < |ops| ==> (ops[k].MapB? || ops[k].UnmapB?) && ops[k].b < BLOCKS
    ensures Good(Run(pt, ops), slot')
  {
    BlockOpsLegal(pt, ops);
    slot' := RunRefines(pt, slot, ops);
  }

  lemma {:induction false} MapBlocksTables(pt: PT, slot: map<nat, Slot>, b: nat, n: nat, pa: nat, attrs: nat, d: nat)
    requires Good(pt, slot) && b + n <= BLOCKS && d < BLOCKS
    ensures TableAt(Run(pt, MapBlockOps(b, n, pa, attrs)), d) ==> TableAt(pt, d)
  {
    if n > 0 {
      var front, op := MapBlockOps(b, n - 1, pa, attrs), MapB(b + n - 1, pa + (n - 1) * BLOCK_SIZE, attrs);
      var p := Run(pt, front);
      assert Run(pt, MapBlockOps(b, n, pa, attrs)) == Apply(p, op) by { RunSnoc(pt, front, op); }
      var slot1 := BlockRunGood(pt, slot, front);
      assert TableAt(Apply(p, op), d) ==> TableAt(p, d) by { MapBlockTables(p, slot1, op.b, op.pa, attrs, d); }
      MapBlocksTables(pt, slot, b, n - 1, pa, attrs, d);
    }
  }

  lemma UnmapOther(pt: PT, slot: map<nat, Slot>, c: nat, d: nat)
    requires Inv(pt, slot) && c < BLOCKS && d < BLOCKS && c != d
    ensures TableAt(Apply(pt, UnmapB(c)), d) == TableAt(pt, d)
  {
    var _ := UnmapBlockWalks(pt, slot, c / 512, c % 512);
    OtherBlock(pt, Apply(pt, UnmapB(c)), c, d);
  }

  /** Unmapping the blocks before d leaves the entry of block d alone. */
  lemma {:induction false} UnmapBlocksBefore(pt: PT, slot: map<nat, Slot>, b: nat, n: nat, d: nat)
    requires Good(pt, slot) && b + n <= d < BLOCKS
    ensures TableAt(Run(pt, UnmapBlockOps(b, n)), d) == TableAt(pt, d)
  {
    if n > 0 {
      var front, op := UnmapBlockOps(b, n - 1), UnmapB(b + n - 1);
      var p := Run(pt, front);
      assert Run(pt, UnmapBlockOps(b, n)) == Apply(p, op) by { RunSnoc(pt, front, op); }
      var slot1 := BlockRunGood(pt, slot, front);
      assert TableAt(Apply(p, op), d) == TableAt(p, d) by { UnmapOther(p, slot1, op.b, d); }
      UnmapBlocksBefore(pt, slot, b, n - 1, d);
    }
  }

  lemma {:induction false} CutsSnoc(pt: PT, front: seq<Op>, b: nat)
    ensures CutsTable(pt, front + [UnmapB(b)]) <==> CutsTable(pt, front) || TableAt(Run(pt, front), b)
  {
    assert (front + [UnmapB(b)])[..|front|] == front;
  }

  /** `unmap_range_2mb` cuts off a table exactly when one hangs in its range. */
  lemma {:induction false} UnmapBlocksCut(pt: PT, slot: map<nat, Slot>, b: nat, n: nat)
    requires Good(pt, slot) && b + n <= BLOCKS
    ensures CutsTable(pt, UnmapBlockOps(b, n)) <==> !NoTables(pt, b, n)
  {
    forall m: nat | m < n ensures Waits(pt, b, m) { UnmapBlocksBefore(pt, slot, b, m, b + m); }
    CutsWhereWaiting(pt, b, n);
  }

  /** Block b + m is as it was when its turn comes. */
  ghost predicate Waits(pt: PT, b: nat, m: nat) { TableAt(Run(pt, UnmapBlockOps(b, m)), b + m) == TableAt(pt, b + m) }

  lemma {:induction false} CutsWhereWaiting(pt: PT, b: nat, n: nat)
    requires forall m: nat :: m < n ==> Waits(pt, b, m)
    ensures CutsTable(pt, UnmapBlockOps(b, n)) <==> !NoTables(pt, b, n)
  {
    if n > 0 {
      CutsWhereWaiting(pt, b, n - 1);
      CutsSnoc(pt, UnmapBlockOps(b, n - 1), b + n - 1);
      assert Waits(pt, b, n - 1);
      NoTablesSnoc(pt, b, n);
    }
  }

  lemma NoTablesSnoc(pt: PT, b: nat, n: nat)
    requires n > 0
    ensures NoTables(pt, b, n) <==> NoTables(pt, b, n - 1) && !TableAt(pt, b + n - 1)
  {
  }

  /** A page translated outside a block has its level-3 table. */
  lemma PageHasTable(pt: PT, slot: map<nat, Slot>, u: nat)
    requires Inv(pt, slot) && u < PAGES && View(pt, u) != None && !InBlock(pt, u)
    ensures TableAt(pt, u / 512)
  {
    L2IsTable(pt, slot, u / 512 / 512, u / 512 % 512);
  }

  /** With no free frame a page without table stays unmapped, and nothing changes. */
  lemma MapStuck(pt: PT, op: Op)
    requires op.MapP? && pt.free == [] && !Granted(pt, op.v / 512 / 512, op.v / 512 % 512)
    ensures Apply(pt, op) == pt && !Hide(pt, op).frames
  {
  }

  /** A page that cannot be granted uses up the last frame, if there is one. */
  lemma MapRefused(pt: PT, slot: map<nat, Slot>, op: Op)
    requires Good(pt, slot) && Legal(pt, op) && op.MapP? && !Granted(pt, op.v / 512 / 512, op.v / 512 % 512)
    ensures Apply(pt, op).free == []
  {
    var i, j := op.v / 512 / 512, op.v / 512 % 512;
    var a := EnsureL2(pt, i);
    if !Entry(pt, pt.dir, i).Valid() {
      assert |a.free| == 0;
    }
    assert EnsurePath(pt, i, j).free == [];
  }

  lemma NotGranted(pt: PT, slot: map<nat, Slot>, v: nat)
    requires Good(pt, slot) && v < PAGES && pt.free == [] && !TableAt(pt, v / 512) && !InBlock(pt, v)
    ensures !Granted(pt, v / 512 / 512, v / 512 % 512)
  {
    if Entry(pt, pt.dir, v / 512 / 512).Valid() { L2IsTable(pt, slot, v / 512 / 512, v / 512 % 512); }
  }

  /** Nothing of the range was granted so far: then its blocks have no table. */
  lemma StillNoTable(pt: PT, slot: map<nat, Slot>, p: PT, slot1: map<nat, Slot>, c: nat)
    requires Inv(pt, slot) && Good(p, slot1) && c < BLOCKS && !TableAt(pt, c) && !HasBlock(pt, c / 512, c % 512)
    requires forall u :: 0 <= u < PAGES && Within(c, u) ==> View(p, u) == None || View(p, u) == View(pt, u)
    ensures !TableAt(p, c)
  {
    L2Vacant(pt, slot, c);
    assert forall v :: v in Space(p) ==> !Within(c, v) by { SpaceView(p); }
    if TableAt(p, c) { BlockOccupied(p, c); }
  }

  /** If the first page of a range without tables finds no frames, no page does. */
  lemma {:induction false} NoneGranted(pt: PT, slot: map<nat, Slot>, v: nat, n: nat, pa: nat, attrs: nat)
    requires Good(pt, slot) && v + n <= PAGES && n > 0 && !Granted(pt, v / 512 / 512, v / 512 % 512)
    requires Free(pt, v, n) && forall u :: v <= u < v + n ==> !TableAt(pt, u / 512)
    ensures Run(pt, MapOps(v, n, pa, attrs)).free == [] && NoFrames(Hides(pt, MapOps(v, n, pa, attrs)))
  {
    var front, op := MapOps(v, n - 1, pa, attrs), MapP(v + n - 1, pa + (n - 1) * PAGE_SIZE, attrs);
    assert MapOps(v, n, pa, attrs) == front + [op];
    RunSnoc(pt, front, op);
    FreeHasNoBlocks(pt, v, n);
    assert !InBlock(pt, op.v) && !TableAt(pt, op.v / 512);
    if n == 1 {
      assert front == [] && !InBlock(pt, v);
      MapRefused(pt, slot, op);
    } else {
      NoneGranted(pt, slot, v, n - 1, pa, attrs);
      NextRefused(pt, slot, v, n, pa, attrs, Run(pt, front), op);
      NoneMore(pt, front, op);
    }
  }

  lemma {:induction false} NoneMore(pt: PT, ops: seq<Op>, op: Op)
    requires NoFrames(Hides(pt, ops)) && !Hide(Run(pt, ops), op).frames
    ensures NoFrames(Hides(pt, ops + [op]))
  {
    assert (ops + [op])[..|ops|] == ops;
  }

  ghost predicate NoFrames(hs: seq<Hidden>) { forall k :: 0 <= k < |hs| ==> !hs[k].frames }

  /** A range for which no table could be had maps nothing. */
  lemma NothingMapped(pt: PT, slot: map<nat, Slot>, v: nat, n: nat, pa: nat, attrs: nat, p: PT)
      returns (slot1: map<nat, Slot>)
    requires Good(pt, slot) && v + n <= PAGES && (forall u :: v <= u < v + n ==> View(pt, u) == None)
    requires p == Run(pt, MapOps(v, n, pa, attrs)) && NoFrames(Hides(pt, MapOps(v, n, pa, attrs)))
    ensures Good(p, slot1) && (forall u :: 0 <= u < PAGES ==> InBlock(p, u) == InBlock(pt, u))
    ensures forall u :: 0 <= u < PAGES ==> View(p, u) == None || View(p, u) == View(pt, u)
  {
    slot1 := MapRangeView(pt, slot, v, n, pa, attrs);
  }

  lemma NextRefused(pt: PT, slot: map<nat, Slot>, v: nat, n: nat, pa: nat, attrs: nat, p: PT, op: Op)
    requires Good(pt, slot) && v + n <= PAGES && n > 1 && Free(pt, v, n) && p == Run(pt, MapOps(v, n - 1, pa, attrs))
    requires op.MapP? && op.v == v + n - 1 && !InBlock(pt, op.v) && !TableAt(pt, op.v / 512)
    requires p.free == [] && NoFrames(Hides(pt, MapOps(v, n - 1, pa, attrs)))
    ensures Apply(p, op) == p && !Hide(p, op).frames
  {
    var slot1 := NothingMapped(pt, slot, v, n - 1, pa, attrs, p);
    StillNoTable(pt, slot, p, slot1, op.v / 512);
    NotGranted(p, slot1, op.v);
    MapStuck(p, op);
  }

  predicate BlockPath(ipa: nat, len: nat, block: bool) { ipa % BLOCK_SIZE == 0 && len % BLOCK_SIZE == 0 && block }

  /** The unmapping will go by blocks, the physical address forced the mapping to go
      by pages, and the heap can supply the tables of the first page. */
  predicate Strands(pt: PT, ipa: nat, len: nat, pa: nat, block: bool) {
    && BlockPath(ipa, len, block) && pa % BLOCK_SIZE != 0 && len > 0
    && Granted(pt, FirstPage(ipa) / 512 / 512, FirstPage(ipa) / 512 % 512)
  }

  /** A free aligned range mapped page by page has a level-3 table exactly when the
      first page's tables could be had. */
  lemma {:induction false} PagesMakeTables(pt: PT, slot: map<nat, Slot>, b: nat, n: nat, pa: nat, attrs: nat)
    requires Good(pt, slot) && b + n <= BLOCKS && Free(pt, 512 * b, 512 * n)
    ensures NoTables(Run(pt, MapOps(512 * b, 512 * n, pa, attrs)), b, n) <==> n == 0 || !Granted(pt, b / 512, b % 512)
  {
    if n > 0 {
      var v := 512 * b;
      assert v / 512 == b && v + 512 * n <= PAGES;
      FreeHasNoTable(pt, b, n, b);
      if Granted(pt, b / 512, b % 512) {
        FirstGranted(pt, slot, v, 512 * n, pa, attrs);
      } else {
        forall u: nat | v <= u < v + 512 * n ensures !TableAt(pt, u / 512) { FreeHasNoTable(pt, b, n, u / 512); }
        NoneGranted(pt, slot, v, 512 * n, pa, attrs);
        NoPageNoTable(pt, slot, b, n, pa, attrs);
      }
    }
  }

  lemma {:induction false} FirstGranted(pt: PT, slot: map<nat, Slot>, v: nat, n: nat, pa: nat, attrs: nat)
    requires Good(pt, slot) && v + n <= PAGES && n > 0 && Free(pt, v, n) && Granted(pt, v / 512 / 512, v / 512 % 512)
    ensures TableAt(Run(pt, MapOps(v, n, pa, attrs)), v / 512)
  {
    var q := Run(pt, MapOps(v, n, pa, attrs));
    var slot1 := MapRangeView(pt, slot, v, n, pa, attrs);
    FirstHide(pt, v, n, pa, attrs);
    FreeHasNoBlocks(pt, v, n);
    assert View(q, v) != None && !InBlock(pt, v);
    PageHasTable(q, slot1, v);
  }

  lemma {:induction false} FirstHide(pt: PT, v: nat, n: nat, pa: nat, attrs: nat)
    requires n > 0
    ensures Hides(pt, MapOps(v, n, pa, attrs))[0] == Hide(pt, MapP(v, pa, attrs))
  {
    RunSnoc(pt, MapOps(v, n - 1, pa, attrs), MapP(v + n - 1, pa + (n - 1) * PAGE_SIZE, attrs));
    if n > 1 { FirstHide(pt, v, n - 1, pa, attrs); } else { assert MapOps(v, 0, pa, attrs) == []; }
  }

  lemma {:induction false} NoPageNoTable(pt: PT, slot: map<nat, Slot>, b: nat, n: nat, pa: nat, attrs: nat)
    requires Good(pt, slot) && b + n <= BLOCKS && Free(pt, 512 * b, 512 * n)
    requires NoFrames(Hides(pt, MapOps(512 * b, 512 * n, pa, attrs)))
    ensures NoTables(Run(pt, MapOps(512 * b, 512 * n, pa, attrs)), b, n)
  {
    var q := Run(pt, MapOps(512 * b, 512 * n, pa, attrs));
    var slot1 := MapRangeView(pt, slot, 512 * b, 512 * n, pa, attrs);
    assert Free(q, 512 * b, 512 * n);
    forall c: nat | b <= c < b + n ensures !TableAt(q, c) { FreeHasNoTable(q, b, n, c); }
  }

  /** Mapping a free range and unmapping it with the same address, length and flag
      leaves table frames in `pages` that nothing reaches if and only if the range
      is aligned, blocks are asked for, the physical address is not aligned and the
      heap can supply the first page's tables. */
  lemma MapThenUnmapFrames(pt: PT, slot: map<nat, Slot>, ipa: nat, len: nat, pa: nat, attrs: nat, block: bool)
      returns (slot': map<nat, Slot>)
    requires Good(pt, slot) && FirstPage(ipa) + PageCount(len) <= PAGES && Free(pt, FirstPage(ipa), PageCount(len))
    ensures var r := Run(Run(pt, MapRangeOps(ipa, len, pa, attrs, block)), UnmapRangeOps(ipa, len, block));
      && Good(r, slot') && Leaked(pt, slot) <= Leaked(r, slot')
      && (Leaked(r, slot') == Leaked(pt, slot) <==> !Strands(pt, ipa, len, pa, block))
  {
    if BlockPath(ipa, len, block) {
      var b, n := ipa / BLOCK_SIZE, RoundUp(len, BLOCK_SIZE) / BLOCK_SIZE;
      BlockNumbers(pt, ipa, len, pa, block, b, n);
      slot' := BlockwiseFrames(pt, slot, b, n, pa, attrs);
    } else {
      slot' := PagewiseFrames(pt, slot, FirstPage(ipa), PageCount(len), pa, attrs);
    }
  }

  lemma BlockNumbers(pt: PT, ipa: nat, len: nat, pa: nat, block: bool, b: nat, n: nat)
    requires BlockPath(ipa, len, block) && b == ipa / BLOCK_SIZE && n == RoundUp(len, BLOCK_SIZE) / BLOCK_SIZE
    requires FirstPage(ipa) + PageCount(len) <= PAGES
    ensures 512 * b == FirstPage(ipa) && 512 * n == PageCount(len) && b + n <= BLOCKS
    ensures Strands(pt, ipa, len, pa, block) <==> pa % BLOCK_SIZE != 0 && n > 0 && Granted(pt, b / 512, b % 512)
  {
    AlignedRange(ipa, len);
    RoundUpUnits(len, BLOCK_SIZE);
    assert FirstPage(ipa) / 512 == b;
  }

  /** The pages v to v + n, mapped and unmapped page by page. */
  lemma PagewiseFrames(pt: PT, slot: map<nat, Slot>, v: nat, n: nat, pa: nat, attrs: nat)
      returns (slot': map<nat, Slot>)
    requires Good(pt, slot) && v + n <= PAGES && Free(pt, v, n)
    ensures var r := Run(Run(pt, MapOps(v, n, pa, attrs)), UnmapOps(v, n));
      Good(r, slot') && Leaked(r, slot') == Leaked(pt, slot)
  {
    var slot1 := MapRangeView(pt, slot, v, n, pa, attrs);
    FreeHasNoBlocks(pt, v, n);
    slot' := UnmapRangeView(Run(pt, MapOps(v, n, pa, attrs)), slot1, v, n);
  }

  /** The blocks b to b + n, mapped by blocks or by pages, unmapped by blocks. */
  lemma BlockwiseFrames(pt: PT, slot: map<nat, Slot>, b: nat, n: nat, pa: nat, attrs: nat)
      returns (slot': map<nat, Slot>)
    requires Good(pt, slot) && b + n <= BLOCKS && Free(pt, 512 * b, 512 * n)
    ensures var q := Run(pt, if pa % BLOCK_SIZE == 0 then MapBlockOps(b, n, pa, attrs)
      else MapOps(512 * b, 512 * n, pa, attrs));
      var r := Run(q, UnmapBlockOps(b, n));
      && Good(r, slot') && Leaked(pt, slot) <= Leaked(r, slot')
      && (Leaked(r, slot') == Leaked(pt, slot) <==> !(pa % BLOCK_SIZE != 0 && n > 0 && Granted(pt, b / 512, b % 512)))
  {
    var q := Run(pt, if pa % BLOCK_SIZE == 0 then MapBlockOps(b, n, pa, attrs)
      else MapOps(512 * b, 512 * n, pa, attrs));
    var slot1: map<nat, Slot>;
    if pa % BLOCK_SIZE == 0 {
      slot1 := BlocksLeakNothing(pt, slot, b, n, pa, attrs);
    } else {
      slot1 := MapRangeView(pt, slot, 512 * b, 512 * n, pa, attrs);
      PagesMakeTables(pt, slot, b, n, pa, attrs);
    }
    slot' := UnmapLeaks(q, slot1, b, n);
  }

  lemma BlocksLeakNothing(pt: PT, slot: map<nat, Slot>, b: nat, n: nat, pa: nat, attrs: nat)
      returns (slot': map<nat, Slot>)
    requires Good(pt, slot) && b + n <= BLOCKS && Free(pt, 512 * b, 512 * n)
    ensures var q := Run(pt, MapBlockOps(b, n, pa, attrs));
      Good(q, slot') && Leaked(q, slot') == Leaked(pt, slot) && NoTables(q, b, n)
  {
    var ops := MapBlockOps(b, n, pa, attrs);
    BlockOpsLegal(pt, ops);
    NoUnmapNoCut(pt, ops);
    OrphansAreNew(pt, slot, ops);
    slot' := RunRefines(pt, slot, ops);
    forall c: nat | b <= c < b + n ensures !TableAt(Run(pt, ops), c) {
      FreeHasNoTable(pt, b, n, c);
      MapBlocksTables(pt, slot, b, n, pa, attrs, c);
    }
  }

  lemma {:induction false} NoUnmapNoCut(pt: PT, ops: seq<Op>)
    requires forall k :: 0 <= k < |ops| ==> !ops[k].UnmapB?
    ensures !CutsTable(pt, ops)
  {
    if ops != [] { NoUnmapNoCut(pt, ops[..|ops| - 1]); }
  }

  lemma UnmapLeaks(q: PT, slot1: map<nat, Slot>, b: nat, n: nat) returns (slot': map<nat, Slot>)
    requires Good(q, slot1) && b + n <= BLOCKS
    ensures var r := Run(q, UnmapBlockOps(b, n));
      && Good(r, slot') && Leaked(q, slot1) <= Leaked(r, slot')
      && (Leaked(r, slot') == Leaked(q, slot1) <==> NoTables(q, b, n))
  {
    var ops := UnmapBlockOps(b, n);
    BlockOpsLegal(q, ops);
    UnmapBlocksCut(q, slot1, b, n);
    OrphansAreNew(q, slot1, ops);
    slot' := RunRefines(q, slot1, ops);
  }
}
