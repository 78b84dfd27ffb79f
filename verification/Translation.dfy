/** The stage-2 tables by address: what the MMU makes of them, and what a mapped or
    unmapped range of addresses translates to. */
module Translation {
  import opened Wrappers
  import opened Arith
  import opened Descriptors
  import opened PageTable
  import opened AddressSpace
  import opened Ranges

  /** The walk of the MMU for a 39-bit input address and 4 KB pages (Arm Architecture
      Reference Manual, VMSAv8-64 translation process): type 3 is a table or a page,
      type 1 a block, and the other types fault. */
  function Mmu(pt: PT, ipa: nat): Option<Leaf> {
    var d1 := Entry(pt, pt.dir, ipa / 0x4000_0000 % 512);
    if d1.kind == 1 then Some(Leaf(d1.pa + ipa % 0x4000_0000, d1.attrs))
    else if d1.kind != 3 then None else
    var d2 := Entry(pt, d1.pa, ipa / 0x20_0000 % 512);
    if d2.kind == 1 then Some(Leaf(d2.pa + ipa % 0x20_0000, d2.attrs))
    else if d2.kind != 3 then None else
    var d3 := Entry(pt, d2.pa, ipa / 0x1000 % 512);
    if d3.kind != 3 then None else Some(Leaf(d3.pa + ipa % 0x1000, d3.attrs))
  }

  /** The MMU translates an address as its page's view says. */
  lemma MmuSees(pt: PT, slot: map<nat, Slot>, ipa: nat)
    requires Good(pt, slot) && ipa < 0x80_0000_0000
    ensures Mmu(pt, ipa) == match View(pt, ipa / 4096)
      case None => None
      case Some(l) => Some(Leaf(l.pa + ipa % 4096, l.attrs))
  {
    IndexSplit(ipa);
    var v := ipa / 4096;
    var i, j, k := v / 512 / 512, v / 512 % 512, v % 512;
    assert L1Ok(pt, slot, i, Entry(pt, pt.dir, i));
    var d1 := Entry(pt, pt.dir, i);
    if d1 != ZERO {
      assert L2Ok(pt, slot, i, j, Entry(pt, d1.pa, j));
      var d2 := Entry(pt, d1.pa, j);
      if d2.kind == TABLE {
        assert L3Ok(Entry(pt, d2.pa, k));
      } else if d2 != ZERO {
        BlockOffset(ipa);
      }
    }
  }

  lemma BlockOffset(ipa: nat)
    ensures ipa / 4096 % 512 * 4096 + ipa % 4096 == ipa % 0x20_0000
  {
    assert ipa / 4096 / 512 == ipa / 0x20_0000;
  }

  // ------------------------------------------------------------------ ranges of addresses

  /** The page of address a has an address of the range. */
  predicate Meets(ipa: nat, len: nat, a: nat) { ipa <= a && a - a % 4096 < ipa + len }

  ghost predicate RangeFree(pt: PT, ipa: nat, len: nat) {
    forall a: nat {:trigger View(pt, a / 4096)} :: Meets(ipa, len, a) ==> View(pt, a / 4096) == None
  }

  /** The pages that meet an aligned range. */
  lemma MeetsPages(ipa: nat, len: nat, a: nat)
    requires ipa % 4096 == 0
    ensures Meets(ipa, len, a) <==> FirstPage(ipa) <= a / 4096 < FirstPage(ipa) + PageCount(len)
    ensures Meets(ipa, len, a) ==> (a / 4096 - FirstPage(ipa)) * 4096 == a - ipa - a % 4096
  {
    RoundUpUnits(len, PAGE_SIZE);
    var v, p := ipa / 4096, a / 4096;
    assert ipa == 4096 * v && a == 4096 * p + a % 4096;
  }

  lemma FreePages(pt: PT, ipa: nat, len: nat)
    requires ipa % 4096 == 0 && RangeFree(pt, ipa, len)
    ensures Free(pt, FirstPage(ipa), PageCount(len))
  {
    forall u: nat | FirstPage(ipa) <= u < FirstPage(ipa) + PageCount(len) ensures View(pt, u) == None {
      assert 4096 * u / 4096 == u;
      MeetsPages(ipa, len, 4096 * u);
      assert View(pt, 4096 * u / 4096) == None;
    }
  }

  /** Page u once the n pages from v on are mapped to pa. */
  function PageAfter(pt: PT, v: nat, n: nat, pa: nat, attrs: nat, u: nat): Option<Leaf> {
    if v <= u < v + n then Some(Leaf(pa + (u - v) * 4096, attrs)) else View(pt, u)
  }

  lemma BlockPathViews(pt: PT, slot: map<nat, Slot>, b: nat, n: nat, pa: nat, attrs: nat, u: nat)
      returns (slot': map<nat, Slot>)
    requires Good(pt, slot) && b + n <= BLOCKS && Free(pt, 512 * b, 512 * n) && u < PAGES
    requires AllFrames(pt, MapBlockOps(b, n, pa, attrs))
    ensures var q, v := Run(pt, MapBlockOps(b, n, pa, attrs)), 512 * b;
      && Good(q, slot')
      && View(q, u) == PageAfter(pt, v, 512 * n, pa, attrs, u)
  {
    var ops := MapBlockOps(b, n, pa, attrs);
    slot' := MapBlocksSpace(pt, slot, b, n, pa, attrs);
    SpaceView(pt);
    SpaceView(Run(pt, ops));
    assert BlockPage(Space(pt), Space(Run(pt, ops)), b, n, pa, attrs, Hides(pt, ops), u);
  }

  lemma PagePathViews(pt: PT, slot: map<nat, Slot>, v: nat, n: nat, pa: nat, attrs: nat, u: nat)
      returns (slot': map<nat, Slot>)
    requires Good(pt, slot) && v + n <= PAGES && Free(pt, v, n) && u < PAGES
    requires AllFrames(pt, MapOps(v, n, pa, attrs))
    ensures var q := Run(pt, MapOps(v, n, pa, attrs));
      && Good(q, slot')
      && View(q, u) == PageAfter(pt, v, n, pa, attrs, u)
  {
    slot' := MapRangeView(pt, slot, v, n, pa, attrs);
  }

  /** The same page by page, whichever granularity is chosen. */
  lemma MapRangeViews(pt: PT, slot: map<nat, Slot>, ipa: nat, len: nat, pa: nat, attrs: nat, block: bool, u: nat)
      returns (slot': map<nat, Slot>)
    requires Good(pt, slot) && FirstPage(ipa) + PageCount(len) <= PAGES && u < PAGES
    requires Free(pt, FirstPage(ipa), PageCount(len)) && AllFrames(pt, MapRangeOps(ipa, len, pa, attrs, block))
    ensures var q, v := Run(pt, MapRangeOps(ipa, len, pa, attrs, block)), FirstPage(ipa);
      && Good(q, slot')
      && View(q, u) == PageAfter(pt, v, PageCount(len), pa, attrs, u)
  {
    if ipa % BLOCK_SIZE == 0 && len % BLOCK_SIZE == 0 && pa % BLOCK_SIZE == 0 && block {
      AlignedRange(ipa, len);
      slot' := BlockPathViews(pt, slot, ipa / BLOCK_SIZE, RoundUp(len, BLOCK_SIZE) / BLOCK_SIZE, pa, attrs, u);
    } else {
      slot' := PagePathViews(pt, slot, FirstPage(ipa), PageCount(len), pa, attrs, u);
    }
  }

  /** `pt_map_range` on a free range: with frames for its tables every address of the
      range is translated to the same offset from pa, with these attributes, whichever
      granularity is chosen; no address on another page is affected. */
  lemma {:induction false} MapRangeTranslates(pt: PT, slot: map<nat, Slot>, ipa: nat, len: nat, pa: nat, attrs: nat,
      block: bool, a: nat)
    requires Good(pt, slot) && ipa % 4096 == 0 && FirstPage(ipa) + PageCount(len) <= PAGES && a < 0x80_0000_0000
    requires RangeFree(pt, ipa, len) && AllFrames(pt, MapRangeOps(ipa, len, pa, attrs, block))
    ensures var q := Run(pt, MapRangeOps(ipa, len, pa, attrs, block));
      Mmu(q, a) == if Meets(ipa, len, a) then Some(Leaf(pa + (a - ipa), attrs)) else Mmu(pt, a)
  {
    FreePages(pt, ipa, len);
    MeetsPages(ipa, len, a);
    IndexSplit(a);
    MmuSees(pt, slot, a);
    var slot' := MapRangeViews(pt, slot, ipa, len, pa, attrs, block, a / 4096);
    MmuSees(Run(pt, MapRangeOps(ipa, len, pa, attrs, block)), slot', a);
  }

  lemma UnmapRangeViews(pt: PT, slot: map<nat, Slot>, ipa: nat, len: nat, block: bool, u: nat)
      returns (slot': map<nat, Slot>)
    requires Good(pt, slot) && FirstPage(ipa) + PageCount(len) <= PAGES && u < PAGES
    requires !(ipa % BLOCK_SIZE == 0 && len % BLOCK_SIZE == 0 && block) ==>
      NoBlocks(pt, FirstPage(ipa), PageCount(len))
    ensures var q, v := Run(pt, UnmapRangeOps(ipa, len, block)), FirstPage(ipa);
      Good(q, slot') && View(q, u) == if v <= u < v + PageCount(len) then None else View(pt, u)
  {
    if ipa % BLOCK_SIZE == 0 && len % BLOCK_SIZE == 0 && block {
      AlignedRange(ipa, len);
      var b, n := ipa / BLOCK_SIZE, RoundUp(len, BLOCK_SIZE) / BLOCK_SIZE;
      slot' := UnmapBlocksSpace(pt, slot, b, n);
      GoneInRange(pt, Run(pt, UnmapBlockOps(b, n)), b, n);
    } else {
      slot' := UnmapRangeView(pt, slot, FirstPage(ipa), PageCount(len));
    }
  }

  /** `pt_unmap_range`: no address of the range is translated any more, and no address on
      another page is affected. */
  lemma {:induction false} UnmapRangeTranslates(pt: PT, slot: map<nat, Slot>, ipa: nat, len: nat, block: bool, a: nat)
    requires Good(pt, slot) && ipa % 4096 == 0 && FirstPage(ipa) + PageCount(len) <= PAGES && a < 0x80_0000_0000
    requires !(ipa % BLOCK_SIZE == 0 && len % BLOCK_SIZE == 0 && block) ==>
      NoBlocks(pt, FirstPage(ipa), PageCount(len))
    ensures var q := Run(pt, UnmapRangeOps(ipa, len, block));
      Mmu(q, a) == if Meets(ipa, len, a) then None else Mmu(pt, a)
  {
    MeetsPages(ipa, len, a);
    IndexSplit(a);
    MmuSees(pt, slot, a);
    var slot' := UnmapRangeViews(pt, slot, ipa, len, block, a / 4096);
    MmuSees(Run(pt, UnmapRangeOps(ipa, len, block)), slot', a);
  }
}
