/** How a guest's memory comes to be laid out: `vmm_init_memory` maps its regions one
    after the other, page by page for every VM but VM 0. */
module GuestInit {
  import opened Wrappers
  import opened Arith
  import opened Descriptors
  import PT = PageTable
  import opened AddressSpace
  import opened Ranges
  import opened Stage2Table
  import opened GuestMemory
  import DB = DirtyBitmap

  /** The first i regions are mapped, if there were frames, the others free, and no
      page is in a block. */
  ghost predicate LaidUpTo(pt: PT.PT, rs: Regions, i: nat, attrs: nat, frames: bool) {
    && (forall k, u: nat {:trigger MappedAs(pt, rs[k], u, attrs)} ::
      frames && 0 <= k < i <= |rs| && HasPage(rs[k], u) ==>
      MappedAs(pt, rs[k], u, attrs))
    && (forall k, u: nat {:trigger Unmapped(pt, rs[k], u)} :: i <= k < |rs| && HasPage(rs[k], u) ==>
      Unmapped(pt, rs[k], u))
    && (forall k, u: nat {:trigger Small(pt, rs[k], u)} :: 0 <= k < |rs| && HasPage(rs[k], u) ==> Small(pt, rs[k], u))
  }

  /** Guest page u is mapped where its region says, with these attributes. */
  predicate MappedAs(pt: PT.PT, r: DB.Region, u: nat, attrs: nat) {
    var pa := Target(r, u);
    pa >= 0 && View(pt, u) == Some(PT.Leaf(pa, attrs))
  }

  predicate Unmapped(pt: PT.PT, r: DB.Region, u: nat) { HasPage(r, u) ==> View(pt, u).None? }

  predicate Small(pt: PT.PT, r: DB.Region, u: nat) { HasPage(r, u) ==> !InBlock(pt, u) }

  lemma RegionPages(r: DB.Region)
    requires r.length % PAGE_SIZE == 0 && IpaStart(r) >= 0
    ensures PageCount(r.length) == r.length / PAGE_SIZE == Last(r) - First(r) && FirstPage(IpaStart(r)) == First(r)
  {
    RoundUpUnits(r.length, PAGE_SIZE);
  }

  /** q is pt with the region's pages mapped, if there were frames. */
  ghost predicate Added(pt: PT.PT, q: PT.PT, r: DB.Region, attrs: nat, frames: bool) {
    forall u: nat {:trigger View(q, u)} {:trigger InBlock(q, u)} :: u < PAGES ==>
      && InBlock(q, u) == InBlock(pt, u)
      && if HasPage(r, u) then frames ==> MappedAs(q, r, u, attrs) else View(q, u) == View(pt, u)
  }

  lemma {:induction false} RegionAdded(pt: PT.PT, q: PT.PT, slot: map<nat, PT.Slot>, r: DB.Region, v: nat, n: nat,
      attrs: nat)
    requires Good(pt, slot) && v == First(r) && v + n == Last(r) <= PAGES && Free(pt, v, n)
    requires q == Ranges.Run(pt, MapOps(v, n, r.start, attrs))
    ensures Added(pt, q, r, attrs, |pt.free| >= 2 * n) && (|pt.free| >= 2 * n ==> |q.free| + 2 * n >= |pt.free|)
  {
    var hs := Hides(pt, MapOps(v, n, r.start, attrs));
    var slot' := MapRangeView(pt, slot, v, n, r.start, attrs);
    if |pt.free| >= 2 * n { FramesSuffice(pt, v, n, r.start, attrs); }
    AddedByHides(pt, q, r, v, n, attrs, hs, |pt.free| >= 2 * n);
  }

  lemma AddedByHides(pt: PT.PT, q: PT.PT, r: DB.Region, v: nat, n: nat, attrs: nat, hs: seq<Hidden>, frames: bool)
    requires v == First(r) && v + n == Last(r) <= PAGES && RangeMapped(pt, q, v, n, r.start, attrs, hs)
    requires frames ==> forall k :: 0 <= k < |hs| ==> hs[k].frames
    requires forall u :: 0 <= u < PAGES ==> InBlock(q, u) == InBlock(pt, u)
    ensures Added(pt, q, r, attrs, frames)
  {
  }

  /** One region more. */
  lemma InitStep(pt: PT.PT, q: PT.PT, rs: Regions, i: nat, attrs: nat, frames: bool)
    requires Placed(rs) && Separate(rs) && i < |rs| && LaidUpTo(pt, rs, i, attrs, frames)
      && Added(pt, q, rs[i], attrs, frames)
    ensures LaidUpTo(q, rs, i + 1, attrs, frames)
  {
    forall k, u: nat | 0 <= k < |rs| && HasPage(rs[k], u)
      ensures frames && k <= i ==> MappedAs(q, rs[k], u, attrs)
      ensures k > i ==> Unmapped(q, rs[k], u)
      ensures Small(q, rs[k], u)
    {
      assert Small(pt, rs[k], u) && (frames && k < i ==> MappedAs(pt, rs[k], u, attrs))
        && (k > i ==> Unmapped(pt, rs[k], u));
      assert k != i ==> !HasPage(rs[i], u) by { Elsewhere(rs, i, k, u); }
      assert InBlock(q, u) == InBlock(pt, u);
    }
  }

  lemma Elsewhere(rs: Regions, i: nat, k: nat, u: int)
    requires Separate(rs) && i < |rs| && k < |rs| && HasPage(rs[k], u)
    ensures k != i ==> !HasPage(rs[i], u)
  {
    if HasPage(rs[i], u) { OneRegion(rs, i, k, u); }
  }

  /** The guest's address a bytes into the region is translated to the region's address
      there, with these attributes. */
  predicate Translated(pt: PT.PT, r: DB.Region, a: nat, attrs: nat) {
    var ipa := r.start + r.offset + a;
    ipa >= 0 && View(pt, ipa / 4096) == Some(PT.Leaf(r.start + a - a % 4096, attrs))
  }

  /** The same for every address of every region. */
  ghost predicate AllTranslated(pt: PT.PT, rs: Regions, attrs: nat) {
    forall k, a: nat {:trigger Translated(pt, rs[k], a, attrs)} ::
      0 <= k < |rs| && a < rs[k].length ==> Translated(pt, rs[k], a, attrs)
  }

  lemma InitEnds(pt: PT.PT, rs: Regions, attrs: nat)
    requires Placed(rs) && Separate(rs) && LaidUpTo(pt, rs, |rs|, attrs, true)
    ensures Laid(pt, rs) && AllTranslated(pt, rs, attrs)
  {
    forall k, u: nat | 0 <= k < |rs| && HasPage(rs[k], u) ensures MappedTo(pt, rs[k], u) && BlockWithin(pt, rs[k], u) {
      assert Small(pt, rs[k], u) && MappedAs(pt, rs[k], u, attrs);
    }
    forall k, a: nat {:trigger Translated(pt, rs[k], a, attrs)} | 0 <= k < |rs| && a < rs[k].length
      ensures Translated(pt, rs[k], a, attrs)
    {
      var u := AddressPage(rs, k, a);
      assert MappedAs(pt, rs[k], u, attrs);
    }
  }

  lemma InitStarts(pt: PT.PT, rs: Regions)
    requires Space(pt) == map[] && Placed(rs)
    ensures forall frames, attrs: nat :: LaidUpTo(pt, rs, 0, attrs, frames)
  {
    SpaceView(pt);
    forall k, u: nat | 0 <= k < |rs| && HasPage(rs[k], u) ensures Unmapped(pt, rs[k], u) && Small(pt, rs[k], u) {
      assert View(pt, u) == None;
    }
  }

  lemma RegionFree(pt: PT.PT, rs: Regions, i: nat, v: nat, n: nat, attrs: nat, frames: bool)
    requires i < |rs| && v == First(rs[i]) && v + n == Last(rs[i]) && LaidUpTo(pt, rs, i, attrs, frames)
    ensures Free(pt, v, n) && NoBlocks(pt, v, n)
  {
    forall u: nat | v <= u < v + n ensures View(pt, u) == None { assert Unmapped(pt, rs[i], u); }
    FreeHasNoBlocks(pt, v, n);
  }

  /** Frames for two tables a page from region i on. */
  predicate Budget(frames: nat, rs: Regions, i: nat) {
    i <= |rs| && frames >= 2 * (DB.PagesBefore(rs, |rs|) - DB.PagesBefore(rs, i))
  }

  lemma BudgetStep(frames: nat, rs: Regions, i: nat)
    requires i < |rs| && Budget(frames, rs, i)
    ensures frames >= 2 * (rs[i].length / PAGE_SIZE)
    ensures forall left: nat {:trigger Budget(left, rs, i + 1)} ::
      left + 2 * (rs[i].length / PAGE_SIZE) >= frames ==> Budget(left, rs, i + 1)
  {
    DB.PagesBeforeGrows(rs, i + 1, |rs|);
  }

  /** `pt_map_range` on one region. */
  method MapRegion(table: Table, rs: Regions, i: nat, attrs: nat, ghost frames: bool)
    requires table.Valid() && Placed(rs) && Separate(rs) && i < |rs| && LaidUpTo(table.State(), rs, i, attrs, frames)
    requires frames ==> Budget(|table.free|, rs, i)
    modifies table`mem, table`pages, table`free
    ensures table.Valid() && LaidUpTo(table.State(), rs, i + 1, attrs, frames)
    ensures frames ==> Budget(|table.free|, rs, i + 1)
  {
    var r := rs[i];
    if frames { BudgetStep(|table.free|, rs, i); }
    ghost var pt := table.State();
    ghost var slot :| Good(pt, slot);
    RegionPages(r);
    RegionFree(pt, rs, i, First(r), Last(r) - First(r), attrs, frames);
    table.PtMapRange(IpaStart(r), r.length, r.start, attrs, false);
    RegionAdded(pt, table.State(), slot, r, First(r), Last(r) - First(r), attrs);
    InitStep(pt, table.State(), rs, i, attrs, frames);
  }

  /** `vmm_init_memory` from the allocated regions on: the table stays valid, and with
      frames for two tables a page an empty table ends up translating every address of
      every region to the region, with these attributes; where frames run out `map`
      leaves pages unmapped. */
  method InitMemory(table: Table, rs: Regions, attrs: nat)
    requires table.Valid() && Space(table.State()) == map[] && Placed(rs) && Separate(rs)
    modifies table`mem, table`pages, table`free
    ensures table.Valid()
    ensures Budget(|old(table.free)|, rs, 0) ==> Laid(table.State(), rs) && AllTranslated(table.State(), rs, attrs)
  {
    ghost var frames := Budget(|table.free|, rs, 0);
    InitStarts(table.State(), rs);
    for i := 0 to |rs|
      invariant table.Valid() && LaidUpTo(table.State(), rs, i, attrs, frames)
        && (frames ==> Budget(|table.free|, rs, i))
    {
      MapRegion(table, rs, i, attrs, frames);
    }
    if frames { InitEnds(table.State(), rs, attrs); }
  }
}
