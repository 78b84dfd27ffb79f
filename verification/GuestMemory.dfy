/** A guest's memory as the migration sees it: regions of whole pages, numbered one
    after the other, each mapped by the stage-2 table from a run of guest pages. */
module GuestMemory {
  import opened Wrappers
  import opened Descriptors
  import opened PageTable
  import opened AddressSpace
  import opened AccessPermission
  import DB = DirtyBitmap

  type Regions = seq<DB.Region>

  function IpaStart(r: DB.Region): int { r.start + r.offset }

  /** The guest pages of a region: from First up to, not including, Last. */
  function First(r: DB.Region): int { IpaStart(r) / PAGE_SIZE }
  function Last(r: DB.Region): int { First(r) + r.length / PAGE_SIZE }

  predicate HasPage(r: DB.Region, u: int) { First(r) <= u < Last(r) }

  /** Whole pages on both sides, inside the table's reach. */
  predicate Placed(rs: Regions) {
    DB.Aligned(rs) && forall k :: 0 <= k < |rs| ==>
      IpaStart(rs[k]) >= 0 && IpaStart(rs[k]) % PAGE_SIZE == 0 && Last(rs[k]) <= PAGES
  }

  /** No two regions share a guest page or an address. */
  predicate Separate(rs: Regions) {
    forall k, m :: 0 <= k < m < |rs| ==> Disjoint(rs[k], rs[m])
  }

  predicate Disjoint(r: DB.Region, t: DB.Region) {
    && (Last(r) <= First(t) || Last(t) <= First(r))
    && (r.start + r.length <= t.start || t.start + t.length <= r.start)
  }

  /** The address of a guest page of a region. */
  function Target(r: DB.Region, u: int): int { r.start + (u - First(r)) * PAGE_SIZE }

  /** Guest page u is mapped where its region says. */
  predicate MappedTo(pt: PT, r: DB.Region, u: nat) {
    View(pt, u).Some? && View(pt, u).value.pa == Target(r, u)
  }

  /** A 2 MB block that holds a page of the region lies in it. */
  predicate BlockWithin(pt: PT, r: DB.Region, u: nat) {
    InBlock(pt, u) ==> First(r) <= 512 * (u / 512) && 512 * (u / 512) + 512 <= Last(r)
  }

  /** What `vmm_init_memory` sets up. */
  ghost predicate Laid(pt: PT, rs: Regions) {
    && Placed(rs) && Separate(rs)
    && (forall k, u: nat {:trigger MappedTo(pt, rs[k], u)} :: 0 <= k < |rs| && HasPage(rs[k], u) ==>
      MappedTo(pt, rs[k], u))
    && (forall k, u: nat {:trigger BlockWithin(pt, rs[k], u)} :: 0 <= k < |rs| && HasPage(rs[k], u) ==>
      BlockWithin(pt, rs[k], u))
  }

  // ------------------------------------------------------------------ page numbers

  /** The region of page number p among the first i. */
  function RegionOf(rs: Regions, i: nat, p: nat): (k: nat)
    requires i <= |rs| && p < DB.PagesBefore(rs, i)
    ensures k < i && DB.PagesBefore(rs, k) <= p < DB.PagesBefore(rs, k + 1)
  {
    if p >= DB.PagesBefore(rs, i - 1) then i - 1 else RegionOf(rs, i - 1, p)
  }

  /** The guest page with number p. */
  function IpaPage(rs: Regions, p: nat): int
    requires p < DB.PagesBefore(rs, |rs|)
  {
    var k := RegionOf(rs, |rs|, p);
    First(rs[k]) + (p - DB.PagesBefore(rs, k))
  }

  lemma {:induction false} IpaPageWithin(rs: Regions, p: nat)
    requires p < DB.PagesBefore(rs, |rs|)
    ensures HasPage(rs[RegionOf(rs, |rs|, p)], IpaPage(rs, p))
  {
  }

  /** The number of page u of region k. */
  function Number(rs: Regions, k: nat, u: int): int
    requires k < |rs|
  {
    DB.PagesBefore(rs, k) + (u - First(rs[k]))
  }

  lemma {:induction false} RegionFound(rs: Regions, i: nat, k: nat, p: nat)
    requires k < i <= |rs| && DB.PagesBefore(rs, k) <= p < DB.PagesBefore(rs, k + 1)
    ensures p < DB.PagesBefore(rs, i) && RegionOf(rs, i, p) == k
  {
    DB.PagesBeforeGrows(rs, k + 1, i);
    if k + 1 < i {
      DB.PagesBeforeGrows(rs, k + 1, i - 1);
      RegionFound(rs, i - 1, k, p);
    }
  }

  lemma {:induction false} NumberOk(rs: Regions, k: nat, u: int)
    requires k < |rs| && HasPage(rs[k], u)
    ensures 0 <= Number(rs, k, u) < DB.PagesBefore(rs, |rs|) && IpaPage(rs, Number(rs, k, u)) == u
  {
    RegionFound(rs, |rs|, k, Number(rs, k, u));
  }

  lemma OneRegion(rs: Regions, k: nat, m: nat, u: int)
    requires Separate(rs) && k < |rs| && m < |rs| && HasPage(rs[k], u) && HasPage(rs[m], u)
    ensures k == m
  {
  }

  /** A run of guest pages inside a region is a run of numbers. */
  lemma {:induction false} RunOfNumbers(rs: Regions, k: nat, b: int, n: nat, p: nat)
    requires Separate(rs) && k < |rs| && First(rs[k]) <= b && b + n <= Last(rs[k]) && p < DB.PagesBefore(rs, |rs|)
    ensures b <= IpaPage(rs, p) < b + n <==> Number(rs, k, b) <= p < Number(rs, k, b) + n
  {
    IpaPageWithin(rs, p);
    var m := RegionOf(rs, |rs|, p);
    if b <= IpaPage(rs, p) < b + n {
      OneRegion(rs, k, m, IpaPage(rs, p));
    }
    if Number(rs, k, b) <= p < Number(rs, k, b) + n {
      RegionFound(rs, |rs|, k, p);
    }
  }

  /** The address a page is mapped to has that page's number: the fault handler and
      the device path find the bit the guest page belongs to. */
  lemma TargetNumber(rs: Regions, k: nat, u: int)
    requires Placed(rs) && Separate(rs) && k < |rs| && HasPage(rs[k], u)
    ensures Target(rs[k], u) >= 0 && DB.Numbers(rs, Target(rs[k], u), Number(rs, k, u))
      && DB.Inside(rs, Target(rs[k], u))
  {
    var pa := Target(rs[k], u);
    assert DB.Holds(rs[k], pa) by { TargetHeld(rs[k], u); }
    forall m | 0 <= m < k ensures !DB.Holds(rs[m], pa) { assert Disjoint(rs[m], rs[k]); }
    assert DB.InRegion(rs, k, pa);
  }

  lemma TargetHeld(r: DB.Region, u: int)
    requires r.length % PAGE_SIZE == 0 && HasPage(r, u)
    ensures Target(r, u) >= 0 && DB.Holds(r, Target(r, u)) && (Target(r, u) - r.start) / PAGE_SIZE == u - First(r)
  {
    assert r.length == r.length / PAGE_SIZE * PAGE_SIZE;
  }

  // --------------------------------------------------------------- write permission

  /** Whether the guest's writes to page u go through without a fault. */
  predicate CanWrite(pt: PT, u: nat) { View(pt, u).Some? && MayWrite(View(pt, u).value.attrs) }

  /** By page number. */
  ghost function Writable(pt: PT, rs: Regions): (r: seq<bool>)
    requires Placed(rs)
    ensures |r| == DB.PagesBefore(rs, |rs|)
    ensures forall p :: 0 <= p < |r| ==> IpaPage(rs, p) >= 0 && r[p] == CanWrite(pt, IpaPage(rs, p))
  {
    seq(DB.PagesBefore(rs, |rs|), p requires 0 <= p < DB.PagesBefore(rs, |rs|) =>
      IpaPageWithin(rs, p); CanWrite(pt, IpaPage(rs, p)))
  }

  lemma PermittedWrite(l: Leaf, ap: nat)
    requires IsAp(ap)
    ensures Permitted(Some(l), ap).Some? && OnlyAp(l, Permitted(Some(l), ap).value)
    ensures MayRead(Permitted(Some(l), ap).value.attrs) <==> ap / 64 % 2 == 1
    ensures MayWrite(Permitted(Some(l), ap).value.attrs) <==> ap / 128 % 2 == 1
  {
    WithApOk(l.attrs, ap);
    ApGrants(l.attrs, ap);
  }

  lemma PermittedRo(l: Leaf)
    ensures Permitted(Some(l), AP_RO).Some? && OnlyAp(l, Permitted(Some(l), AP_RO).value)
    ensures MayRead(Permitted(Some(l), AP_RO).value.attrs) && !MayWrite(Permitted(Some(l), AP_RO).value.attrs)
  {
    PermittedWrite(l, AP_RO);
  }

  lemma PermittedRw(l: Leaf)
    ensures Permitted(Some(l), AP_RW).Some? && OnlyAp(l, Permitted(Some(l), AP_RW).value)
    ensures MayRead(Permitted(Some(l), AP_RW).value.attrs) && MayWrite(Permitted(Some(l), AP_RW).value.attrs)
  {
    PermittedWrite(l, AP_RW);
  }

  /** The leaves differ in bits 7:6 of their attributes at most. */
  predicate OnlyAp(l: Leaf, m: Leaf) { m.pa == l.pa && m.attrs % 64 == l.attrs % 64 && m.attrs / 256 == l.attrs / 256 }

  /** The guest's address a bytes into the region is translated to the region's address
      there, and may be read and written as said. */
  predicate Permits(pt: PT, r: DB.Region, a: nat, read: bool, write: bool) {
    var ipa := r.start + r.offset + a;
    && ipa >= 0 && View(pt, ipa / 4096).Some?
    && var l := View(pt, ipa / 4096).value;
      l.pa == r.start + a - a % 4096 && MayRead(l.attrs) == read && MayWrite(l.attrs) == write
  }

  /** The same for every address of every region. */
  ghost predicate AllPermit(pt: PT, rs: Regions, read: bool, write: bool) {
    forall k, a: nat {:trigger Permits(pt, rs[k], a, read, write)} ::
      0 <= k < |rs| && a < rs[k].length ==> Permits(pt, rs[k], a, read, write)
  }

  /** The guest page of the address a bytes into region k. */
  lemma AddressPage(rs: Regions, k: nat, a: nat) returns (u: nat)
    requires Placed(rs) && k < |rs| && a < rs[k].length
    ensures u == (rs[k].start + rs[k].offset + a) / 4096 && u < PAGES && HasPage(rs[k], u)
    ensures Target(rs[k], u) == rs[k].start + a - a % 4096
  {
    var r := rs[k];
    assert IpaStart(r) == First(r) * PAGE_SIZE && r.length == r.length / PAGE_SIZE * PAGE_SIZE;
    u := (r.start + r.offset + a) / 4096;
    assert u == First(r) + a / 4096;
  }

  /** Every leaf of q is pt's but for the permission. */
  ghost predicate AllOnlyAp(pt: PT, q: PT) {
    forall u: nat {:trigger View(q, u)} :: u < PAGES ==>
      (View(q, u).Some? <==> View(pt, u).Some?) && (View(q, u).Some? ==> OnlyAp(View(pt, u).value, View(q, u).value))
  }

  lemma RepermittedOnlyAp(pt: PT, q: PT, on: iset<int>, ap: nat)
    requires Repermitted(pt, q, on, ap) && IsAp(ap)
    ensures AllOnlyAp(pt, q)
  {
    forall u: nat | u < PAGES
      ensures (View(q, u).Some? <==> View(pt, u).Some?)
        && (View(q, u).Some? ==> OnlyAp(View(pt, u).value, View(q, u).value))
    {
      if View(pt, u).Some? { PermittedWrite(View(pt, u).value, ap); }
    }
  }

  /** What a permission on all the guest's pages grants. */
  lemma RepermittedGrants(pt: PT, q: PT, rs: Regions, ap: nat, read: bool, write: bool)
    requires Laid(pt, rs) && Repermitted(pt, q, PagesUpTo(rs, |rs|), ap) && IsAp(ap)
    requires read == (ap / 64 % 2 == 1) && write == (ap / 128 % 2 == 1)
    ensures AllPermit(q, rs, read, write)
  {
    forall k, a: nat {:trigger Permits(q, rs[k], a, read, write)} | 0 <= k < |rs| && a < rs[k].length
      ensures Permits(q, rs[k], a, read, write)
    {
      var u := AddressPage(rs, k, a);
      assert MappedTo(pt, rs[k], u) && InFirst(rs, |rs|, u);
      PermittedWrite(View(pt, u).value, ap);
    }
  }

  // ------------------------------------------------------------- changing permissions

  /** q is pt but for the permission of the pages in `on`, which is now ap. */
  ghost predicate Repermitted(pt: PT, q: PT, on: iset<int>, ap: nat) {
    && (forall u: nat {:trigger View(q, u)} :: u < PAGES ==>
          View(q, u) == if u in on then Permitted(View(pt, u), ap) else View(pt, u))
    && (forall u: nat {:trigger InBlock(q, u)} :: u < PAGES ==> InBlock(q, u) == InBlock(pt, u))
  }

  predicate InFirst(rs: Regions, i: nat, u: int)
    requires i <= |rs|
  {
    exists k :: 0 <= k < i && HasPage(rs[k], u)
  }

  ghost function PagesOf(r: DB.Region): iset<int> { iset u: int | HasPage(r, u) }

  /** The guest pages of the first i regions. */
  ghost function PagesUpTo(rs: Regions, i: nat): iset<int>
    requires i <= |rs|
  {
    iset u: int | InFirst(rs, i, u)
  }

  /** Permissions are not part of the layout. */
  lemma StaysLaid(pt: PT, q: PT, rs: Regions, on: iset<int>, ap: nat)
    requires Laid(pt, rs) && Repermitted(pt, q, on, ap)
    ensures Laid(q, rs)
  {
    forall k, u: nat | 0 <= k < |rs| && HasPage(rs[k], u) ensures MappedTo(q, rs[k], u) && BlockWithin(q, rs[k], u) {
      assert MappedTo(pt, rs[k], u) && BlockWithin(pt, rs[k], u);
      assert View(q, u) == View(pt, u) || View(q, u) == Permitted(View(pt, u), ap);
      assert InBlock(q, u) == InBlock(pt, u);
    }
  }

  /** The walk over one region changes that region and nothing else. */
  lemma {:induction false} RegionWalk(pt: PT, slot: map<nat, Slot>, rs: Regions, k: nat, ap: nat)
    requires Good(pt, slot) && Laid(pt, rs) && k < |rs|
    ensures var q := Access(pt, First(rs[k]), Last(rs[k]), ap, 0, 0).0;
      Good(q, slot) && Repermitted(pt, q, PagesOf(rs[k]), ap)
  {
    var r := rs[k];
    var v, end := First(r), Last(r);
    forall u: nat | v <= u < end ensures View(pt, u) != None { assert MappedTo(pt, r, u); }
    if v < end { assert BlockWithin(pt, r, v); }
    AccessCovers(pt, slot, v, end, ap, 0, 0);
    forall u: nat | u < PAGES ensures Reached(pt, v, end, u) <==> HasPage(r, u) { OnlyRegion(pt, rs, k, u); }
  }

  lemma OnlyRegion(pt: PT, rs: Regions, k: nat, u: nat)
    requires Laid(pt, rs) && k < |rs|
    ensures Reached(pt, First(rs[k]), Last(rs[k]), u) <==> HasPage(rs[k], u)
  {
    var r := rs[k];
    var v, end := First(r), Last(r);
    if v < end && InBlock(pt, u) && v / 512 <= u / 512 && 512 * (u / 512) < end {
      var w := if 512 * (u / 512) < v then v else 512 * (u / 512);
      assert w / 512 == u / 512;
      SameChunk(pt, u, w);
      assert BlockWithin(pt, r, w);
    }
  }

  /** One more region. */
  lemma RegionMore(pt: PT, p: PT, q: PT, rs: Regions, i: nat, ap: nat)
    requires Separate(rs) && i < |rs| && Repermitted(pt, p, PagesUpTo(rs, i), ap)
      && Repermitted(p, q, PagesOf(rs[i]), ap)
    ensures Repermitted(pt, q, PagesUpTo(rs, i + 1), ap)
  {
    forall u: nat | u < PAGES
      ensures View(q, u) == if u in PagesUpTo(rs, i + 1) then Permitted(View(pt, u), ap) else View(pt, u)
      ensures InBlock(q, u) == InBlock(pt, u)
    {
      assert InBlock(p, u) == InBlock(pt, u);
      assert View(p, u) == if InFirst(rs, i, u) then Permitted(View(pt, u), ap) else View(pt, u);
      NextFirst(rs, i, u);
    }
  }

  lemma NextFirst(rs: Regions, i: nat, u: int)
    requires Separate(rs) && i < |rs|
    ensures InFirst(rs, i + 1, u) <==> InFirst(rs, i, u) || HasPage(rs[i], u)
    ensures !(InFirst(rs, i, u) && HasPage(rs[i], u))
  {
    forall k | 0 <= k < i ensures !(HasPage(rs[k], u) && HasPage(rs[i], u)) { assert Disjoint(rs[k], rs[i]); }
  }

  /** After the loop over all regions no page of the guest is writable. */
  lemma {:induction false} AllProtected(pt: PT, q: PT, rs: Regions)
    requires Laid(pt, rs) && Repermitted(pt, q, PagesUpTo(rs, |rs|), AP_RO)
    ensures forall p :: 0 <= p < DB.PagesBefore(rs, |rs|) ==> !Writable(q, rs)[p]
  {
    forall p | 0 <= p < DB.PagesBefore(rs, |rs|) ensures !Writable(q, rs)[p] {
      IpaPageWithin(rs, p);
      var k, u := RegionOf(rs, |rs|, p), IpaPage(rs, p);
      assert MappedTo(pt, rs[k], u) && InFirst(rs, |rs|, u);
      PermittedRo(View(pt, u).value);
    }
  }

  // ------------------------------------------------------------------------ one fault

  /** The first page of u's leaf. */
  function LeafStart(pt: PT, u: nat): nat { if InBlock(pt, u) then 512 * (u / 512) else u }

  /** One permission walk on a page of region k: its leaf, and nothing else, gets the
      permission, and the walk returns where the leaf starts and how long it is. */
  lemma FaultWalk(pt: PT, slot: map<nat, Slot>, rs: Regions, k: nat, u: nat, ap: nat)
    requires Good(pt, slot) && Laid(pt, rs) && k < |rs| && HasPage(rs[k], u)
    ensures var (q, pa, size) := Access(pt, u, u + 1, ap, 0, 0); var b, n := LeafStart(pt, u), Stride(pt, u);
      && Good(q, slot) && Repermitted(pt, q, PageRun(b, n), ap)
      && First(rs[k]) <= b && b + n <= Last(rs[k]) && pa == Target(rs[k], b) && size == n * PAGE_SIZE
  {
    var b := LeafStart(pt, u);
    assert MappedTo(pt, rs[k], u) && BlockWithin(pt, rs[k], u);
    assert MappedTo(pt, rs[k], b);
    AccessOne(pt, slot, u, ap);
    SetApView(pt, slot, u, ap);
  }

  predicate InRun(b: int, n: nat, u: int) { b <= u < b + n }

  ghost function PageRun(b: int, n: nat): iset<int> { iset u: int | InRun(b, n, u) }

  lemma {:induction false} PageMapped(pt: PT, rs: Regions, p: nat)
    requires Laid(pt, rs) && p < DB.PagesBefore(rs, |rs|)
    ensures 0 <= IpaPage(rs, p) < PAGES && View(pt, IpaPage(rs, p)).Some?
  {
    IpaPageWithin(rs, p);
    assert MappedTo(pt, rs[RegionOf(rs, |rs|, p)], IpaPage(rs, p));
  }

  lemma WriteGranted(pt: PT, q: PT, on: iset<int>, u: nat)
    requires Repermitted(pt, q, on, AP_RW) && u < PAGES && View(pt, u).Some?
    ensures CanWrite(q, u) <==> CanWrite(pt, u) || u in on
  {
    PermittedRw(View(pt, u).value);
  }

  /** Those pages, and no others, become writable. */
  lemma {:induction false} FaultWritable(pt: PT, q: PT, rs: Regions, k: nat, b: int, n: nat, p: nat)
    requires Laid(pt, rs) && k < |rs| && First(rs[k]) <= b && b + n <= Last(rs[k])
    requires Repermitted(pt, q, PageRun(b, n), AP_RW) && p < DB.PagesBefore(rs, |rs|)
    ensures Writable(q, rs)[p] <==> Writable(pt, rs)[p] || Number(rs, k, b) <= p < Number(rs, k, b) + n
  {
    PageMapped(pt, rs, p);
    WriteGranted(pt, q, PageRun(b, n), IpaPage(rs, p));
    RunOfNumbers(rs, k, b, n, p);
  }

  /** The same by numbers: the leaf's pages are the n numbers from p on. */
  lemma FaultNumbers(pt: PT, q: PT, rs: Regions, k: nat, u: nat, b: nat, n: nat) returns (p: nat)
    requires Laid(pt, rs) && k < |rs| && First(rs[k]) <= b <= u < b + n <= Last(rs[k])
      && Repermitted(pt, q, PageRun(b, n), AP_RW)
    ensures p + n <= DB.PagesBefore(rs, |rs|) && Target(rs[k], b) >= 0 && DB.Numbers(rs, Target(rs[k], b), p)
    ensures exists i :: p <= i < p + n && IpaPage(rs, i) == u
    ensures forall i :: 0 <= i < DB.PagesBefore(rs, |rs|) ==>
      (Writable(q, rs)[i] <==> Writable(pt, rs)[i] || p <= i < p + n)
  {
    NumberOk(rs, k, b);
    NumberOk(rs, k, u);
    NumberOk(rs, k, b + n - 1);
    TargetNumber(rs, k, b);
    p := Number(rs, k, b);
    assert p <= Number(rs, k, u) < p + n;
    forall i: nat | i < DB.PagesBefore(rs, |rs|)
      ensures Writable(q, rs)[i] <==> Writable(pt, rs)[i] || p <= i < p + n
    {
      FaultWritable(pt, q, rs, k, b, n, i);
    }
  }

  /** All the fault handler needs: the address the walk returns has the number of the
      leaf's first page. */
  lemma FaultLeaf(pt: PT, slot: map<nat, Slot>, q: PT, rs: Regions, u: nat, pa: nat, size: nat) returns (p: nat)
    requires Good(pt, slot) && Laid(pt, rs) && InFirst(rs, |rs|, u)
      && (q, pa, size) == Access(pt, u, u + 1, AP_RW, 0, 0)
    ensures var n := Stride(pt, u);
      && size == n * PAGE_SIZE && p + n <= DB.PagesBefore(rs, |rs|) && DB.Inside(rs, pa) && DB.Numbers(rs, pa, p)
      && (exists i :: p <= i < p + n && IpaPage(rs, i) == u)
      && forall i :: 0 <= i < DB.PagesBefore(rs, |rs|) ==>
        (Writable(q, rs)[i] <==> Writable(pt, rs)[i] || p <= i < p + n)
  {
    var k :| 0 <= k < |rs| && HasPage(rs[k], u);
    var b, n := LeafStart(pt, u), Stride(pt, u);
    FaultWalk(pt, slot, rs, k, u, AP_RW);
    TargetNumber(rs, k, b);
    p := FaultNumbers(pt, q, rs, k, u, b, n);
  }

  /** Page w is in the leaf of page u. */
  predicate SameLeaf(pt: PT, u: nat, w: nat) { if InBlock(pt, u) then w / 512 == u / 512 else w == u }

  /** From pt to q page w keeps its address and its other attributes, and may now be
      read and written; or nothing about it changes. */
  predicate Opens(pt: PT, q: PT, w: nat, open: bool) {
    if open then Opened(View(pt, w), View(q, w)) else View(q, w) == View(pt, w)
  }

  /** The leaf of u can be read and written; no other page changes. */
  ghost predicate LeafOpened(pt: PT, q: PT, u: nat) {
    forall w: nat {:trigger Opens(pt, q, w, SameLeaf(pt, u, w))} {:trigger View(q, w)} :: w < PAGES ==>
      Opens(pt, q, w, SameLeaf(pt, u, w))
  }

  /** From r to m a leaf stays one, with its address and its other attributes, and can be
      read and written. */
  predicate Opened(r: Option<Leaf>, m: Option<Leaf>) {
    if r.None? then m.None? else
    m.Some? && OnlyAp(r.value, m.value) && MayRead(m.value.attrs) && MayWrite(m.value.attrs)
  }

  lemma PermittedOpened(r: Option<Leaf>)
    ensures Opened(r, Permitted(r, AP_RW))
  {
    if r.Some? { PermittedRw(r.value); }
  }

  lemma PermittedOpens(pt: PT, q: PT, u: nat)
    requires forall w :: 0 <= w < PAGES ==>
      View(q, w) == if w == u || (InBlock(pt, u) && w / 512 == u / 512) then Permitted(View(pt, w), AP_RW)
        else View(pt, w)
    ensures LeafOpened(pt, q, u)
  {
    forall w: nat | w < PAGES ensures Opens(pt, q, w, SameLeaf(pt, u, w)) {
      PermittedOpened(View(pt, w));
    }
  }

  lemma NothingOpens(pt: PT, u: nat)
    requires u < PAGES && View(pt, u) == None
    ensures LeafOpened(pt, pt, u)
  {
    forall w: nat | w < PAGES ensures Opens(pt, pt, w, SameLeaf(pt, u, w)) {
      if SameLeaf(pt, u, w) && w != u { SameChunk(pt, u, w); }
    }
  }

  lemma WalkOpens(pt: PT, slot: map<nat, Slot>, u: nat)
    requires Good(pt, slot) && u < PAGES
    ensures LeafOpened(pt, Access(pt, u, u + 1, AP_RW, 0, 0).0, u)
  {
    if View(pt, u) == None {
      NoLeaf(pt, u, AP_RW);
      NothingOpens(pt, u);
    } else {
      AccessOne(pt, slot, u, AP_RW);
      SetApView(pt, slot, u, AP_RW);
      PermittedOpens(pt, Apply(pt, SetAp(u, AP_RW)), u);
    }
  }

  lemma NoLeaf(pt: PT, u: nat, ap: nat)
    requires u < PAGES && View(pt, u) == None
    ensures Access(pt, u, u + 1, ap, 0, 0) == (pt, 0, 0)
  {
    var _ := SkipStep(pt, u, u + 1, ap, 0, 0);
  }

  /** Whatever page it is called on, the walk leaves the layout as it is. */
  lemma WalkStaysLaid(pt: PT, slot: map<nat, Slot>, rs: Regions, u: nat, ap: nat)
    requires Good(pt, slot) && Laid(pt, rs) && u < PAGES
    ensures var q := Access(pt, u, u + 1, ap, 0, 0).0; Good(q, slot) && Laid(q, rs)
  {
    if View(pt, u) == None {
      NoLeaf(pt, u, ap);
    } else {
      AccessOne(pt, slot, u, ap);
      SetApView(pt, slot, u, ap);
      var b, n := LeafStart(pt, u), Stride(pt, u);
      var q := Apply(pt, SetAp(u, ap));
      assert Repermitted(pt, q, PageRun(b, n), ap);
      StaysLaid(pt, q, rs, PageRun(b, n), ap);
    }
  }

  /** On a page outside the guest's regions the walk changes no page of the guest, and
      returns the address of that page's leaf. */
  lemma {:induction false} OutsideWalk(pt: PT, slot: map<nat, Slot>, rs: Regions, u: nat)
    requires Good(pt, slot) && Laid(pt, rs) && u < PAGES && !InFirst(rs, |rs|, u)
    ensures var (q, pa, size) := Access(pt, u, u + 1, AP_RW, 0, 0);
      Writable(q, rs) == Writable(pt, rs) && pa == LeafPa(pt, u)
  {
    if View(pt, u) == None {
      NoLeaf(pt, u, AP_RW);
    } else {
      AccessOne(pt, slot, u, AP_RW);
      SetApView(pt, slot, u, AP_RW);
      var q := Apply(pt, SetAp(u, AP_RW));
      forall p: nat | p < DB.PagesBefore(rs, |rs|) ensures Writable(q, rs)[p] == Writable(pt, rs)[p] {
        OutsideApart(pt, rs, u, p);
      }
    }
  }

  /** Where the leaf of a page points, 0 if there is none. */
  function LeafPa(pt: PT, u: nat): nat {
    if View(pt, u).Some? && View(pt, LeafStart(pt, u)).Some? then View(pt, LeafStart(pt, u)).value.pa else 0
  }

  /** A guest page shares no leaf with a page outside. */
  lemma {:induction false} OutsideApart(pt: PT, rs: Regions, u: nat, p: nat)
    requires Laid(pt, rs) && !InFirst(rs, |rs|, u) && p < DB.PagesBefore(rs, |rs|)
    ensures var w := IpaPage(rs, p); 0 <= w < PAGES && w != u && !(InBlock(pt, u) && w / 512 == u / 512)
  {
    IpaPageWithin(rs, p);
    var k, w := RegionOf(rs, |rs|, p), IpaPage(rs, p);
    assert BlockWithin(pt, rs[k], w);
    assert !HasPage(rs[k], u);
    if w / 512 == u / 512 { SameChunk(pt, u, w); }
  }
}
