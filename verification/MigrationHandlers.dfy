/** The handlers of a migration as the code that updates the guest's state in
    place, its stage-2 table and its dirty bitmap included, each proved to be one
    event of the protocol. */
module MigrationHandlers {
  import opened Barrier
  import opened Migration
  import opened DirtyBitmap
  import opened Arith
  import opened Descriptors
  import PageTable
  import AddressSpace
  import opened AccessPermission
  import opened Stage2Table
  import opened GuestMemory

  /** Page u is one of the pages t, which are a leaf of this address and size. */
  ghost predicate LeafIn(rs: Regions, u: nat, pa: nat, size: nat, t: Span) {
    && size == t.n * DirtyBitmap.PAGE_SIZE && Numbers(rs, pa, t.p)
    && t.p + t.n <= PagesBefore(rs, |rs|) && exists i :: Spans(t, i) && IpaPage(rs, i) == u
  }

  /** The walk on a page of the guest, by page numbers. */
  lemma LeafSpan(pt: PageTable.PT, slot: map<nat, PageTable.Slot>, q: PageTable.PT, rs: Regions, u: nat, pa: nat,
      size: nat)
      returns (t: Span)
    requires AddressSpace.Good(pt, slot) && Laid(pt, rs) && InFirst(rs, |rs|, u)
      && (q, pa, size) == Access(pt, u, u + 1, AP_RW, 0, 0)
    ensures t.n == Stride(pt, u) && LeafIn(rs, u, pa, size, t)
    ensures Writable(q, rs) == Raise(Writable(pt, rs), t.p, t.n)
  {
    var p := FaultLeaf(pt, slot, q, rs, u, pa, size);
    t := Span(p, Stride(pt, u));
    assert exists i :: Spans(t, i) && IpaPage(rs, i) == u by {
      var i :| p <= i < p + t.n && IpaPage(rs, i) == u;
      assert Spans(t, i);
    }
    Raised(Writable(pt, rs), Writable(q, rs), p, t.n);
  }

  lemma Raised(v: seq<bool>, w: seq<bool>, p: nat, n: nat)
    requires |v| == |w| && forall i :: 0 <= i < |w| ==> (w[i] <==> v[i] || p <= i < p + n)
    ensures w == Raise(v, p, n)
  {
  }

  class Guest {
    const table: Table
    const map_: FlexBitmap
    const regions: seq<Region>
    ghost var src: seq<nat>
    ghost var dst: seq<nat>
    var pending: set<nat>
    var phase: Phase
    var barrierNum: nat
    var count: nat
    var cores: seq<Core>
    ghost var late: set<nat>
    ghost var open: map<nat, Span>

    /** A guest whose regions the table maps, with this memory and this many vCPUs;
        the barrier's count is what earlier uses left. */
    constructor (table: Table, regions: seq<Region>, ghost memory: seq<nat>, ghost target: seq<nat>, vcpus: nat,
        left: nat)
      requires table.Valid() && Laid(table.State(), regions)
      requires |memory| == |target| == PagesBefore(regions, |regions|) && vcpus > 0
      ensures Valid() && Migration.Start(State()) && fresh(map_) && this.table == table && this.regions == regions
      ensures State().sync.count == left && |State().sync.cores| == vcpus
    {
      this.table, this.regions := table, regions;
      var pages := 0;
      for i := 0 to |regions|
        invariant pages == PagesBefore(regions, i)
      {
        pages := pages + regions[i].length / DirtyBitmap.PAGE_SIZE;
      }
      map_ := new FlexBitmap(pages);
      src, dst := memory, target;
      pending, phase, late, open := {}, Before, {}, map[];
      barrierNum, count, cores := 0, left, seq(vcpus, _ => Core(0, false, 0));
    }

    /** Which pages are writable is what the table says. */
    ghost function State(): Vm
      requires Placed(regions)
      reads this, map_, table
    {
      Vm(src, dst, map_.Bits(), pending, Writable(table.State(), regions), phase, Sync(barrierNum, count, cores),
         late, open)
    }

    /** The table maps every region, and the bitmap has a bit for each page. */
    ghost predicate Valid()
      reads this, map_, table
    {
      && table.Valid() && Laid(table.State(), regions)
      && map_.Valid() && map_.len == PagesBefore(regions, |regions|) && |src| == |dst| == map_.len
    }

    /** `pt_read_only`: after the walk over every region the guest can read all its
        memory and write none of it; nothing but the permission changes. */
    method PtReadOnly()
      requires Valid()
      modifies table`mem
      ensures Valid() && State() == Protect(old(State()))
      ensures AllPermit(table.State(), regions, true, false) && AllOnlyAp(old(table.State()), table.State())
    {
      ghost var pt := table.State();
      for i := 0 to |regions|
        invariant Valid() && Repermitted(pt, table.State(), PagesUpTo(regions, i), AP_RO)
      {
        ghost var p := table.State();
        ghost var slot :| AddressSpace.Good(p, slot);
        var _, _ := table.SetAccess(First(regions[i]), Last(regions[i]), AP_RO);
        RegionWalk(p, slot, regions, i, AP_RO);
        RegionMore(pt, p, table.State(), regions, i, AP_RO);
        StaysLaid(p, table.State(), regions, PagesOf(regions[i]), AP_RO);
      }
      AllProtected(pt, table.State(), regions);
      RepermittedGrants(pt, table.State(), regions, AP_RO, true, false);
      RepermittedOnlyAp(pt, table.State(), PagesUpTo(regions, |regions|), AP_RO);
      assert Writable(table.State(), regions) == Bits(PagesBefore(regions, |regions|), false);
    }

    /** How many bits of the bitmap the manager's copy holds. */
    ghost function Held(): nat
      reads this, map_
    {
      CopyBits(|map_.words|)
    }

    /** `vm_if_copy_mem_map`: the manager gets the marked pages, as far as its copy goes;
        the map is cleared. */
    method CopyMemMap()
      requires Valid()
      modifies this`pending, map_
      ensures Valid() && |map_.words| == |old(map_.words)|
      ensures State() == SnapshotIn(old(State()), Held())
      ensures |old(map_.Bits())| <= Held() ==> State() == Snapshot(old(State()))
    {
      ghost var bits := map_.Bits();
      var pages, held := {}, CopyBits(|map_.words|);
      for p := 0 to 64 * |map_.words|
        invariant map_.words == old(map_.words) && pages == set i: nat | i < p && bits[i] && i < held
      {
        FlatAt(map_.words, p);
        if p < held && map_.words[p / 64][p % 64] { pages := pages + {p}; }
      }
      assert pages == MarkedBelow(bits, held);
      pending := pages;
      map_.Fill(false);
      assert map_.Bits() == Bits(|bits|, false);
      if |bits| <= held { WholeCopy(old(State()), held); }
    }

    /** `mvm_migrate_memory`. */
    method MigrateMemory()
      requires Valid()
      modifies this`pending, map_, table`mem
      ensures Valid() && |map_.words| == |old(map_.words)|
      ensures State() == SnapshotIn(Protect(old(State())), Held())
      ensures |old(map_.Bits())| <= Held() ==> State() == Snapshot(Protect(old(State())))
      ensures AllPermit(table.State(), regions, true, false) && AllOnlyAp(old(table.State()), table.State())
    {
      PtReadOnly();
      CopyMemMap();
    }

    /** The READY hypercall, an event of the protocol if the copy holds the bitmap. */
    method OnReady()
      requires Valid() && phase == Before
      modifies this`pending, this`phase, map_, table`mem
      ensures Valid() && |map_.words| == |old(map_.words)|
      ensures var s := SnapshotIn(Protect(old(State())), Held());
        State() == s.(dirty := Bits(|s.dirty|, true), phase := Copying)
      ensures |old(map_.Bits())| <= Held() ==> State() == Migration.Do(old(State()), Ready)
      ensures AllPermit(table.State(), regions, true, false) && AllOnlyAp(old(table.State()), table.State())
    {
      MigrateMemory();
      ghost var n := |map_.Bits()|;
      map_.Fill(true);
      assert map_.Bits() == Bits(n, true);
      phase := Copying;
    }

    /** The MEMCPY hypercall: another round, or the stop of all vCPUs; an event of
        the protocol once the manager has copied the last snapshot, if the copy holds
        the bitmap. */
    method OnMemcpy() returns (stop: bool)
      requires Valid() && phase == Copying
      modifies this`pending, this`phase, this`barrierNum, map_, table`mem
      ensures Valid()
      ensures stop == (|set i: nat | i < |old(map_.Bits())| && old(map_.Bits())[i]| < 0x2000)
      ensures State() == if stop then StopVm(old(State())) else SnapshotIn(Protect(old(State())), Held())
      ensures old(pending) == {} && |old(map_.Bits())| <= Held() ==>
        State() == Migration.Do(old(State()), if stop then StopAll else Round)
      ensures !stop ==>
        AllPermit(table.State(), regions, true, false) && AllOnlyAp(old(table.State()), table.State())
    {
      var dirty := map_.Sum();
      stop := dirty < DIRTY_MEM_THRESHOLD;
      if stop {
        barrierNum := |cores|;
        phase := Stopping;
      } else {
        MigrateMemory();
      }
    }

    /** Page u is one of the pages t, which are a leaf of this address and size. */
    ghost predicate IsLeaf(u: nat, pa: nat, size: nat, t: Span) {
      t.p + t.n <= map_.len && LeafIn(regions, u, pa, size, t)
    }

    /** `pt_set_access_permission`: one page's leaf can be read and written, and no
        other page changes; for a page of the guest the leaf is the pages t. */
    method PtSetAccess(u: nat) returns (pa: nat, size: nat, ghost t: Span)
      requires Valid() && u < AddressSpace.PAGES
      modifies table`mem
      ensures Valid() && t.n == Stride(old(table.State()), u) && (t.n == 1 || t.n == 512)
      ensures LeafOpened(old(table.State()), table.State(), u)
      ensures InFirst(regions, |regions|, u) ==>
        IsLeaf(u, pa, size, t)
          && Writable(table.State(), regions) == Raise(old(Writable(table.State(), regions)), t.p, t.n)
      ensures !InFirst(regions, |regions|, u) ==>
        pa == LeafPa(old(table.State()), u) && Writable(table.State(), regions) == old(Writable(table.State(), regions))
    {
      ghost var pt := table.State();
      ghost var slot :| AddressSpace.Good(pt, slot);
      t := Span(0, Stride(pt, u));
      pa, size := table.SetAccess(u, u + 1, AP_RW);
      WalkStaysLaid(pt, slot, regions, u, AP_RW);
      WalkOpens(pt, slot, u);
      if InFirst(regions, |regions|, u) {
        t := LeafSpan(pt, slot, table.State(), regions, u, pa, size);
      } else {
        OutsideWalk(pt, slot, regions, u);
      }
    }

    /** The loop over the regions, then `set_bits`: n bits from p on, if they are the
        leaf's; fails where either panics. */
    method MarkLeaf(pa: nat, size: nat, ghost p: nat, ghost n: nat) returns (ok: bool)
      requires Valid()
      modifies map_
      ensures map_.Valid() && |map_.Bits()| == |old(map_.Bits())|
      ensures !Inside(regions, pa) ==> !ok && map_.words == old(map_.words)
      ensures Numbers(regions, pa, p) && size == n * DirtyBitmap.PAGE_SIZE && p + n <= map_.len ==>
        && (ok <==> n == 1 || (p % 64 == 0 && n % 64 == 0))
        && map_.Bits() == if ok then Raise(old(map_.Bits()), p, n) else old(map_.Bits())
    {
      ghost var bits := map_.Bits();
      var bit := FaultBit(regions, pa);
      if bit.None? { return false; }
      if Numbers(regions, pa, p) { NumberingInjective(regions, pa, bit.value, pa, p); }
      WordRun(p, n);
      ok := map_.SetBits(bit.value, size / DirtyBitmap.PAGE_SIZE, true);
      if Numbers(regions, pa, p) && size == n * DirtyBitmap.PAGE_SIZE {
        assert map_.Bits() == if ok then Raise(bits, p, n) else bits;
      }
    }

    /** The first half of the fault handler, on a write to guest page u: the leaf of a
        page of the guest becomes writable, and is still to be marked. */
    method OnFault(ghost c: nat, u: nat) returns (pa: nat, size: nat, ghost t: Span)
      requires Valid() && u < AddressSpace.PAGES && Runs(State(), c) && c !in open
      modifies table`mem, this`open
      ensures Valid() && t.n == Stride(old(table.State()), u) && (t.n == 1 || t.n == 512)
      ensures InFirst(regions, |regions|, u) ==>
        && IsLeaf(u, pa, size, t)
        && Migration.Enabled(old(State()), Fault(c, t)) && State() == Migration.Do(old(State()), Fault(c, t))
      ensures LeafOpened(old(table.State()), table.State(), u)
      ensures !InFirst(regions, |regions|, u) ==> pa == LeafPa(old(table.State()), u) && State() == old(State())
    {
      pa, size, t := PtSetAccess(u);
      if InFirst(regions, |regions|, u) { open := open[c := t]; }
    }

    /** The second half: the leaf's pages are marked; fails where the code panics. */
    method OnLog(ghost c: nat, ghost u: nat, pa: nat, size: nat, ghost t: Span) returns (ok: bool)
      requires Valid() && (t.n == 1 || t.n == 512) && c in open && open[c] == t && IsLeaf(u, pa, size, t)
      modifies map_, this`open
      ensures Valid() && ok == (t.n == 1 || t.p % 64 == 0)
      ensures ok ==> State() == Migration.Do(old(State()), Log(c, t))
    {
      ok := MarkLeaf(pa, size, t.p, t.n);
      if ok { open := open - {c}; }
    }

    /** `migrate_data_abort_handler` on a write to guest page u: the walk makes the
        page's leaf writable, the loop over the regions finds the leaf's first bit,
        and its pages are marked.  `ok` is false where the code panics: for a page
        of the guest exactly when a 2 MB leaf does not start on a bitmap word.  For
        any other page nothing of the guest becomes writable, and unless its leaf
        points into the guest's regions the code panics with nothing marked. */
    method OnWriteFault(ghost c: nat, u: nat) returns (ok: bool, ghost t: Span)
      requires Valid() && u < AddressSpace.PAGES && Runs(State(), c) && c !in open
      modifies map_, table`mem, this`open
      ensures Valid() && t.n == Stride(old(table.State()), u)
      ensures LeafOpened(old(table.State()), table.State(), u)
      ensures InFirst(regions, |regions|, u) ==>
        ok == (t.n == 1 || t.p % 64 == 0) && exists pa, size :: IsLeaf(u, pa, size, t)
      ensures InFirst(regions, |regions|, u) && ok ==>
        && Migration.Enabled(old(State()), Fault(c, t))
        && Migration.Enabled(Migration.Do(old(State()), Fault(c, t)), Log(c, t))
        && State() == Migration.Do(Migration.Do(old(State()), Fault(c, t)), Log(c, t))
      ensures !InFirst(regions, |regions|, u) ==> State() == old(State()).(dirty := map_.Bits())
      ensures !InFirst(regions, |regions|, u) && !Inside(regions, LeafPa(old(table.State()), u)) ==>
        !ok && State() == old(State())
    {
      var pa, size;
      pa, size, t := OnFault(c, u);
      if InFirst(regions, |regions|, u) {
        ok := OnLog(c, u, pa, size, t);
      } else {
        ok := MarkLeaf(pa, size, t.p, t.n);
      }
    }

    /** A device backend is going to write at pa: the bit of its page is set; fails,
        where the code panics, exactly outside the guest's regions. */
    method OnDeviceMark(pa: nat) returns (ok: bool, ghost p: nat)
      requires Valid()
      modifies this`late, map_
      ensures Valid() && ok == Inside(regions, pa)
      ensures ok ==> Numbers(regions, pa, p) && Migration.Enabled(old(State()), Mark(p)) && p < |src|
      ensures State() == if ok then Migration.Do(old(State()), Mark(p)) else old(State())
    {
      ok, p := DeviceMark(regions, pa, map_);
      if ok {
        NumberSmall(regions, pa, p);
        if phase == Final { late := late + {p}; }
      }
    }

    /** The bytes themselves, copied by the hypervisor for a device, whether it marks
        pages or, like the mediated disk, does not. */
    method OnHostCopy(ghost p: nat, ghost v: nat)
      requires Valid() && p < |src|
      modifies this`src
      ensures Valid() && State() == Migration.Do(old(State()), SilentWrite(p, v))
    {
      src := src[p := v];
    }

    /** A device that marks first and then writes, with nothing in between. */
    method OnDeviceWrite(pa: nat, ghost v: nat) returns (ok: bool, ghost p: nat)
      requires Valid()
      modifies this`src, this`late, map_
      ensures Valid() && ok == Inside(regions, pa)
      ensures ok ==> Numbers(regions, pa, p) && Migration.RunEnabled(old(State()), [Mark(p), SilentWrite(p, v)])
      ensures ok ==> State() == Migration.Run(old(State()), [Mark(p), SilentWrite(p, v)])
      ensures ok ==> RunHeeds(old(State()), [Mark(p), SilentWrite(p, v)])
      ensures !ok ==> State() == old(State())
    {
      ok, p := OnDeviceMark(pa);
      if ok {
        OnHostCopy(p, v);
        MarkThenCopy(old(State()), p, v);
      }
    }

    /** The FINISH interrupt on a vCPU's core, up to the barrier: `func_barrier`
        takes a ticket. */
    method OnStop(c: nat)
      requires Valid() && Migration.Enabled(State(), Halt(c))
      modifies this`count, this`cores
      ensures Valid() && State() == Migration.Do(old(State()), Halt(c))
    {
      count := count + 1;
      cores := cores[c := Core(cores[c].arrived + 1, true, RoundUp(count, barrierNum))];
    }

    /** One look at the counter in the spin loop. */
    method Spin(c: nat) returns (through: bool)
      requires Valid() && (phase == Stopping || phase == Final) && c < |cores| && cores[c].waiting
      modifies this`cores
      ensures Valid() && through == Migration.Enabled(old(State()), Pass(c))
      ensures State() == if through then Migration.Do(old(State()), Pass(c)) else old(State())
    {
      through := count >= cores[c].target;
      if through { cores := cores[c := cores[c].(waiting := false)]; }
    }

    /** `migrate_finish_ipi_handler` on core 0. */
    method OnFinish()
      requires Valid() && Migration.Enabled(State(), LastSnapshot)
      modifies this`pending, this`phase, this`late, map_
      ensures Valid() && |map_.words| == |old(map_.words)|
      ensures State() == SnapshotIn(old(State()), Held()).(phase := Final, late := {})
      ensures |old(map_.Bits())| <= Held() ==> State() == Migration.Do(old(State()), LastSnapshot)
    {
      CopyMemMap();
      phase := Final;
      late := {};
    }
  }
}
