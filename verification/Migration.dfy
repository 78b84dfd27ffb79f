/** Pre-copy migration of a running guest: rounds of protect, snapshot and copy
    with dirty tracking by write faults, then a stop of all vCPUs behind the
    counting barrier and one last snapshot. */
module Migration {
  import opened Barrier

  const DIRTY_MEM_THRESHOLD := 0x2000

  datatype Phase = Before | Copying | Stopping | Final

  /** Page contents at the source and at the destination, the dirty bitmap, the
      snapshot pages not copied yet, the stage-2 write permissions, and the
      barrier with one core per vCPU.  `late` collects the pages marked after the
      last snapshot; `open` says which cores are inside the fault handler, between
      granting the permission and marking the pages, and for which. */
  datatype Vm = Vm(src: seq<nat>, dst: seq<nat>, dirty: seq<bool>, pending: set<nat>, writable: seq<bool>,
                   phase: Phase, sync: Sync, late: set<nat>, open: map<nat, Span>)

  /** Pages p to p + n - 1. */
  datatype Span = Span(p: nat, n: nat)

  predicate Spans(t: Span, i: nat) { t.p <= i < t.p + t.n }

  datatype Event =
    | Ready                                    // HVC_VMM_MIGRATE_READY
    | Write(c: nat, p: nat, v: nat)            // a vCPU writes a page it may write
    | Fault(c: nat, t: Span)                   // a vCPU's write faults on a leaf, which becomes writable
    | Log(c: nat, t: Span)                     // the same handler marks the leaf's pages
    | Mark(p: nat)                             // the hypervisor marks a page for a device
    | SilentWrite(p: nat, v: nat)              // the hypervisor writes a page for a device, marked or not
    | Copy(p: nat)                             // the manager copies a snapshot page, if there is such a page
    | Round                                    // HVC_VMM_MIGRATE_MEMCPY, many dirty pages
    | StopAll                                  // HVC_VMM_MIGRATE_MEMCPY, few dirty pages
    | Halt(c: nat)                             // a vCPU's core reaches the barrier
    | Pass(c: nat)                             // and gets through
    | LastSnapshot                             // core 0 handles the finish interrupt

  function Bits(n: nat, b: bool): (r: seq<bool>)
    ensures |r| == n && forall p :: 0 <= p < n ==> r[p] == b
  {
    seq(n, _ => b)
  }

  /** Bits p to p + n - 1 set. */
  function Raise(bits: seq<bool>, p: nat, n: nat): (r: seq<bool>)
    ensures |r| == |bits| && forall i :: 0 <= i < |bits| ==> r[i] == (bits[i] || p <= i < p + n)
  {
    seq(|bits|, i requires 0 <= i < |bits| => bits[i] || p <= i < p + n)
  }

  function Marked(bits: seq<bool>): (r: set<nat>)
    ensures forall p :: p in r <==> 0 <= p < |bits| && bits[p]
  {
    set p: nat | p < |bits| && bits[p]
  }

  function MarkedBelow(bits: seq<bool>, held: nat): set<nat> { set p | p in Marked(bits) && p < held }

  /** A vCPU runs guest code until its core has reached the barrier. */
  predicate Runs(s: Vm, c: nat) { c < |s.sync.cores| && s.sync.cores[c].arrived == 0 }

  predicate Enabled(s: Vm, e: Event) {
    match e
    case Ready => s.phase == Before
    case Write(c, p, _) => Runs(s, c) && c !in s.open && p < |s.src| && p < |s.writable| && s.writable[p]
    case Fault(c, t) => Runs(s, c) && c !in s.open && t.p + t.n <= |s.dirty| && t.p + t.n <= |s.writable|
    case Log(c, t) => c in s.open && s.open[c] == t
    case Mark(p) => p < |s.src| && p < |s.dirty|
    case SilentWrite(p, _) => p < |s.src|
    case Copy(p) => p in s.pending
    case Round => s.phase == Copying && s.pending == {} && |Marked(s.dirty)| >= DIRTY_MEM_THRESHOLD
    case StopAll => s.phase == Copying && s.pending == {} && |Marked(s.dirty)| < DIRTY_MEM_THRESHOLD
    case Halt(c) => s.phase == Stopping && Runs(s, c) && c !in s.open && Barrier.Enabled(s.sync, Arrive(c))
    case Pass(c) => (s.phase == Stopping || s.phase == Final) && Barrier.Enabled(s.sync, Leave(c))
    case LastSnapshot => s.phase == Stopping && |s.sync.cores| > 0 && Crossed(s.sync.cores[0]) >= 1
  }

  /** `pt_read_only`. */
  function Protect(s: Vm): Vm { s.(writable := Bits(|s.writable|, false)) }

  /** `vm_if_copy_mem_map`: copy the bitmap for the manager, then clear it. */
  function Snapshot(s: Vm): Vm { s.(pending := Marked(s.dirty), dirty := Bits(|s.dirty|, false)) }

  /** The same when the manager's copy holds only the first `held` bits. */
  function SnapshotIn(s: Vm, held: nat): Vm {
    s.(pending := MarkedBelow(s.dirty, held), dirty := Bits(|s.dirty|, false))
  }

  /** The stop of all vCPUs begins. */
  function StopVm(s: Vm): Vm { s.(phase := Stopping, sync := s.sync.(n := |s.sync.cores|)) }

  function Do(s: Vm, e: Event): Vm
    requires Enabled(s, e)
  {
    match e
    case Ready =>
      var s1 := Snapshot(Protect(s));
      s1.(dirty := Bits(|s.dirty|, true), phase := Copying)
    case Write(_, p, v) => s.(src := s.src[p := v])
    case Fault(c, t) => s.(writable := Raise(s.writable, t.p, t.n), open := s.open[c := t])
    case Log(c, t) => s.(dirty := Raise(s.dirty, t.p, t.n), open := s.open - {c})
    case Mark(p) => s.(dirty := s.dirty[p := true], late := if s.phase == Final then s.late + {p} else s.late)
    case SilentWrite(p, v) => s.(src := s.src[p := v])
    case Copy(p) =>
      s.(dst := if p < |s.src| && p < |s.dst| then s.dst[p := s.src[p]] else s.dst, pending := s.pending - {p})
    case Round => Snapshot(Protect(s))
    case StopAll => StopVm(s)
    case Halt(c) => s.(sync := Barrier.Do(s.sync, Arrive(c)))
    case Pass(c) => s.(sync := Barrier.Do(s.sync, Leave(c)))
    case LastSnapshot => Snapshot(s).(phase := Final, late := {})
  }

  predicate RunEnabled(s: Vm, es: seq<Event>)
    decreases |es|
  {
    es == [] || (Enabled(s, es[0]) && RunEnabled(Do(s, es[0]), es[1..]))
  }

  function Run(s: Vm, es: seq<Event>): Vm
    requires RunEnabled(s, es)
    decreases |es|
  {
    if es == [] then s else Run(Do(s, es[0]), es[1..])
  }

  /** A write of the hypervisor takes no fault, so nothing marks its page but the
      device's own code.  What such a write has to find: the page marked, or about to
      be marked by a fault handler, or waiting in the snapshot, or already with that
      content at the destination. */
  predicate Kept(s: Vm, p: nat, v: nat) {
    (p < |s.dst| && s.dst[p] == v) || (p < |s.dirty| && s.dirty[p]) || p in s.pending || Opened(s, p)
  }

  /** A fault on page p is half done: its handler is still going to mark the page. */
  predicate Opened(s: Vm, p: nat) { exists c :: c in s.open && Spans(s.open[c], p) }

  predicate Heeds(s: Vm, e: Event) { e.SilentWrite? ==> s.phase == Before || Kept(s, e.p, e.v) }

  /** Every write of the hypervisor on the way finds that. */
  predicate RunHeeds(s: Vm, es: seq<Event>)
    requires RunEnabled(s, es)
    decreases |es|
  {
    es == [] || (Heeds(s, es[0]) && RunHeeds(Do(s, es[0]), es[1..]))
  }

  predicate FreshCores(cores: seq<Core>) {
    forall c :: 0 <= c < |cores| ==> cores[c] == Core(0, false, 0)
  }

  /** The bitmap comes in whole words, so it may have bits past the last page. */
  predicate Sized(s: Vm) { |s.dst| == |s.src| == |s.writable| <= |s.dirty| }

  /** A guest with at least one vCPU before the migration. */
  predicate Start(s: Vm) {
    Sized(s) && s.phase == Before && s.pending == {} && s.open == map[] && s.sync.cores != []
      && FreshCores(s.sync.cores)
  }

  // ------------------------------------------------------------------- invariant

  /** Page p has arrived, or its bit is set, or it is in the snapshot to copy. */
  predicate Covered(s: Vm, p: nat)
    requires p < |s.src| && p < |s.dst| && p < |s.dirty|
  {
    s.dst[p] == s.src[p] || s.dirty[p] || p in s.pending
  }

  predicate Accounted(s: Vm, p: nat)
    requires p < |s.src| && p < |s.dst| && p < |s.dirty|
  {
    Covered(s, p) || Opened(s, p)
  }

  ghost predicate Tracked(s: Vm) {
    && Sized(s)
    && (s.phase != Before ==> forall p :: 0 <= p < |s.src| ==> Accounted(s, p))
    && (s.phase == Copying || s.phase == Stopping ==>
      forall p :: 0 <= p < |s.src| && s.writable[p] ==> s.dirty[p] || Opened(s, p))
    && (s.phase == Final ==> forall p :: 0 <= p < |s.src| ==> (s.dirty[p] <==> p in s.late))
  }

  /** Where the vCPUs are: c0 is the barrier's count when the stop began. */
  ghost predicate Stopped(s: Vm, c0: nat, m: nat) {
    match s.phase
    case Before => FreshCores(s.sync.cores) && s.sync.count == c0
    case Copying => FreshCores(s.sync.cores) && s.sync.count == c0
    case Stopping => Barrier.Inv(s.sync, c0, m) && s.pending == {}
    case Final => Barrier.Inv(s.sync, c0, m) && forall c :: 0 <= c < |s.sync.cores| ==> s.sync.cores[c].arrived >= 1
  }

  /** Only a core that runs can be inside the fault handler. */
  predicate OpenRuns(s: Vm) { forall c :: c in s.open ==> Runs(s, c) }

  ghost predicate Inv(s: Vm, c0: nat, m: nat) {
    Tracked(s) && OpenRuns(s) && Stopped(s, c0, m) && |s.sync.cores| > 0 && c0 % |s.sync.cores| == 0
  }

  lemma TrackedStep(s: Vm, e: Event)
    requires Tracked(s) && Enabled(s, e) && Heeds(s, e)
    requires s.phase == Final ==> (forall c :: !Runs(s, c)) && s.open == map[]
    requires e.LastSnapshot? ==> s.pending == {}
    ensures Tracked(Do(s, e))
  {
    var s' := Do(s, e);
    forall p | 0 <= p < |s'.src|
      ensures s'.phase != Before ==> Accounted(s', p)
      ensures s'.phase == Copying || s'.phase == Stopping ==> s'.writable[p] ==> s'.dirty[p] || Opened(s', p)
    {
      OpenedStep(s, e, p);
      assert s.phase != Before ==> Accounted(s, p);
    }
  }

  /** A handler marks its pages before it is out. */
  lemma OpenedStep(s: Vm, e: Event, p: nat)
    requires Enabled(s, e) && p < |s.dirty|
    ensures var s' := Do(s, e);
      && (Opened(s, p) ==> Opened(s', p) || (p < |s'.dirty| && s'.dirty[p]))
      && (e.Fault? && Spans(e.t, p) ==> Opened(s', p))
      && (Opened(s', p) ==> Opened(s, p) || (e.Fault? && Spans(e.t, p)))
  {
    var s' := Do(s, e);
    if Opened(s, p) {
      var c :| c in s.open && Spans(s.open[c], p);
      if e.Fault? || !(e.Log? && e.c == c) { assert c in s'.open && s'.open[c] == s.open[c]; }
    }
    if e.Fault? { assert s'.open[e.c] == e.t; }
    if Opened(s', p) {
      var c :| c in s'.open && Spans(s'.open[c], p);
      assert (e.Fault? && c == e.c) || (c in s.open && s.open[c] == s'.open[c]);
    }
  }

  lemma StoppedStep(s: Vm, e: Event, c0: nat, m: nat) returns (m': nat)
    requires Inv(s, c0, m) && Enabled(s, e)
    ensures Stopped(Do(s, e), c0, m') && |Do(s, e).sync.cores| == |s.sync.cores|
  {
    m' := m;
    match e
    case StopAll =>
      m' := 0;
      NoArrivals(s.sync.cores);
      assert s.sync.cores[0].arrived == 0;
    case Halt(c) =>
      m' := ArriveInv(s.sync, c0, m, c);
    case Pass(c) =>
      LeaveInv(s.sync, c0, m, c);
    case LastSnapshot =>
      forall c | 0 <= c < |s.sync.cores| ensures s.sync.cores[c].arrived >= 1 {
        assert CoreOk(s.sync.cores[c], c0, s.sync.n, m) && CoreOk(s.sync.cores[0], c0, s.sync.n, m);
      }
    case _ =>
  }

  lemma StepInv(s: Vm, e: Event, c0: nat, m: nat) returns (m': nat)
    requires Inv(s, c0, m) && Enabled(s, e) && Heeds(s, e)
    ensures Inv(Do(s, e), c0, m')
  {
    assert s.phase == Final ==> s.open == map[];
    TrackedStep(s, e);
    m' := StoppedStep(s, e, c0, m);
  }

  lemma {:induction false} RunInv(s: Vm, es: seq<Event>, c0: nat, m: nat) returns (m': nat)
    requires Inv(s, c0, m) && RunEnabled(s, es) && RunHeeds(s, es)
    ensures Inv(Run(s, es), c0, m')
    decreases |es|
  {
    if es == [] {
      m' := m;
    } else {
      var m1 := StepInv(s, es[0], c0, m);
      var s1 := Do(s, es[0]);
      assert Run(s, es) == Run(s1, es[1..]);
      m' := RunInv(s1, es[1..], c0, m1);
    }
  }

  // ------------------------------------------------------------------ main results

  /** In every state reached after READY, whatever the interleaving, as long as every
      write of the hypervisor finds its page accounted for, each page has arrived, is
      marked dirty or waits in the snapshot, and while vCPUs run, every page they may
      write without a fault is marked, both unless a fault on the page is half done. */
  lemma {:induction false} DirtyTracking(s: Vm, es: seq<Event>, p: nat)
    requires Start(s) && s.sync.count % |s.sync.cores| == 0 && RunEnabled(s, es) && RunHeeds(s, es) && p < |s.src|
    ensures var r := Run(s, es);
      && Sized(r) && |r.src| == |s.src|
      && (r.phase != Before ==> Covered(r, p) || Opened(r, p))
      && (r.phase == Copying || r.phase == Stopping ==> r.writable[p] ==> r.dirty[p] || Opened(r, p))
  {
    var _ := RunInv(s, es, s.sync.count, 0);
    RunSize(s, es);
    var r := Run(s, es);
    assert r.phase != Before ==> Accounted(r, p);
  }

  lemma {:induction false} RunSize(s: Vm, es: seq<Event>)
    requires RunEnabled(s, es)
    ensures |Run(s, es).src| == |s.src|
    decreases |es|
  {
    if es != [] { RunSize(Do(s, es[0]), es[1..]); }
  }

  /** In such a run, once the last snapshot's pages are copied the destination equals
      the source, up to pages that devices marked after that snapshot; no vCPU runs
      any more. */
  lemma {:induction false} MigrationCorrect(s: Vm, es: seq<Event>)
    requires Start(s) && s.sync.count % |s.sync.cores| == 0 && RunEnabled(s, es) && RunHeeds(s, es)
    requires Run(s, es).phase == Final && Run(s, es).pending == {}
    ensures var r := Run(s, es);
      && (forall c :: !Runs(r, c))
      && (forall p :: 0 <= p < |r.src| && p !in r.late ==> p < |r.dst| && r.dst[p] == r.src[p])
      && (r.late == {} ==> r.dst == r.src)
  {
    var m := RunInv(s, es, s.sync.count, 0);
    var r := Run(s, es);
    assert r.open == map[];
    forall p | 0 <= p < |r.src| && p !in r.late ensures r.dst[p] == r.src[p] {
      assert Accounted(r, p);
    }
  }

  // --------------------------------------------------------------- devices' writes

  /** A page just marked is accounted for. */
  lemma {:induction false} MarkThenCopy(s: Vm, p: nat, v: nat)
    requires Enabled(s, Mark(p))
    ensures var es := [Mark(p), SilentWrite(p, v)];
      && RunEnabled(s, es) && RunHeeds(s, es) && Run(s, es) == Do(Do(s, Mark(p)), SilentWrite(p, v))
  {
    var a, x := Do(s, Mark(p)), SilentWrite(p, v);
    assert [x][1..] == [] && [Mark(p), x][1..] == [x];
    assert Run(a, [x]) == Run(Do(a, x), []);
  }

  /** Every page has arrived, is marked, or about to be, or is still to be copied. */
  ghost predicate AllCovered(s: Vm) { Sized(s) && forall p :: 0 <= p < |s.src| ==> Accounted(s, p) }

  /** A write of the hypervisor leaves every page accounted for if and only if its
      page is marked or about to be, waits in the snapshot, or has that content at the
      destination. */
  lemma SilentWriteIff(s: Vm, p: nat, v: nat)
    requires Tracked(s) && s.phase != Before && p < |s.src|
    ensures AllCovered(Do(s, SilentWrite(p, v))) <==> Heeds(s, SilentWrite(p, v))
  {
    var r := Do(s, SilentWrite(p, v));
    forall q | 0 <= q < |s.src| ensures Accounted(r, q) <==> q != p || Kept(s, p, v) {
      assert Accounted(s, q) && (Opened(r, q) <==> Opened(s, q));
    }
    if !Kept(s, p, v) { assert !Accounted(r, p) && r.src[p] == v; }
  }

  /** The failing input, in any copying state: the page has arrived and nothing marks
      it, as when a disk read completes. */
  lemma SilentWriteLost(s: Vm, p: nat, v: nat)
    requires Tracked(s) && s.phase == Copying && p < |s.src| && v != s.src[p]
    requires !s.dirty[p] && p !in s.pending && !Opened(s, p)
    ensures Enabled(s, SilentWrite(p, v)) && s.dst[p] == s.src[p]
    ensures Sized(Do(s, SilentWrite(p, v))) && !Covered(Do(s, SilentWrite(p, v)), p)
  {
    assert Accounted(s, p);
  }

  predicate Snaps(e: Event) { e.Round? || e.LastSnapshot? }

  predicate MarksPage(e: Event, p: nat) { e == Mark(p) || (e.Log? && Spans(e.t, p)) }

  predicate NoMarks(es: seq<Event>, p: nat) { forall k :: 0 <= k < |es| ==> !MarksPage(es[k], p) }

  /** A mark on page p has been used up: some snapshot takes it, the manager copies
      the page, and after the snapshot nothing marks the page again. */
  predicate Overtaken(es: seq<Event>, p: nat) {
    es != [] && ((Snaps(es[0]) && Copy(p) in es[1..] && NoMarks(es[1..], p)) || Overtaken(es[1..], p))
  }

  lemma FirstOrRest(es: seq<Event>, p: nat)
    requires es != []
    ensures NoMarks(es, p) <==> !MarksPage(es[0], p) && NoMarks(es[1..], p)
    ensures Copy(p) in es <==> es[0] == Copy(p) || Copy(p) in es[1..]
  {
    assert es == [es[0]] + es[1..];
  }

  ghost predicate Used(s: Vm, p: nat)
    requires p < |s.dirty|
  {
    !s.dirty[p] && p !in s.pending
  }

  /** What becomes of a page's mark over a run, by the events of the run alone. */
  lemma {:induction false} MarkTrail(s: Vm, es: seq<Event>, p: nat)
    requires RunEnabled(s, es) && s.phase != Before && p < |s.dirty| && (s.phase == Stopping ==> s.pending == {})
    ensures var r := Run(s, es);
      && |r.dirty| == |s.dirty|
      && (s.dirty[p] ==> (Used(r, p) <==> Overtaken(es, p)))
      && (!s.dirty[p] && p in s.pending ==> (Used(r, p) <==> (Copy(p) in es && NoMarks(es, p)) || Overtaken(es, p)))
      && (!s.dirty[p] && p !in s.pending ==> (Used(r, p) <==> NoMarks(es, p) || Overtaken(es, p)))
    decreases |es|
  {
    if es != [] {
      FirstOrRest(es, p);
      MarkTrail(Do(s, es[0]), es[1..], p);
    }
  }

  /** Marking a page and writing it are two steps with nothing to keep the manager out
      in between.  Whatever happens there, every page is still accounted for after
      the write if and only if the mark was not used up, or a fault handler is about to
      mark the page, or the destination has the content anyway. */
  lemma {:induction false} MarkThenWriteIff(s: Vm, c0: nat, m: nat, p: nat, es: seq<Event>, v: nat)
    requires Inv(s, c0, m) && s.phase != Before && Enabled(s, Mark(p))
    requires RunEnabled(Do(s, Mark(p)), es) && RunHeeds(Do(s, Mark(p)), es)
    ensures var r := Run(Do(s, Mark(p)), es);
      && p < |r.src| && Sized(r)
      && (AllCovered(Do(r, SilentWrite(p, v))) <==> r.dst[p] == v || Opened(r, p) || !Overtaken(es, p))
  {
    var a := Do(s, Mark(p));
    var m1 := StepInv(s, Mark(p), c0, m);
    var m2 := RunInv(a, es, c0, m1);
    RunSize(a, es);
    RunPhase(a, es);
    MarkTrail(a, es, p);
    SilentWriteIff(Run(a, es), p, v);
  }

  lemma {:induction false} RunPhase(s: Vm, es: seq<Event>)
    requires RunEnabled(s, es) && s.phase != Before
    ensures Run(s, es).phase != Before
    decreases |es|
  {
    if es != [] { RunPhase(Do(s, es[0]), es[1..]); }
  }

  // ----------------------------------------------------------------- what it rests on

  /** Every page still to be copied has arrived already or has been marked again, or a
      fault handler is about to mark it. */
  ghost predicate Replaceable(s: Vm)
    requires Sized(s)
  {
    forall p :: p in s.pending && p < |s.src| ==> s.dst[p] == s.src[p] || s.dirty[p] || Opened(s, p)
  }

  /** A snapshot replaces the one before it. */
  lemma SnapshotIff(s: Vm, r: Vm)
    requires Sized(s) && (forall p :: 0 <= p < |s.src| ==> Accounted(s, p)) && r.open == s.open
    requires Sized(r) && r.src == s.src && r.dst == s.dst && r.pending == Marked(s.dirty)
      && r.dirty == Bits(|s.dirty|, false)
    ensures AllCovered(r) <==> Replaceable(s)
  {
    forall p | 0 <= p < |s.src|
      ensures Accounted(r, p) <==> (p in s.pending ==> s.dst[p] == s.src[p] || s.dirty[p] || Opened(s, p))
    {
      assert Accounted(s, p) && (Opened(r, p) <==> Opened(s, p));
    }
  }

  /** The manager must have copied a snapshot before it asks for the next: an early
      round keeps track of every page if and only if each page still to be copied
      has arrived already or has been marked again, or is about to be. */
  lemma EarlyRoundIff(s: Vm)
    requires Tracked(s) && s.phase == Copying
    ensures AllCovered(Snapshot(Protect(s))) <==> Replaceable(s)
  {
    SnapshotIff(s, Snapshot(Protect(s)));
  }

  /** An early request that finds few dirty pages stops the vCPUs instead, and the
      last snapshot replaces what is still to be copied.  Whatever happens between
      the two, the last snapshot keeps track of every page if and only if each page
      then still to be copied has arrived or is marked, or is about to be. */
  lemma {:induction false} EarlyStopIff(s: Vm, es: seq<Event>)
    requires Tracked(s) && s.phase == Copying && RunEnabled(StopVm(s), es) && RunHeeds(StopVm(s), es)
    requires forall k :: 0 <= k < |es| ==> !es[k].LastSnapshot?
    requires Enabled(Run(StopVm(s), es), LastSnapshot)
    ensures var m := Run(StopVm(s), es); Sized(m) && (AllCovered(Do(m, LastSnapshot)) <==> Replaceable(m))
  {
    var m := Run(StopVm(s), es);
    SameTracked(s, StopVm(s));
    StoppingTracked(StopVm(s), es);
    SnapshotIff(m, Do(m, LastSnapshot));
  }

  /** Tracking is not about the barrier, and taking permissions does not hurt it. */
  lemma SameTracked(s: Vm, r: Vm)
    requires Tracked(s) && s.phase == Copying && (r == StopVm(s) || r == Protect(s))
    ensures Tracked(r)
  {
    forall p | 0 <= p < |s.src| ensures Accounted(r, p) && (Opened(r, p) <==> Opened(s, p)) {
      assert Accounted(s, p);
    }
  }

  lemma {:induction false} StoppingTracked(s: Vm, es: seq<Event>)
    requires Tracked(s) && s.phase == Stopping && RunEnabled(s, es) && RunHeeds(s, es)
    requires forall k :: 0 <= k < |es| ==> !es[k].LastSnapshot?
    ensures Tracked(Run(s, es)) && Run(s, es).phase == Stopping
    decreases |es|
  {
    if es != [] {
      TrackedStep(s, es[0]);
      StoppingTracked(Do(s, es[0]), es[1..]);
    }
  }

  /** A copy that does not hold the whole bitmap keeps track of every page if and only
      if each marked page behind its end has arrived already or is about to be marked. */
  lemma ShortCopyIff(s: Vm, held: nat)
    requires Tracked(s) && s.phase == Copying && s.pending == {}
    ensures AllCovered(SnapshotIn(s, held))
       <==> (forall p :: held <= p < |s.src| && s.dirty[p] ==> s.dst[p] == s.src[p] || Opened(s, p))
  {
    var r := SnapshotIn(s, held);
    forall p | 0 <= p < |s.src|
      ensures Accounted(r, p) <==> (held <= p && s.dirty[p] ==> s.dst[p] == s.src[p] || Opened(s, p))
    {
      assert Accounted(s, p) && (Opened(r, p) <==> Opened(s, p));
    }
  }

  lemma WholeCopy(s: Vm, held: nat)
    requires |s.dirty| <= held
    ensures SnapshotIn(s, held) == Snapshot(s)
  {
    assert MarkedBelow(s.dirty, held) == Marked(s.dirty);
  }

  /** What can happen between protecting and snapshotting, which no lock covers. */
  predicate Between(e: Event) { e.Write? || e.Fault? || e.Log? || e.Mark? || e.SilentWrite? || e.Copy? }

  predicate AllBetween(es: seq<Event>) { forall k :: 0 <= k < |es| ==> Between(es[k]) }

  /** Some write faults on page i. */
  predicate Faulted(es: seq<Event>, i: nat) {
    es != [] && ((es[0].Fault? && Spans(es[0].t, i)) || Faulted(es[1..], i))
  }

  lemma {:induction false} TrackedBetween(s: Vm, es: seq<Event>)
    requires Tracked(s) && s.phase == Copying && s.pending == {}
    requires AllBetween(es) && RunEnabled(s, es) && RunHeeds(s, es)
    ensures var r := Run(s, es); Tracked(r) && r.phase == Copying && r.pending == {} && |r.src| == |s.src|
    decreases |es|
  {
    if es != [] {
      assert Between(es[0]);
      TrackedStep(s, es[0]);
      TrackedBetween(Do(s, es[0]), es[1..]);
    }
  }

  /** A page becomes writable by a fault, and stays so until the next protection. */
  lemma {:induction false} WritableTrail(s: Vm, es: seq<Event>, i: nat)
    requires AllBetween(es) && RunEnabled(s, es) && i < |s.writable|
    ensures var r := Run(s, es); |r.writable| == |s.writable| && (r.writable[i] <==> s.writable[i] || Faulted(es, i))
    decreases |es|
  {
    if es != [] {
      assert Between(es[0]);
      WritableTrail(Do(s, es[0]), es[1..], i);
    }
  }

  /** Every page on which a write faulted has a fault on it half done at the end. */
  ghost predicate HalfDone(es: seq<Event>, r: Vm) {
    forall i: nat {:trigger Faulted(es, i)} :: i < |r.src| && Faulted(es, i) ==> Opened(r, i)
  }

  /** Protection and snapshot are two calls with nothing to keep other cores out in
      between, and so are a fault handler's permission and mark.  Whatever happens
      there, tracking survives the snapshot if and only if every page on which a write
      has faulted in between is still to be marked by some handler. */
  lemma {:induction false} SplitIff(s: Vm, es: seq<Event>)
    requires Tracked(s) && s.phase == Copying && s.pending == {}
    requires AllBetween(es) && RunEnabled(Protect(s), es) && RunHeeds(Protect(s), es)
    ensures Tracked(Snapshot(Run(Protect(s), es))) <==> HalfDone(es, Run(Protect(s), es))
  {
    var a := Protect(s);
    SameTracked(s, a);
    TrackedBetween(a, es);
    var r := Run(a, es);
    var q := Snapshot(r);
    forall i: nat | i < |r.src| ensures Accounted(q, i) && (q.writable[i] <==> Faulted(es, i)) {
      WritableTrail(a, es, i);
      assert Accounted(r, i) && (Opened(q, i) <==> Opened(r, i));
    }
    if Tracked(q) {
      forall i: nat | i < |r.src| && Faulted(es, i) ensures Opened(r, i) { assert q.writable[i] && !q.dirty[i]; }
    }
  }

  /** Protection and snapshot must be one step: a fault between them leaves a page
      writable and unmarked, so that after its copy a write goes unnoticed. */
  lemma SplitRoundLosesWrite(s: Vm, c: nat, p: nat, v: nat)
    requires Sized(s) && s.phase == Copying && Runs(s, c) && c !in s.open && !Opened(s, p)
    requires p < |s.src| && s.src[p] != v
    ensures var a, t := Protect(s), Span(p, 1);
      && Enabled(a, Fault(c, t)) && Enabled(Do(a, Fault(c, t)), Log(c, t))
      && var b := Snapshot(Do(Do(a, Fault(c, t)), Log(c, t)));
      && Enabled(b, Copy(p))
      && var d := Do(b, Copy(p));
      && Enabled(d, Write(c, p, v))
      && var r := Do(d, Write(c, p, v)); !Covered(r, p) && !Opened(r, p) && r.writable[p]
  {
  }
}
