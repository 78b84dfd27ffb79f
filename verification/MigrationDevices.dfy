/** What a migration needs of the devices: a write of the hypervisor that finds its page
    unaccounted for spoils it for good, unless something else saves the page. */
module MigrationDevices {
  import opened Barrier
  import opened Migration
  import opened MigrationBarrier

  /** The destination has something else for page p, and nothing is going to copy it. */
  predicate Stale(s: Vm, p: nat) {
    Sized(s) && p < |s.src| && s.dst[p] != s.src[p] && !s.dirty[p] && p !in s.pending && !Opened(s, p)
  }

  // ------------------------------------------------------------------ to the barrier

  lemma {:induction false} CopyStale(s: Vm, p: nat) returns (r: Vm)
    requires Stale(s, p)
    ensures Leads(s, r) && r == s.(dst := r.dst, pending := {}) && Stale(r, p)
  {
    r := CopyAll(s);
  }

  /** Copies, and a round if need be, until few pages are dirty; then the stop. */
  lemma StopStale(s: Vm, p: nat) returns (r: Vm)
    requires Stale(s, p) && s.phase == Copying
    ensures Leads(s, r) && Stale(r, p) && r.phase == Stopping && r.pending == {}
      && r.sync == s.sync.(n := |s.sync.cores|)
  {
    var a := CopyStale(s, p);
    var b := FewStale(a, p);
    LeadsTrans(s, a, b);
    LeadsStep(b, StopAll);
    r := Migration.Do(b, StopAll);
    LeadsTrans(s, b, r);
  }

  lemma FewStale(s: Vm, p: nat) returns (r: Vm)
    requires Stale(s, p) && s.phase == Copying && s.pending == {}
    ensures Leads(s, r) && Stale(r, p) && r.phase == Copying && r.pending == {} && r.sync == s.sync
    ensures |Marked(r.dirty)| < DIRTY_MEM_THRESHOLD
  {
    r := s;
    LeadsNowhere(s);
    if |Marked(s.dirty)| >= DIRTY_MEM_THRESHOLD {
      LeadsStep(s, Round);
      var b := Migration.Do(s, Round);
      NoneMarked(|s.dirty|);
      r := CopyStale(b, p);
      LeadsTrans(s, b, r);
    }
  }

  // ------------------------------------------------------------------ at the barrier

  predicate Halted(cores: seq<Core>, k: nat) {
    k <= |cores| && forall c :: 0 <= c < k ==> cores[c].arrived >= 1
  }

  ghost predicate AtBarrier(s: Vm, c0: nat, m: nat) {
    s.phase == Stopping && Barrier.Inv(s.sync, c0, m) && c0 % s.sync.n == 0
  }

  /** What the way to the barrier leaves alone. */
  predicate Onward(s: Vm, r: Vm) {
    r == s.(sync := r.sync, dirty := r.dirty, open := r.open) && |r.sync.cores| == |s.sync.cores|
  }

  /** Cores k and up that have not reached the barrier finish their faults and reach it. */
  lemma {:induction false} HaltRest(s: Vm, c0: nat, m: nat, k: nat, p: nat) returns (r: Vm, m': nat)
    requires AtBarrier(s, c0, m) && Halted(s.sync.cores, k) && Stale(s, p)
    ensures Leads(s, r) && Onward(s, r) && Stale(r, p) && AtBarrier(r, c0, m')
    ensures Halted(r.sync.cores, |r.sync.cores|)
    decreases |s.sync.cores| - k
  {
    if k == |s.sync.cores| {
      r, m' := s, m;
      LeadsNowhere(s);
    } else {
      var a, m1 := HaltOne(s, c0, m, k, p);
      r, m' := HaltRest(a, c0, m1, k + 1, p);
      LeadsTrans(s, a, r);
    }
  }

  lemma HaltOne(s: Vm, c0: nat, m: nat, k: nat, p: nat) returns (r: Vm, m': nat)
    requires AtBarrier(s, c0, m) && Halted(s.sync.cores, k) && k < |s.sync.cores| && Stale(s, p)
    ensures Leads(s, r) && Onward(s, r) && Stale(r, p) && AtBarrier(r, c0, m') && Halted(r.sync.cores, k + 1)
  {
    LeadsNowhere(s);
    r, m' := s, m;
    if s.sync.cores[k].arrived == 0 {
      r := LogStale(s, k, p);
      if s.sync.cores[k].waiting {
        var a := LeaveStale(r, c0, m, k, p);
        LeadsTrans(s, r, a);
        r := a;
      }
      LeadsStep(r, Halt(k));
      m' := ArriveInv(r.sync, c0, m, k);
      OpenedStep(r, Halt(k), p);
      LeadsTrans(s, r, Migration.Do(r, Halt(k)));
      r := Migration.Do(r, Halt(k));
    }
  }

  /** A core inside the fault handler leaves it; the page is none of its leaf. */
  lemma LogStale(s: Vm, k: nat, p: nat) returns (r: Vm)
    requires Stale(s, p)
    ensures Leads(s, r) && r == s.(dirty := r.dirty, open := r.open) && Stale(r, p) && k !in r.open
  {
    LeadsNowhere(s);
    r := s;
    if k in s.open {
      var e := Log(k, s.open[k]);
      OpenedStep(s, e, p);
      LeadsStep(s, e);
      r := Migration.Do(s, e);
    }
  }

  lemma LeaveStale(s: Vm, c0: nat, m: nat, k: nat, p: nat) returns (r: Vm)
    requires AtBarrier(s, c0, m) && k < |s.sync.cores| && Stale(s, p)
    requires s.sync.cores[k].arrived == 0 && s.sync.cores[k].waiting && k !in s.open
    ensures Leads(s, r) && r == s.(sync := r.sync) && Stale(r, p) && AtBarrier(r, c0, m)
    ensures |r.sync.cores| == |s.sync.cores| && r.sync.cores[k].arrived == 0 && !r.sync.cores[k].waiting
    ensures forall c :: 0 <= c < |s.sync.cores| ==> r.sync.cores[c].arrived == s.sync.cores[c].arrived
  {
    CountInRound(s.sync, c0, m);
    assert CoreOk(s.sync.cores[k], c0, s.sync.n, m);
    LeadsStep(s, Pass(k));
    LeaveInv(s.sync, c0, m, k);
    OpenedStep(s, Pass(k), p);
    r := Migration.Do(s, Pass(k));
  }

  /** All have arrived, and core 0 gets through. */
  lemma FirstThrough(s: Vm, c0: nat, m: nat) returns (r: Vm)
    requires AtBarrier(s, c0, m) && Halted(s.sync.cores, |s.sync.cores|)
    ensures Leads(s, r) && r == s.(sync := r.sync) && |r.sync.cores| > 0 && Crossed(r.sync.cores[0]) >= 1
  {
    LeadsNowhere(s);
    r := s;
    if Crossed(s.sync.cores[0]) == 0 {
      CountInRound(s.sync, c0, m);
      assert CoreOk(s.sync.cores[0], c0, s.sync.n, m);
      assert m == 1 && s.sync.n * m == m * s.sync.n;
      LeadsStep(s, Pass(0));
      r := Migration.Do(s, Pass(0));
    }
  }

  // ---------------------------------------------------------------------- to the end

  lemma StoppingEnds(s: Vm, c0: nat, m: nat, p: nat) returns (r: Vm)
    requires Stale(s, p) && s.phase == Stopping && s.pending == {} && AtBarrier(s, c0, m)
    ensures Leads(s, r) && Stale(r, p) && r.phase == Final && r.pending == {} && p !in r.late
  {
    var a, m1 := HaltRest(s, c0, m, 0, p);
    var b := FirstThrough(a, c0, m1);
    LeadsTrans(s, a, b);
    LeadsStep(b, LastSnapshot);
    var c := Migration.Do(b, LastSnapshot);
    LeadsTrans(s, b, c);
    r := CopyStale(c, p);
    LeadsTrans(s, c, r);
  }

  /** Wherever a page has become stale, and no device marks it, some way to the end of
      the migration leaves it so. */
  lemma StaleEnds(s: Vm, c0: nat, m: nat, p: nat) returns (r: Vm)
    requires Stale(s, p) && Stopped(s, c0, m) && s.phase != Before && |s.sync.cores| > 0 && c0 % |s.sync.cores| == 0
    requires s.phase == Final ==> p !in s.late
    ensures Leads(s, r) && Stale(r, p) && r.phase == Final && r.pending == {} && p !in r.late
  {
    if s.phase == Copying {
      var a := StopStale(s, p);
      NoArrivals(s.sync.cores);
      assert a.sync.cores[0].arrived == 0;
      r := StoppingEnds(a, c0, 0, p);
      LeadsTrans(s, a, r);
    } else if s.phase == Stopping {
      r := StoppingEnds(s, c0, m, p);
    } else {
      r := CopyStale(s, p);
    }
  }

  /** Some way on, without another unnoticed write, ends with the last snapshot copied
      and a page different that no device marked after it. */
  ghost predicate CanLose(s: Vm) {
    exists r, p :: Leads(s, r) && Lost(r, p)
  }

  ghost predicate Lost(r: Vm, p: nat) {
    && r.phase == Final && r.pending == {} && p < |r.src| && p < |r.dst|
    && p !in r.late && r.dst[p] != r.src[p]
  }

  lemma InvCannotLose(s: Vm, c0: nat, m: nat)
    requires Migration.Inv(s, c0, m)
    ensures !CanLose(s)
  {
    forall r, p: nat | Leads(s, r) ensures !Lost(r, p) { InvNotLost(s, c0, m, r, p); }
  }

  lemma InvNotLost(s: Vm, c0: nat, m: nat, r: Vm, p: nat)
    requires Migration.Inv(s, c0, m) && Leads(s, r)
    ensures !Lost(r, p)
  {
    var es :| Migration.RunEnabled(s, es) && RunHeeds(s, es) && Migration.Run(s, es) == r;
    var m' := Migration.RunInv(s, es, c0, m);
    assert r.phase == Final ==> r.open == map[];
    TrackedNotLost(r, p);
  }

  lemma TrackedNotLost(r: Vm, p: nat)
    requires Tracked(r) && (r.phase == Final ==> r.open == map[])
    ensures !Lost(r, p)
  {
    if p < |r.src| { assert r.phase != Before ==> Accounted(r, p); }
  }

  /** The exact condition, write by write: in any state of a run whose writes were all
      noticed, the next event leaves the migration unable to go wrong if and only if
      it is not an unnoticed write. */
  lemma HeedsIff(s: Vm, e: Event, c0: nat, m: nat)
    requires Migration.Inv(s, c0, m) && Migration.Enabled(s, e)
    ensures Heeds(s, e) <==> !CanLose(Migration.Do(s, e))
  {
    if Heeds(s, e) {
      var m' := Migration.StepInv(s, e, c0, m);
      InvCannotLose(Migration.Do(s, e), c0, m');
    } else {
      var s' := Migration.Do(s, e);
      assert Stale(s', e.p);
      var r := StaleEnds(s', c0, m, e.p);
      assert Lost(r, e.p);
    }
  }

  /** At no point of the run can the migration go wrong without a further unnoticed
      write. */
  ghost predicate NeverLoses(s: Vm, es: seq<Event>)
    requires Migration.RunEnabled(s, es)
    decreases |es|
  {
    !CanLose(s) && (es == [] || NeverLoses(Migration.Do(s, es[0]), es[1..]))
  }

  /** And over whole runs. */
  lemma {:induction false} RunHeedsIff(s: Vm, es: seq<Event>, c0: nat, m: nat)
    requires Migration.Inv(s, c0, m) && Migration.RunEnabled(s, es)
    ensures RunHeeds(s, es) <==> NeverLoses(s, es)
    decreases |es|
  {
    InvCannotLose(s, c0, m);
    if es != [] {
      HeedsIff(s, es[0], c0, m);
      if Heeds(s, es[0]) {
        var m' := Migration.StepInv(s, es[0], c0, m);
        RunHeedsIff(Migration.Do(s, es[0]), es[1..], c0, m');
      }
    }
  }

  /** From any start with the barrier's count at a multiple of the number of vCPUs. */
  lemma {:induction false} MigrationHeedsIff(s: Vm, es: seq<Event>)
    requires Migration.Start(s) && s.sync.count % |s.sync.cores| == 0 && Migration.RunEnabled(s, es)
    ensures RunHeeds(s, es) <==> NeverLoses(s, es)
  {
    RunHeedsIff(s, es, s.sync.count, 0);
  }
}
