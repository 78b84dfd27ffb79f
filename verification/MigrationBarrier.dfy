/** What a migration needs of the barrier: that its count is a multiple of the
    number of vCPUs is not only enough but necessary. */
module MigrationBarrier {
  import opened Barrier
  import opened Migration

  /** Some run leads from s to r, and no write of the hypervisor in it goes unnoticed. */
  ghost predicate Leads(s: Vm, r: Vm) {
    exists es :: Migration.RunEnabled(s, es) && RunHeeds(s, es) && Migration.Run(s, es) == r
  }

  lemma LeadsStep(s: Vm, e: Event)
    requires Migration.Enabled(s, e) && Heeds(s, e)
    ensures Leads(s, Migration.Do(s, e))
  {
    assert [e][1..] == [];
    assert Migration.RunEnabled(Migration.Do(s, e), []) && RunHeeds(Migration.Do(s, e), []);
    assert Migration.RunEnabled(s, [e]) && RunHeeds(s, [e]) && Migration.Run(s, [e]) == Migration.Do(s, e);
  }

  lemma LeadsNowhere(s: Vm)
    ensures Leads(s, s)
  {
    assert Migration.RunEnabled(s, []) && RunHeeds(s, []) && Migration.Run(s, []) == s;
  }

  lemma LeadsTrans(s: Vm, m: Vm, r: Vm)
    requires Leads(s, m) && Leads(m, r)
    ensures Leads(s, r)
  {
    var a :| Migration.RunEnabled(s, a) && RunHeeds(s, a) && Migration.Run(s, a) == m;
    var b :| Migration.RunEnabled(m, b) && RunHeeds(m, b) && Migration.Run(m, b) == r;
    RunConcat(s, a, b);
  }

  lemma {:induction false} RunConcat(s: Vm, a: seq<Event>, b: seq<Event>)
    requires Migration.RunEnabled(s, a) && RunHeeds(s, a)
    requires Migration.RunEnabled(Migration.Run(s, a), b) && RunHeeds(Migration.Run(s, a), b)
    ensures Migration.RunEnabled(s, a + b) && RunHeeds(s, a + b)
    ensures Migration.Run(s, a + b) == Migration.Run(Migration.Run(s, a), b)
    decreases |a|
  {
    if a == [] {
      assert a + b == b;
    } else {
      assert (a + b)[1..] == a[1..] + b;
      RunConcat(Migration.Do(s, a[0]), a[1..], b);
    }
  }

  // ------------------------------------------------------------------ the phases

  /** The manager copies all of a snapshot, and nothing else happens. */
  lemma {:induction false} CopyAll(s: Vm) returns (r: Vm)
    requires |s.dst| == |s.src|
    ensures Leads(s, r) && r == s.(dst := r.dst, pending := {}) && |r.dst| == |s.dst|
    ensures forall p :: 0 <= p < |s.dst| ==> r.dst[p] == if p in s.pending then s.src[p] else s.dst[p]
    decreases |s.pending|
  {
    r := s;
    LeadsNowhere(s);
    if s.pending != {} {
      var p :| p in s.pending;
      LeadsStep(s, Copy(p));
      var m := Migration.Do(s, Copy(p));
      r := CopyAll(m);
      LeadsTrans(s, m, r);
    }
  }

  lemma NoneMarked(n: nat)
    ensures Marked(Bits(n, false)) == {}
  {
  }

  /** READY, and a round if need be, until few pages are dirty and none is pending. */
  lemma ReachCopying(s: Vm) returns (r: Vm)
    requires Migration.Start(s)
    ensures Leads(s, r) && Sized(r) && r.phase == Copying && r.pending == {} && r.src == s.src && r.sync == s.sync
    ensures r.open == map[]
    ensures |Marked(r.dirty)| < DIRTY_MEM_THRESHOLD
  {
    LeadsStep(s, Ready);
    var a := Migration.Do(s, Ready);
    r := CopyAll(a);
    LeadsTrans(s, a, r);
    if |Marked(r.dirty)| >= DIRTY_MEM_THRESHOLD {
      LeadsStep(r, Round);
      var b := Migration.Do(r, Round);
      LeadsTrans(s, r, b);
      NoneMarked(|r.dirty|);
      r := CopyAll(b);
      LeadsTrans(s, b, r);
    }
  }

  /** The first k cores reach the barrier, as in `FirstArrive`. */
  lemma {:induction false} HaltFirst(s: Vm, k: nat) returns (r: Vm)
    requires s.phase == Stopping && Barrier.Start(s.sync) && k <= s.sync.n && s.open == map[]
    ensures Barrier.RunEnabled(s.sync, FirstArrive(k))
    ensures r == s.(sync := Barrier.Run(s.sync, FirstArrive(k))) && Leads(s, r)
  {
    FirstArriveState(s.sync, k);
    if k == 0 {
      r := s;
      LeadsNowhere(s);
    } else {
      var m := HaltFirst(s, k - 1);
      FirstArriveState(s.sync, k - 1);
      LeadsStep(m, Halt(k - 1));
      RunSnoc(s.sync, FirstArrive(k - 1), Arrive(k - 1));
      r := Migration.Do(m, Halt(k - 1));
      LeadsTrans(s, m, r);
    }
  }

  /** The stop begins, and the last core makes page 0 writable. */
  lemma ReachStop(s: Vm) returns (r: Vm)
    requires Sized(s) && |s.src| > 0 && s.phase == Copying && s.pending == {}
      && |Marked(s.dirty)| < DIRTY_MEM_THRESHOLD
    requires s.sync.cores != [] && FreshCores(s.sync.cores) && s.open == map[]
    ensures r.open == map[]
    ensures Leads(s, r) && Sized(r) && r.phase == Stopping && r.pending == {} && r.src == s.src && r.dirty[0]
      && r.writable[0]
    ensures r.sync == s.sync.(n := |s.sync.cores|)
  {
    LeadsStep(s, StopAll);
    var a := Migration.Do(s, StopAll);
    var c, t := |s.sync.cores| - 1, Span(0, 1);
    LeadsStep(a, Fault(c, t));
    var b := Migration.Do(a, Fault(c, t));
    LeadsTrans(s, a, b);
    LeadsStep(b, Log(c, t));
    r := Migration.Do(b, Log(c, t));
    LeadsTrans(s, b, r);
  }

  /** The first core gets through the barrier while the last one still runs. */
  lemma ReachEarly(s: Vm) returns (r: Vm)
    requires s.phase == Stopping && Barrier.Start(s.sync) && s.sync.count % s.sync.n != 0 && s.open == map[]
    ensures Leads(s, r) && r == s.(sync := r.sync)
    ensures |r.sync.cores| == |s.sync.cores| && Runs(r, |r.sync.cores| - 1) && Crossed(r.sync.cores[0]) == 1
  {
    var k := s.sync.n - s.sync.count % s.sync.n;
    var c := HaltFirst(s, k);
    FirstArriveState(s.sync, k);
    FirstMayLeave(s.sync);
    LeadsStep(c, Pass(0));
    r := Migration.Do(c, Pass(0));
    LeadsTrans(s, c, r);
  }

  /** Then the last snapshot, its copy, and one more write. */
  lemma ReachLoss(s: Vm) returns (r: Vm)
    requires Sized(s) && |s.src| > 0 && s.phase == Stopping && s.pending == {} && s.dirty[0] && s.writable[0]
    requires |s.sync.cores| > 0 && Runs(s, |s.sync.cores| - 1) && Crossed(s.sync.cores[0]) == 1 && s.open == map[]
    ensures Leads(s, r) && r.phase == Final && r.pending == {} && r.late == {} && r.dst != r.src
  {
    LeadsStep(s, LastSnapshot);
    var a := Migration.Do(s, LastSnapshot);
    assert 0 in a.pending;
    var b := CopyAll(a);
    LeadsTrans(s, a, b);
    var e := Write(|s.sync.cores| - 1, 0, b.src[0] + 1);
    LeadsStep(b, e);
    r := Migration.Do(b, e);
    LeadsTrans(s, b, r);
    assert r.dst[0] == a.src[0] && r.src[0] == a.src[0] + 1;
  }

  /** Every run that ends with the last snapshot copied and no device write behind
      it has copied everything. */
  ghost predicate AlwaysCopies(s: Vm) {
    forall r :: Leads(s, r) && r.phase == Final && r.pending == {} && r.late == {} ==> r.dst == r.src
  }

  /** From any start with at least one page, every complete migration is correct if
      and only if the barrier's count, which nothing resets, is a multiple of the
      number of vCPUs. */
  lemma MigrationCorrectIff(s: Vm)
    requires Migration.Start(s) && |s.src| > 0
    ensures s.sync.count % |s.sync.cores| == 0 <==> AlwaysCopies(s)
  {
    if s.sync.count % |s.sync.cores| == 0 {
      forall r | Leads(s, r) && r.phase == Final && r.pending == {} && r.late == {} ensures r.dst == r.src {
        var es :| Migration.RunEnabled(s, es) && RunHeeds(s, es) && Migration.Run(s, es) == r;
        MigrationCorrect(s, es);
      }
    } else {
      var a := ReachCopying(s);
      var b := ReachStop(a);
      LeadsTrans(s, a, b);
      var c := ReachEarly(b);
      LeadsTrans(s, b, c);
      var r := ReachLoss(c);
      LeadsTrans(s, c, r);
    }
  }
}
