/** When a wake-up is lost: the wait at a full list of notifications can hold up the
    one core that would have core 0 shorten it, for good. */
module BlockIoStall {
  import opened FairQueue
  import opened BlockIo
  import opened BlockIoSafety
  import opened BlockIoRace

  /** Nothing more happens by itself. */
  ghost predicate Quiescent(s: IO) {
    !Enabled(s, Look) && !Enabled(s, Send) && !Enabled(s, Arrive) && !Enabled(s, Go)
      && (forall i :: !Enabled(s, Mark(i)))
  }

  /** A core has decided to wake core 0 and waits for the list of notifications to
      become shorter, which only core 0 makes it. */
  predicate Stuck(s: IO) { s.guests.deciding > 0 && |s.ipi| >= 1024 }

  /** What a guest can check before it notifies: its notification fills the list
      while another core has yet to wake core 0. */
  predicate Crowds(s: IO, e: Event) {
    e.Notify? && |s.ipi| + 1 >= 1024 && s.guests.deciding > 0
  }

  // ------------------------------------------------------------------ one step

  lemma DecidingAlone(s: IO)
    requires PhaseOk(s) && s.guests.deciding > 0
    ensures s.core == Rest && WakerOk(s) && s.guests == Guests(1, [], 0, [], s.guests.late)
  {
  }

  /** Where a step leads as far as being stuck goes: only core 0 shortens the list,
      and only a notification makes a core decide. */
  lemma StepStuck(s: IO, e: Event)
    requires PhaseOk(s) && Enabled(s, e) && !e.Notify? && !e.Report?
    ensures Stuck(Do(s, e)) <==> Stuck(s)
  {
    if s.guests.deciding > 0 {
      DecidingAlone(s);
    }
  }

  /** A wake-up gets stuck exactly by a notification that crowds the list. */
  lemma StuckIff(s: IO, e: Event)
    requires Inv(s) && Enabled(s, e) && Sound(s, e)
    ensures Stuck(Do(s, e)) <==> Stuck(s) || Crowds(s, e)
  {
    if !e.Notify? && !e.Report? { StepStuck(s, e); }
  }

  /** And it stays stuck: nothing is completed any more. */
  lemma StuckStays(s: IO, e: Event)
    requires Inv(s) && Stuck(s) && Enabled(s, e) && Sound(s, e)
    ensures Stuck(Do(s, e)) && Do(s, e).done == s.done
  {
    StuckIff(s, e);
    DecidingAlone(s);
  }

  lemma NobodyWakes(s: IO)
    requires PhaseOk(s) && !s.panic && Quiescent(s) && !Stuck(s)
    ensures s.core == Rest && RestOk(s)
  {
    assert !Enabled(s, Mark(0));
  }

  /** When no core can go on and nothing is with the service VM, a notification is
      left exactly when a wake-up is stuck. */
  lemma LeftIff(s: IO)
    requires Inv(s) && Quiescent(s) && !InFlight(s)
    ensures s.ipi == [] <==> !Stuck(s)
  {
    if !Stuck(s) { NobodyWakes(s); }
  }

  // --------------------------------------------------------------------- runs

  predicate RunUncrowded(s: IO, es: seq<Event>)
    requires RunEnabled(s, es)
    decreases |es|
  {
    es == [] || (!Crowds(s, es[0]) && RunUncrowded(Do(s, es[0]), es[1..]))
  }

  lemma {:induction false} StuckForever(s: IO, es: seq<Event>)
    requires Inv(s) && Stuck(s) && RunEnabled(s, es) && RunSound(s, es)
    ensures Stuck(RunIo(s, es)) && RunIo(s, es).done == s.done
    decreases |es|
  {
    if es != [] {
      StuckStays(s, es[0]);
      StepInv(s, es[0]);
      StuckForever(Do(s, es[0]), es[1..]);
    }
  }

  /** Over whole runs: a wake-up is stuck at the end if and only if some notification
      on the way crowded the list. */
  lemma {:induction false} RunStuckIff(s: IO, es: seq<Event>)
    requires Inv(s) && !Stuck(s) && RunEnabled(s, es) && RunSound(s, es)
    ensures Stuck(RunIo(s, es)) <==> !RunUncrowded(s, es)
    decreases |es|
  {
    if es != [] {
      StuckIff(s, es[0]);
      StepInv(s, es[0]);
      if Crowds(s, es[0]) {
        StuckForever(Do(s, es[0]), es[1..]);
      } else {
        RunStuckIff(Do(s, es[0]), es[1..]);
      }
    }
  }

  /** No wake-up is lost as long as no notification crowds the list: when no core can
      go on and nothing is with the service VM, every accepted request of every VM
      that has notified is completed. */
  lemma {:induction false} QuiescentMeansDone(es: seq<Event>, vm: nat)
    requires RunEnabled(BOOT, es) && RunSound(BOOT, es) && RunUncrowded(BOOT, es)
    requires var s := RunIo(BOOT, es); vm in s.used && vm !in s.posted && Quiescent(s) && !InFlight(s)
    ensures var s := RunIo(BOOT, es); vm in s.asked && Written(s.done, vm) == s.asked[vm]
  {
    BootInv();
    RunInv(BOOT, es);
    RunStuckIff(BOOT, es);
    QuietMeansDone(RunIo(BOOT, es), vm);
  }

  lemma {:induction false} QuietMeansDone(s: IO, vm: nat)
    requires Inv(s) && vm in s.used && vm !in s.posted && Quiescent(s) && !InFlight(s) && !Stuck(s)
    ensures vm in s.asked && Written(s.done, vm) == s.asked[vm]
  {
    NobodyWakes(s);
    assert s.ipi == [] && s.io.subs == map[];
    assert Called(s, vm);
    assert Settled(s, vm);
    assert Sub(s.io, vm) == [];
  }

  // ------------------------------------------------------------------- how it comes

  /** Further notifications only make the list longer. */
  lemma {:induction false} NotifyTimes(s: IO, vm: nat, n: nat) returns (r: IO)
    requires !s.panic && vm in s.used && vm in s.cfg && s.ipi != []
    ensures Reaches(s, Times(Notify(vm), n), r) && |r.ipi| == |s.ipi| + n
    ensures r == s.(ipi := r.ipi, posted := r.posted) && r.posted <= s.posted
    decreases n
  {
    if n == 0 {
      r := s;
    } else {
      var s1 := Do(s, Notify(vm));
      r := NotifyTimes(s1, vm, n - 1);
      ReachesFirst(s, Notify(vm), Times(Notify(vm), n - 1), r);
    }
  }

  lemma CrowdQuiescent(s: IO, r: IO)
    requires s.core == Rest && s.guests == Guests(0, [], 0, [], s.guests.late) && |r.ipi| >= 1024
      && s.io.subs == map[]
    requires r.core == Rest && r.guests == s.guests.(deciding := 1) && r.io == s.io
    ensures Quiescent(r) && Stuck(r) && !InFlight(r)
  {
  }

  /** A guest that has put requests into its ring notifies 1024 times, from
      several cores, before the first of them looks at the list again: that core
      waits for the list to become shorter, core 0 is not woken, and in no sound
      continuation is anything completed any more.  The number has a name, n, so that
      `Times` is not unfolded that often. */
  lemma CrowdedOut(s: IO, vm: nat, reqs: seq<Req>, n: nat) returns (r: IO)
    requires Idle(s) && Enabled(s, Post(vm, reqs)) && n == 1024
    ensures Reaches(s, [Post(vm, reqs)] + Times(Notify(vm), n), r)
    ensures Quiescent(r) && Stuck(r) && !InFlight(r) && vm !in r.posted
    ensures vm in s.asked && vm in r.asked && Written(r.done, vm) == Written(s.done, vm)
    ensures r.asked[vm] == s.asked[vm] + Accepted(s.cfg[vm], reqs)
    ensures forall es :: RunEnabled(r, es) && RunSound(r, es) ==> RunIo(r, es).done == r.done
  {
    var s1 := Do(s, Post(vm, reqs));
    var s2 := Do(s1, Notify(vm));
    r := NotifyTimes(s2, vm, n - 1);
    ReachesFirst(s1, Notify(vm), Times(Notify(vm), n - 1), r);
    assert Times(Notify(vm), n) == [Notify(vm)] + Times(Notify(vm), n - 1);
    ReachesFirst(s, Post(vm, reqs), Times(Notify(vm), n), r);
    CrowdQuiescent(s, r);
    CrowdForever(s, [Post(vm, reqs)] + Times(Notify(vm), n), r);
  }

  lemma {:induction false} CrowdForever(s: IO, es: seq<Event>, r: IO)
    requires Inv(s) && Reaches(s, es, r) && Stuck(r)
    ensures forall es' :: RunEnabled(r, es') && RunSound(r, es') ==> RunIo(r, es').done == r.done
  {
    RunInv(s, es);
    forall es' | RunEnabled(r, es') && RunSound(r, es') ensures RunIo(r, es').done == r.done {
      StuckForever(r, es');
    }
  }
}
