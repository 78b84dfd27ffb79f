/** The cores come to rest: between two steps of a guest or of the service VM they
    can make only so many steps by themselves, in whatever order. */
module BlockIoProgress {
  import opened Tasks
  import opened FairQueue
  import opened BlockIo
  import opened BlockIoSafety
  import opened BlockIoRace

  /** The requests in all rings, as VM and place. */
  ghost function Waits(ring: map<nat, seq<Req>>): set<(nat, nat)> {
    set vm, k | vm in ring && 0 <= k < |ring[vm]| :: (vm, k)
  }

  function Rank(p: Phase): nat {
    match p
    case Rest => 0
    case Leave => 1
    case Drop(_) => 2
    case Drain(_, _, _) => 3
    case Holds(_) => 4
    case Loop => 5
    case Gap => 6
  }

  /** A bound on the steps the cores can still make by themselves. */
  ghost function Work(s: IO): nat {
    if s.panic then 0 else
    1 + 20 * |Waits(s.ring)| + 10 * |s.ipi| + 10 * s.io.len + Rank(s.core) + Errands(s.guests)
  }

  function Errands(g: Guests): nat { 14 * g.deciding + 13 * |g.holding| + 12 * g.marked + 10 * |g.sent| + g.late }

  lemma TakeWaits(ring: map<nat, seq<Req>>, vm: nat)
    requires vm in ring && ring[vm] != []
    ensures |Waits(ring[vm := ring[vm][1..]])| == |Waits(ring)| - 1
  {
    var last := (vm, |ring[vm]| - 1);
    assert last in Waits(ring);
    assert Waits(ring[vm := ring[vm][1..]]) == Waits(ring) - {last};
  }

  lemma TakeWorks(s: IO)
    requires s.core.Drain? && s.core.left > 0 && s.core.vm in s.ring && s.ring[s.core.vm] != [] && s.core.vm in s.cfg
      && !s.panic
    ensures Work(CoreStep(s)) < Work(s)
  {
    TakeWaits(s.ring, s.core.vm);
  }

  lemma TurnWorks(s: IO)
    requires s.core == Loop && !s.panic && HasFront(s.io)
    ensures Work(LoopTask(s)) < Work(s)
  {
    match Front(s.io).state
    case Pending => assert LoopTask(s) == Issue(s).(core := Leave);
    case Running => assert LoopTask(s) == s.(core := Leave);
    case Finish => assert LoopTask(s) == FinishIo(s);
  }

  lemma HandleWorks(s: IO)
    requires s.core.Holds? && !s.panic
    ensures Work(CoreStep(s)) < Work(s)
  {
    if s.core.k < |s.gone| + |s.ipi| && Note(s, s.core.k).state == Pending {
      var s1 := MarkNote(s, s.core.k);
      SameLoad(s, s1);
      if s.ipi != [] { assert CoreStep(s) == StartDrain(s1, s.ipi[0].vmid, true); }
    }
  }

  lemma GoWorks(s: IO)
    requires s.core != Rest && !s.panic
    ensures Work(CoreStep(s)) < Work(s)
  {
    if s.core.Drain? && s.core.left > 0 && s.core.vm in s.ring && s.ring[s.core.vm] != [] && s.core.vm in s.cfg {
      TakeWorks(s);
    } else if s.core == Loop && s.io.subs != map[] && HasFront(s.io) {
      TurnWorks(s);
    } else if s.core.Holds? {
      HandleWorks(s);
    }
  }

  /** Where only the guests' cores move, only their part of the work changes. */
  lemma SameLoad(s: IO, s': IO)
    requires !s.panic && !s'.panic && s'.ring == s.ring && |s'.ipi| == |s.ipi| && s'.io.len == s.io.len
      && s'.core == s.core
    ensures Work(s') - Errands(s'.guests) == Work(s) - Errands(s.guests)
  {
  }

  lemma TaskWorks(s: IO)
    requires !s.panic && HasFront(s.io)
    ensures Work(GuestTask(s)) <= Work(s) + 1
  {
  }

  lemma LookTaskWorks(s: IO)
    requires Enabled(s, Look) && s.io.subs != map[] && HasFront(s.io)
    ensures Work(GuestLook(s)) < Work(s)
  {
    var g := s.guests.(deciding := s.guests.deciding - 1);
    var s1 := s.(guests := g);
    assert Errands(g) == Errands(s.guests) - 14;
    SameLoad(s, s1);
    TaskWorks(s1);
    assert GuestLook(s) == GuestTask(s1);
  }

  lemma LookNoteWorks(s: IO)
    requires Enabled(s, Look) && s.io.subs == map[] && s.ipi != []
    ensures Work(GuestLook(s)) < Work(s)
  {
    var g := s.guests.(deciding := s.guests.deciding - 1, holding := s.guests.holding + [|s.gone|]);
    assert GuestLook(s) == s.(guests := g);
    SameLoad(s, s.(guests := g));
    assert Errands(g) == Errands(s.guests) - 1;
  }

  lemma LookWorks(s: IO)
    requires Enabled(s, Look)
    ensures Work(GuestLook(s)) < Work(s)
  {
    if s.io.subs != map[] && HasFront(s.io) {
      LookTaskWorks(s);
    } else if s.io.subs == map[] && s.ipi != [] {
      LookNoteWorks(s);
    }
  }

  lemma MarkWorks(s: IO, i: nat)
    requires Enabled(s, Mark(i))
    ensures Work(GuestMark(s, i)) < Work(s)
  {
    var h, k := s.guests.holding, s.guests.holding[i];
    var g := s.guests.(holding := h[..i] + h[i + 1..]);
    var s1, s2 := s.(guests := g), s.(guests := g.(marked := g.marked + 1));
    assert Errands(g) == Errands(s.guests) - 13;
    match Note(s, k).state
    case Pending =>
      SameLoad(s, MarkNote(s2, k));
      assert GuestMark(s, i) == MarkNote(s2, k);
    case Running => assert GuestMark(s, i) == Late(s1);
    case Finish => assert GuestMark(s, i) == PopIpi(s1);
  }

  lemma SendWorks(s: IO)
    requires Enabled(s, Send)
    ensures Work(GuestSend(s)) < Work(s)
  {
  }

  lemma StepWorks(s: IO, e: Event)
    requires Enabled(s, e) && Internal(e)
    ensures Work(Do(s, e)) < Work(s)
  {
    if e.Go? { GoWorks(s); }
    else if e.Look? { LookWorks(s); }
    else if e.Mark? { MarkWorks(s, e.i); }
    else if e.Send? { SendWorks(s); }
  }

  /** Every schedule of the cores ends, after at most Work(s) steps: from any state,
      sound or not. */
  lemma {:induction false} CoresRest(s: IO, es: seq<Event>)
    requires AllInternal(es) && RunEnabled(s, es)
    ensures |es| + Work(RunIo(s, es)) <= Work(s)
    decreases |es|
  {
    if es != [] {
      assert Internal(es[0]);
      StepWorks(s, es[0]);
      CoresRest(Do(s, es[0]), es[1..]);
    }
  }

  // ------------------------------------------------------------ a handler left alone

  /** Core 0 runs its handler to the end while no other core makes a step. */
  ghost function Settle(s: IO): IO
    decreases Work(s)
  {
    if s.core == Rest || s.panic then s else
    GoWorks(s); Settle(CoreStep(s))
  }

  lemma {:induction false} SettleStep(was: IO, now: IO)
    requires was.core != Rest && !was.panic && now == CoreStep(was)
    ensures Settle(now) == Settle(was)
  {
    GoWorks(was);
  }

  /** That is one of the schedules. */
  lemma {:induction false} SettleIsRun(s: IO) returns (n: nat)
    ensures RunEnabled(s, Times(Go, n)) && RunIo(s, Times(Go, n)) == Settle(s)
    ensures Settle(s).core == Rest || Settle(s).panic
    decreases Work(s)
  {
    if s.core == Rest || s.panic {
      n := 0;
    } else {
      GoWorks(s);
      var m := SettleIsRun(Do(s, Go));
      assert Times(Go, m + 1)[1..] == Times(Go, m);
      n := m + 1;
    }
  }

  /** Left alone, a handler ends with the service VM running and everything kept. */
  lemma {:induction false} SettleInv(s: IO)
    requires Inv(s)
    ensures Inv(Settle(s)) && Settle(s).core == Rest
  {
    var n := SettleIsRun(s);
    TimesGo(n);
    InternalSound(s, Times(Go, n));
    RunInv(s, Times(Go, n));
  }

  lemma {:induction false} TimesGo(n: nat)
    ensures AllInternal(Times(Go, n))
  {
    if n > 0 { TimesGo(n - 1); }
  }
}
