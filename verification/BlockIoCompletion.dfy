/** Every notified request is completed: with the cores left to run and the service VM
    reporting what is in flight, every schedule ends within a bound, and where it ends
    nothing is left. */
module BlockIoCompletion {
  import opened Tasks
  import opened FairQueue
  import opened BlockIo
  import opened BlockIoSafety
  import opened BlockIoRace
  import opened BlockIoStall
  import opened BlockIoProgress

  /** Steps of the cores and reports; no guest asks for anything new. */
  predicate Serves(e: Event) { Internal(e) || e.Report? }

  predicate AllServe(es: seq<Event>) { forall k :: 0 <= k < |es| ==> Serves(es[k]) }

  /** Queued tasks that are not known to be finished. */
  function Unreported(q: Queue): int { q.len - if HasFront(q) && Front(q).state == Finish then 1 else 0 }

  /** A bound on the steps that are left, reports included. */
  ghost function Load(s: IO): int { Work(s) + 10 * Unreported(s.io) + 20 * |Waits(s.ring)| }

  lemma PushUnreported(q: Queue, t: AsyncTask)
    requires WF(q)
    ensures Unreported(Push(q, t)) <= Unreported(q) + 1
  {
    WFHasFront(q);
    if HasFront(q) { PushKeepsFront(q, t); }
  }

  lemma TakeLoad(s: IO)
    requires s.core.Drain? && s.core.left > 0 && s.core.vm in s.ring && s.ring[s.core.vm] != [] && s.core.vm in s.cfg
    requires WF(s.io)
    ensures var s' := CoreStep(s);
      10 * Unreported(s'.io) + 20 * |Waits(s'.ring)| <= 10 * Unreported(s.io) + 20 * |Waits(s.ring)|
  {
    var vm := s.core.vm;
    TakeWaits(s.ring, vm);
    var r := s.ring[vm][0];
    if !Panics(s.cfg[vm], r) && Accepts(s.cfg[vm], r) { PushUnreported(s.io, MakeTask(s.cfg[vm], vm, r)); }
  }

  lemma TurnLoad(s: IO)
    requires s.core == Loop && HasFront(s.io)
    ensures Unreported(LoopTask(s).io) <= Unreported(s.io)
  {
    match Front(s.io).state
    case Pending => assert LoopTask(s).io == SetFrontState(s.io, Running);
    case Running => assert LoopTask(s).io == s.io;
    case Finish => assert LoopTask(s).io == Pop(s.io);
  }

  /** What is queued, waiting, asked for and not notified yet. */
  function Standing(s: IO): (Queue, map<nat, seq<Req>>, map<nat, seq<UsedInfo>>, set<nat>) {
    (s.io, s.ring, s.asked, s.posted)
  }

  lemma QuietHolds(s: IO)
    requires s.core.Holds?
    ensures Standing(CoreStep(s)) == Standing(s)
  {
    if s.core.k < |s.gone| + |s.ipi| { assert CoreStep(s) == HandleNote(s, s.core.k); }
  }

  /** The steps of core 0 that neither take a request nor touch a block task. */
  lemma QuietGo(s: IO)
    requires s.core != Rest && !(s.core == Loop && s.io.subs != map[] && HasFront(s.io))
    requires !(s.core.Drain? && s.core.left > 0 && s.core.vm in s.ring && s.ring[s.core.vm] != [] && s.core.vm in s.cfg)
    ensures Standing(CoreStep(s)) == Standing(s)
  {
    if s.core.Holds? { QuietHolds(s); }
  }

  lemma GoLoad(s: IO)
    requires s.core != Rest && WF(s.io)
    ensures var s' := CoreStep(s);
      10 * Unreported(s'.io) + 20 * |Waits(s'.ring)| <= 10 * Unreported(s.io) + 20 * |Waits(s.ring)|
  {
    if s.core.Drain? && s.core.left > 0 && s.core.vm in s.ring && s.ring[s.core.vm] != [] && s.core.vm in s.cfg {
      TakeLoad(s);
    } else if s.core == Loop && s.io.subs != map[] && HasFront(s.io) {
      TurnLoad(s);
    } else {
      QuietGo(s);
    }
  }

  lemma ReportLoad(s: IO)
    requires Enabled(s, Report) && InFlight(s)
    ensures Load(Do(s, Report)) < Load(s)
  {
    var q := SetFrontState(s.io, Finish);
    assert Do(s, Report) == s.(io := q, core := Gap);
    assert HasFront(q) && Front(q).state == Finish && q.len == s.io.len;
  }

  lemma GuestLoad(s: IO, e: Event)
    requires Enabled(s, e) && Ready(s, e) && (e.Look? || e.Mark? || e.Send? || e.Reset? || e.Arrive?)
    ensures Do(s, e).io == s.io && Do(s, e).ring == s.ring
  {
    GuestSame(s, e);
  }

  /** Every step, reports included, leaves less to do. */
  lemma ServeLoad(s: IO, e: Event)
    requires Inv(s) && Enabled(s, e) && Sound(s, e) && Serves(e)
    ensures Load(Do(s, e)) < Load(s)
  {
    InvFacts(s);
    StepReady(s, e);
    if e.Report? {
      ReportLoad(s);
    } else {
      StepWorks(s, e);
      if e.Go? { GoLoad(s); } else { GuestLoad(s, e); }
    }
  }

  /** Every schedule of the cores and of reports ends, after at most Load(s) steps. */
  lemma {:induction false} ServiceEnds(s: IO, es: seq<Event>)
    requires Inv(s) && AllServe(es) && RunEnabled(s, es) && RunSound(s, es)
    ensures |es| + Load(RunIo(s, es)) <= Load(s)
    decreases |es|
  {
    if es != [] {
      assert Serves(es[0]);
      ServeLoad(s, es[0]);
      StepInv(s, es[0]);
      ServiceEnds(Do(s, es[0]), es[1..]);
    }
  }

  // ------------------------------------------------------------------ nothing is left

  /** No core can go on and there is nothing to report. */
  ghost predicate Ended(s: IO) { Quiescent(s) && !HasFront(s.io) }

  lemma GoKeeps(s: IO)
    requires s.core != Rest
    ensures CoreStep(s).asked == s.asked && CoreStep(s).posted == s.posted
  {
    if s.core.Drain? && s.core.left > 0 && s.core.vm in s.ring && s.ring[s.core.vm] != [] && s.core.vm in s.cfg {
      assert OnlyTasks(s, Take(s, s.core.vm));
    } else if s.core == Loop && s.io.subs != map[] && HasFront(s.io) {
      assert CoreStep(s) == LoopTask(s);
    } else {
      QuietGo(s);
    }
  }

  /** What was asked for is what was asked for. */
  lemma ServeKeeps(s: IO, e: Event)
    requires Inv(s) && Enabled(s, e) && Sound(s, e) && Serves(e)
    ensures Do(s, e).asked == s.asked && Do(s, e).posted == s.posted && !Crowds(s, e)
  {
    InvFacts(s);
    StepReady(s, e);
    if e.Go? {
      GoKeeps(s);
    } else if !e.Report? {
      GuestKeeps(s, e);
    }
  }

  lemma GuestKeeps(s: IO, e: Event)
    requires Enabled(s, e) && Ready(s, e) && (e.Look? || e.Mark? || e.Send? || e.Reset? || e.Arrive?)
    ensures Do(s, e).asked == s.asked && Do(s, e).posted == s.posted
  {
  }

  lemma {:induction false} RunKeeps(s: IO, es: seq<Event>)
    requires Inv(s) && AllServe(es) && RunEnabled(s, es) && RunSound(s, es)
    ensures var r := RunIo(s, es); Inv(r) && r.asked == s.asked && r.posted == s.posted && RunUncrowded(s, es)
    decreases |es|
  {
    if es != [] {
      assert Serves(es[0]);
      ServeKeeps(s, es[0]);
      StepInv(s, es[0]);
      RunKeeps(Do(s, es[0]), es[1..]);
    }
  }

  /** Wherever such a schedule ends, every request that a VM has made and notified is
      completed, each with its own record and in order. */
  lemma {:induction false} AllComplete(s: IO, es: seq<Event>, vm: nat)
    requires Inv(s) && !Stuck(s) && AllServe(es) && RunEnabled(s, es) && RunSound(s, es) && Ended(RunIo(s, es))
    requires vm in s.used && vm !in s.posted
    ensures vm in s.asked && Written(RunIo(s, es).done, vm) == s.asked[vm]
  {
    InvFacts(s);
    RunKeeps(s, es);
    RunStuckIff(s, es);
    InvFacts(RunIo(s, es));
    QuietMeansDone(RunIo(s, es), vm);
  }

  lemma NextStep(s: IO) returns (e: Event)
    requires Inv(s) && !Ended(s)
    ensures Enabled(s, e) && Sound(s, e) && Serves(e)
  {
    InvFacts(s);
    if Enabled(s, Look) { e := Look; }
    else if Enabled(s, Send) { e := Send; }
    else if Enabled(s, Arrive) { e := Arrive; }
    else if Enabled(s, Go) { e := Go; }
    else if exists i :: Enabled(s, Mark(i)) {
      var i :| Enabled(s, Mark(i));
      e := Mark(i);
    } else {
      assert Quiescent(s) && s.core == Rest;
      e := Report;
    }
  }

  /** And there is one, from every state of a sound run that is not stuck: at most
      Load(s) steps, reports included, complete everything. */
  lemma {:induction false} Completes(s: IO) returns (es: seq<Event>)
    requires Inv(s)
    ensures AllServe(es) && RunEnabled(s, es) && RunSound(s, es) && Ended(RunIo(s, es)) && |es| <= Load(s)
    decreases Load(s)
  {
    LoadNotNegative(s);
    if Ended(s) {
      es := [];
    } else {
      var e := NextStep(s);
      ServeLoad(s, e);
      StepInv(s, e);
      var rest := Completes(Do(s, e));
      FirstServes(s, e, rest);
      es := [e] + rest;
    }
  }

  lemma {:induction false} FirstServes(s: IO, e: Event, es: seq<Event>)
    requires Enabled(s, e) && Sound(s, e) && Serves(e) && AllServe(es) && RunEnabled(Do(s, e), es)
      && RunSound(Do(s, e), es)
    ensures AllServe([e] + es) && RunEnabled(s, [e] + es) && RunSound(s, [e] + es)
    ensures RunIo(s, [e] + es) == RunIo(Do(s, e), es)
  {
    assert ([e] + es)[1..] == es;
  }

  lemma LoadNotNegative(s: IO)
    requires Inv(s)
    ensures Load(s) >= 0
  {
    WFHasFront(s.io);
  }
}
