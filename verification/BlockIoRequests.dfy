/** Which guest request each queued block task was made from, and that the task says
    what the request says. */
module BlockIoRequests {
  import opened Tasks
  import opened FairQueue
  import opened BlockIo
  import opened BlockIoSafety

  /** Per VM the requests taken from its ring whose tasks are queued, in that order. */
  type Due = map<nat, seq<Req>>

  function DueOf(due: Due, vm: nat): seq<Req> { if vm in due then due[vm] else [] }

  /** The request behind the VM's oldest queued task. */
  function Oldest(due: Due, vm: nat): Req {
    if DueOf(due, vm) == [] then Req(Unknown, 0, 0, UsedInfo(0, 0)) else due[vm][0]
  }

  /** The code's range test. */
  predicate Fits(c: Config, r: Req) { r.sector + r.bytes / 512 <= c.start + c.size }

  /** The request becomes a task. */
  predicate Passes(c: Config, r: Req) { Fits(c, r) && (r.kind.Read? || r.kind.Write? || r.kind.GetId?) }

  /** The task does to the disk what the request asks for: the VM's sectors count from
      the start of its part. */
  predicate Matches(c: Config, vm: nat, t: AsyncTask, r: Req) {
    && Passes(c, r) && t.vmid == vm && t.req == r.info
    && match r.kind
      case Read => t.data == IoTask(In, c.start + r.sector, r.bytes / 512)
      case Write => t.data == IoTask(Out, c.start + r.sector, r.bytes / 512)
      case _ => t.data == NoneTask
  }

  ghost predicate AllMatch(c: Config, vm: nat, ts: seq<AsyncTask>, rs: seq<Req>) {
    |ts| == |rs| && forall k :: 0 <= k < |ts| ==> Matches(c, vm, ts[k], rs[k])
  }

  type Configs = map<nat, Config>

  /** The VM's queued tasks are those of its requests, in order. */
  ghost predicate Tracked(cfg: Configs, q: Queue, due: Due, vm: nat) {
    if vm in cfg then AllMatch(cfg[vm], vm, Sub(q, vm), DueOf(due, vm)) else Sub(q, vm) == [] && DueOf(due, vm) == []
  }

  ghost predicate Tracks(cfg: Configs, q: Queue, due: Due) {
    forall vm {:trigger Tracked(cfg, q, due, vm)} :: Tracked(cfg, q, due, vm)
  }

  /** Core 0 is about to take the VM's next request. */
  predicate Takes(s: IO) {
    match s.core
    case Drain(vm, left, _) => left > 0 && vm in s.ring && s.ring[vm] != [] && vm in s.cfg
    case _ => false
  }

  /** Core 0 is about to complete the block task at the front. */
  predicate Completes(s: IO) { s.core == Loop && HasFront(s.io) && Front(s.io).state == Finish }

  /** What a step makes of the requests. */
  function DueDo(s: IO, due: Due, e: Event): Due
    requires Enabled(s, e)
  {
    if e.Go? && Takes(s) then
      var vm := s.core.vm;
      if Passes(s.cfg[vm], s.ring[vm][0]) then due[vm := DueOf(due, vm) + [s.ring[vm][0]]] else due
    else if e.Go? && Completes(s) && DueOf(due, Front(s.io).vmid) != [] then
      due[Front(s.io).vmid := due[Front(s.io).vmid][1..]]
    else due
  }

  // ------------------------------------------------------------------------ one step

  lemma PushTracked(cfg: Configs, q: Queue, due: Due, vm: nat, t: AsyncTask, r: Req)
    requires WF(q) && Tracks(cfg, q, due) && vm in cfg && Matches(cfg[vm], vm, t, r)
    ensures Tracks(cfg, Push(q, t), due[vm := DueOf(due, vm) + [r]])
  {
    var q', due' := Push(q, t), due[vm := DueOf(due, vm) + [r]];
    forall o ensures Tracked(cfg, q', due', o) {
      assert Tracked(cfg, q, due, o);
      PushSub(q, t, o);
    }
  }

  lemma PopTracked(cfg: Configs, q: Queue, due: Due)
    requires WF(q) && HasFront(q) && Tracks(cfg, q, due)
    ensures var v := Front(q).vmid;
      DueOf(due, v) != [] && Tracks(cfg, Pop(q), due[v := due[v][1..]])
  {
    var v := Front(q).vmid;
    assert v == q.rotation[0] && Tracked(cfg, q, due, v);
    var q', due' := Pop(q), due[v := due[v][1..]];
    forall o ensures Tracked(cfg, q', due', o) {
      assert Tracked(cfg, q, due, o);
      PopSub(q, o);
    }
  }

  /** A task's state says nothing about the request. */
  lemma StateTracked(cfg: Configs, q: Queue, due: Due, st: TaskState)
    requires HasFront(q) && Tracks(cfg, q, due)
    ensures Tracks(cfg, SetFrontState(q, st), due)
  {
    forall o ensures Tracked(cfg, SetFrontState(q, st), due, o) {
      assert Tracked(cfg, q, due, o);
    }
  }

  lemma RegisterTracked(cfg: Configs, q: Queue, due: Due, vm: nat, c: Config)
    requires Tracks(cfg, q, due) && vm !in cfg
    ensures Tracks(cfg[vm := c], q, due)
  {
    var cfg' := cfg[vm := c];
    forall o ensures Tracked(cfg', q, due, o) { assert Tracked(cfg, q, due, o); }
  }

  lemma TakeTracked(s: IO, due: Due)
    requires WF(s.io) && Tracks(s.cfg, s.io, due) && s.core.Drain? && Takes(s) && Enabled(s, Go)
      && Harmless(s, s.core.vm)
    ensures Tracks(s.cfg, Take(s, s.core.vm).io, DueDo(s, due, Go))
  {
    var vm := s.core.vm;
    var c, r := s.cfg[vm], s.ring[vm][0];
    assert !Panics(c, r);
    if Passes(c, r) {
      PushTracked(s.cfg, s.io, due, vm, MakeTask(c, vm, r), r);
    } else {
      assert !Accepts(c, r);
    }
  }

  /** What the executor's turn does to the queue and the requests. */
  lemma LoopEffect(s: IO, due: Due)
    requires Enabled(s, Go) && s.core == Loop && HasFront(s.io)
    ensures LoopTask(s).io == match Front(s.io).state
      case Pending => SetFrontState(s.io, Running)
      case Running => s.io
      case Finish => Pop(s.io)
    ensures var v := Front(s.io).vmid;
      DueDo(s, due, Go) ==
        if Front(s.io).state == Finish && DueOf(due, v) != [] then due[v := due[v][1..]] else due
  {
  }

  lemma LoopTracked(cfg: Configs, q: Queue, due: Due, q': Queue, due': Due)
    requires WF(q) && HasFront(q) && Tracks(cfg, q, due)
    requires q' == match Front(q).state
      case Pending => SetFrontState(q, Running)
      case Running => q
      case Finish => Pop(q)
    requires var v := Front(q).vmid;
      due' == if Front(q).state == Finish && DueOf(due, v) != [] then due[v := due[v][1..]] else due
    ensures Tracks(cfg, q', due')
  {
    match Front(q).state
    case Pending => StateTracked(cfg, q, due, Running);
    case Running =>
    case Finish => PopTracked(cfg, q, due);
  }

  lemma GoTracked(s: IO, due: Due)
    requires Books(s) && Tracks(s.cfg, s.io, due) && Enabled(s, Go) && GoReady(s)
      && (s.core.Drain? ==> Harmless(s, s.core.vm))
    ensures Tracks(CoreStep(s).cfg, CoreStep(s).io, DueDo(s, due, Go))
  {
    WFHasFront(s.io);
    if s.core.Drain? {
      if Takes(s) { TakeTracked(s, due); }
    } else if s.core == Loop {
      if HasFront(s.io) {
        LoopEffect(s, due);
        LoopTracked(s.cfg, s.io, due, LoopTask(s).io, DueDo(s, due, Go));
      }
    } else {
      GoSame(s);
    }
  }

  /** Only core 0 going on and the service VM's report change the queue. */
  lemma OtherEffect(s: IO, e: Event)
    requires Enabled(s, e) && Ready(s, e) && !e.Go? && !e.Report?
    ensures Do(s, e).io == s.io && Do(s, e).cfg == if e.Register? then s.cfg[e.vm := e.c] else s.cfg
  {
    if !e.Register? && !e.Post? { GuestSame(s, e); }
  }

  lemma GoCfg(s: IO)
    requires s.core != Rest && GoReady(s)
    ensures CoreStep(s).cfg == s.cfg
  {
    if s.core.Drain? {
    } else if s.core == Loop {
    } else {
      GoSame(s);
    }
  }

  /** A VM's configuration stays. */
  lemma StepCfg(s: IO, e: Event)
    requires Inv(s) && Enabled(s, e) && Sound(s, e)
    ensures forall vm :: vm in s.cfg ==> vm in Do(s, e).cfg && Do(s, e).cfg[vm] == s.cfg[vm]
  {
    InvFacts(s);
    StepReady(s, e);
    if e.Go? {
      GoCfg(s);
    } else if !e.Report? {
      OtherEffect(s, e);
    }
  }

  /** Every sound step keeps it. */
  lemma StepTracked(s: IO, due: Due, e: Event)
    requires Inv(s) && Tracks(s.cfg, s.io, due) && Enabled(s, e) && Sound(s, e)
    ensures Tracks(Do(s, e).cfg, Do(s, e).io, DueDo(s, due, e))
  {
    InvFacts(s);
    StepReady(s, e);
    if e.Go? {
      GoTracked(s, due);
    } else if e.Report? {
      StateTracked(s.cfg, s.io, due, Finish);
    } else {
      OtherEffect(s, e);
      if e.Register? { RegisterTracked(s.cfg, s.io, due, e.vm, e.c); }
    }
  }

  /** The front task and its request. */
  lemma FrontMatches(cfg: Configs, q: Queue, due: Due)
    requires WF(q) && Tracks(cfg, q, due) && HasFront(q)
    ensures var t := Front(q);
      t.vmid in cfg && Matches(cfg[t.vmid], t.vmid, t, Oldest(due, t.vmid))
  {
    var t := Front(q);
    assert t.vmid == q.rotation[0];
    assert Tracked(cfg, q, due, t.vmid);
    assert Sub(q, t.vmid)[0] == t;
  }

  /** Sector k is one the request reads or writes. */
  predicate Covers(c: Config, r: Req, k: int) {
    c.start + r.sector <= k < c.start + r.sector + r.bytes / 512
  }
}
