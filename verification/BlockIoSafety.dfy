/** What every step of every core keeps, as long as no guest's core wakes core 0
    while core 0 is inside its handlers: tasks and used-info records pair up, one
    request at a time is with the service VM, no accepted request is lost and no
    wake-up is missing. */
module BlockIoSafety {
  import opened Tasks
  import opened FairQueue
  import opened BlockIo

  /** A task nobody has touched: a block request waiting, or a get-id request,
      which is complete from the start. */
  predicate Fresh(t: AsyncTask) {
    (t.data.IoTask? && t.state == Pending) || (t.data.NoneTask? && t.state == Finish)
  }

  /** Only the front task can have been handed out. */
  ghost predicate QueueOk(q: Queue) {
    && WF(q)
    && (forall o, k :: o in q.subs && 0 <= k < |q.subs[o]| && !(k == 0 && q.rotation[0] == o) ==> Fresh(q.subs[o][k]))
    && (HasFront(q) ==> Fresh(Front(q)) || Front(q).data.IoTask?)
  }

  function Infos(ts: seq<AsyncTask>): (r: seq<UsedInfo>)
    ensures |r| == |ts| && forall k :: 0 <= k < |ts| ==> r[k] == ts[k].req
  {
    seq(|ts|, k requires 0 <= k < |ts| => ts[k].req)
  }

  /** Each VM's used-info list is, in order, what its queued tasks need. */
  ghost predicate Paired(s: IO) {
    && (forall o :: o in s.io.subs ==> o in s.used)
    && (forall o :: o in s.used ==> s.used[o] == Infos(Sub(s.io, o)))
  }

  ghost predicate HasIpi(ipi: seq<AsyncTask>, vm: nat) {
    exists k :: 0 <= k < |ipi| && ipi[k].vmid == vm
  }

  /** The notifications whose handling is still to come: the front one no longer
      counts once core 0 is handling it. */
  function Waiting(s: IO): seq<AsyncTask> {
    if (s.core.Drain? || s.core.Drop?) && s.ipi != [] then s.ipi[1..] else s.ipi
  }

  /** How many of a VM's requests core 0 is about to take. */
  function Taking(s: IO, vm: nat): nat {
    if s.core.Drain? && s.core.vm == vm then s.core.left else 0
  }

  /** Requests that core 0 is not about to take have a notification waiting or
      still to come; no flush is in a ring. */
  ghost predicate Rings(s: IO) {
    && (forall vm {:trigger Called(s, vm)} :: vm in s.ring ==> Called(s, vm))
    && (forall vm {:trigger Harmless(s, vm)} :: vm in s.ring && vm in s.cfg ==> Harmless(s, vm))
    && (forall k :: 0 <= k < |s.ipi| ==> s.ipi[k].vmid in s.ring)
  }

  ghost predicate Called(s: IO, vm: nat)
    requires vm in s.ring
  {
    |s.ring[vm]| > Taking(s, vm) ==> HasIpi(Waiting(s), vm) || vm in s.posted
  }

  ghost predicate Harmless(s: IO, vm: nat)
    requires vm in s.ring && vm in s.cfg
  {
    forall k :: 0 <= k < |s.ring[vm]| ==> !Panics(s.cfg[vm], s.ring[vm][k])
  }

  /** Registered VMs have a configuration, a ring and a ledger. */
  ghost predicate Registered(s: IO) {
    s.cfg.Keys == s.used.Keys && s.ring.Keys == s.used.Keys && s.asked.Keys == s.used.Keys
  }

  /** What was written to a VM's used ring, in order. */
  function Written(done: seq<Done>, vm: nat): seq<UsedInfo> {
    if done == [] then [] else
    Written(done[..|done| - 1], vm) + if done[|done| - 1].vmid == vm then [done[|done| - 1].written] else []
  }

  /** Every accepted request is completed, queued or still in the ring, in the
      order in which the guest made them. */
  ghost predicate Ledger(s: IO) {
    forall vm {:trigger Settled(s, vm)} :: vm in s.used && vm in s.asked && vm in s.ring && vm in s.cfg ==>
      Settled(s, vm)
  }

  ghost predicate Settled(s: IO, vm: nat)
    requires vm in s.used && vm in s.asked && vm in s.ring && vm in s.cfg
  {
    s.asked[vm] == Written(s.done, vm) + s.used[vm] + Accepted(s.cfg[vm], s.ring[vm])
  }

  /** Each completion wrote the record of the request it completed. */
  ghost predicate Truthful(s: IO) {
    forall k :: 0 <= k < |s.done| ==> s.done[k].written == s.done[k].req && s.done[k].vmid in s.used
  }

  function Served(done: seq<Done>): seq<UsedInfo> {
    if done == [] then [] else
    Served(done[..|done| - 1]) + if done[|done| - 1].served then [done[|done| - 1].req] else []
  }

  function Outstanding(q: Queue): seq<UsedInfo> {
    if HasFront(q) && Front(q).data.IoTask? && Front(q).state != Pending then [Front(q).req] else []
  }

  /** What went to the service VM is what came back, plus at most one request. */
  ghost predicate OneAtATime(s: IO) {
    s.issued == Served(s.done) + Outstanding(s.io)
  }

  /** What the queue, the records and the completions say of each other. */
  ghost predicate Books(s: IO) {
    !s.panic && Registered(s) && QueueOk(s.io) && Paired(s) && Ledger(s) && Truthful(s) && OneAtATime(s)
  }

  ghost predicate AllPending(ts: seq<AsyncTask>) {
    forall k :: 0 <= k < |ts| ==> ts[k].state == Pending
  }

  /** Guest cores on their way to wake core 0, and the interrupts they sent. */
  function Waking(g: Guests): nat { g.deciding + |g.holding| + g.marked + |g.sent| }

  /** Somebody is waking core 0: one core or one interrupt, for the notification
      at the front, which it holds or has marked. */
  ghost predicate WakerOk(s: IO) {
    && Waking(s.guests) == 1 && s.io.subs == map[] && s.ipi != [] && AllPending(s.ipi[1..])
    && s.ipi[0].state == (if s.guests.deciding + |s.guests.holding| > 0 then Pending else Running)
    && (s.guests.holding != [] ==> s.guests.holding[0] == |s.gone|)
    && (s.guests.sent != [] ==> s.guests.sent[0] == s.ipi[0].vmid)
  }

  /** While the service VM runs: a queued block task means one is in flight, and a
      waiting notification means core 0 is busy or about to be woken.  While core
      0 is in its handlers: nobody wakes it, and the only notification anybody
      has marked is the one it is handling. */
  ghost predicate PhaseOk(s: IO) {
    match s.core
    case Rest => !s.scheduling && (s.io.subs != map[] ==> InFlight(s)) && (WakerOk(s) || RestOk(s))
    case Drain(vm, left, looping) =>
      HandlingOk(s) && (!looping ==> !s.scheduling) && s.ipi[0].vmid == vm && vm in s.ring && left <= |s.ring[vm]|
    case Drop(looping) => HandlingOk(s) && (!looping ==> !s.scheduling)
    case Gap => LoopingOk(s) && !s.scheduling
    case Loop => LoopingOk(s)
    case Holds(k) => LoopingOk(s) && s.ipi != [] && k == |s.gone| && s.io.subs == map[]
    case Leave => LoopingOk(s) && InFlight(s)
  }

  ghost predicate RestOk(s: IO) {
    Waking(s.guests) == 0 && AllPending(s.ipi) && (s.io.subs == map[] ==> s.ipi == [])
  }

  ghost predicate HandlingOk(s: IO) { Waking(s.guests) == 0 && s.ipi != [] && AllPending(s.ipi[1..]) }

  ghost predicate LoopingOk(s: IO) { Waking(s.guests) == 0 && AllPending(s.ipi) }

  ghost predicate Inv(s: IO) {
    Books(s) && Rings(s) && PhaseOk(s)
  }

  // ----------------------------------------------------------------- one request

  lemma PushOk(q: Queue, t: AsyncTask)
    requires QueueOk(q) && Fresh(t)
    ensures QueueOk(Push(q, t)) && Outstanding(Push(q, t)) == Outstanding(q)
  {
    PushWF(q, t);
    WFHasFront(q);
    if HasFront(q) { PushKeepsFront(q, t); }
  }

  lemma InfosSplit(a: seq<AsyncTask>, b: seq<AsyncTask>)
    ensures Infos(a + b) == Infos(a) + Infos(b)
  {
  }

  lemma SubPush(q: Queue, t: AsyncTask, o: nat)
    requires WF(q)
    ensures Infos(Sub(Push(q, t), o)) == Infos(Sub(q, o)) + if o == t.vmid then [t.req] else []
  {
    PushSub(q, t, o);
    InfosSplit(Sub(q, o), Of([t], o));
    assert Infos([t]) == [t.req];
  }

  lemma PairedPush(s: IO, t: AsyncTask)
    requires Paired(s) && WF(s.io) && t.vmid in s.used
    ensures Paired(s.(io := Push(s.io, t), used := s.used[t.vmid := s.used[t.vmid] + [t.req]]))
  {
    var s' := s.(io := Push(s.io, t), used := s.used[t.vmid := s.used[t.vmid] + [t.req]]);
    forall o | o in s'.used ensures s'.used[o] == Infos(Sub(s'.io, o)) {
      SubPush(s.io, t, o);
    }
  }

  lemma TakeLedger(s: IO, vm: nat)
    requires Registered(s) && Ledger(s) && vm in s.ring && s.ring[vm] != [] && !Panics(s.cfg[vm], s.ring[vm][0])
    ensures Ledger(Take(s, vm))
  {
    var r, rest := s.ring[vm][0], s.ring[vm][1..];
    var s', w := Take(s, vm), Written(s.done, vm);
    forall v | v in s'.used ensures Settled(s', v) {
      assert Settled(s, v);
      if v == vm && Accepts(s.cfg[vm], r) {
        assert w + s.used[vm] + ([r.info] + Accepted(s.cfg[vm], rest))
          == w + (s.used[vm] + [r.info]) + Accepted(s.cfg[vm], rest);
      }
    }
  }

  /** One request of the ring becomes a task and a record, or is dropped. */
  lemma TakeBooks(s: IO, vm: nat)
    requires Books(s) && vm in s.ring && s.ring[vm] != [] && !Panics(s.cfg[vm], s.ring[vm][0])
    ensures Books(Take(s, vm))
  {
    TakeLedger(s, vm);
    if Accepts(s.cfg[vm], s.ring[vm][0]) {
      var t := MakeTask(s.cfg[vm], vm, s.ring[vm][0]);
      PushOk(s.io, t);
      TakePaired(s, vm, t);
    }
  }

  lemma TakePaired(s: IO, vm: nat, t: AsyncTask)
    requires Paired(s) && WF(s.io) && vm in s.used && vm in s.ring && s.ring[vm] != [] && vm in s.cfg
    requires Accepts(s.cfg[vm], s.ring[vm][0]) && t == MakeTask(s.cfg[vm], vm, s.ring[vm][0])
    ensures Paired(Take(s, vm)) && Take(s, vm).io == Push(s.io, t) && !Panics(s.cfg[vm], s.ring[vm][0])
  {
    PairedPush(s, t);
  }

  // -------------------------------------------------------------- one completion

  /** Behind the front everything is fresh, so it is after a pop. */
  lemma PopFresh(q: Queue)
    requires QueueOk(q) && HasFront(q)
    ensures forall o, k :: o in Pop(q).subs && 0 <= k < |Pop(q).subs[o]| ==> Fresh(Pop(q).subs[o][k])
  {
    var f := q.rotation[0];
    forall o, k | o in Pop(q).subs && 0 <= k < |Pop(q).subs[o]| ensures Fresh(Pop(q).subs[o][k]) {
      if o == f {
        assert Pop(q).subs[o][k] == q.subs[o][k + 1];
      } else {
        assert Pop(q).subs[o][k] == q.subs[o][k];
      }
    }
  }

  lemma PopOk(q: Queue)
    requires QueueOk(q) && HasFront(q)
    ensures QueueOk(Pop(q)) && Outstanding(Pop(q)) == []
  {
    PopWF(q);
    PopFresh(q);
    WFHasFront(Pop(q));
  }

  lemma SubPop(q: Queue, o: nat)
    requires WF(q) && HasFront(q)
    ensures Infos(Sub(q, o)) == (if o == Front(q).vmid then [Front(q).req] else []) + Infos(Sub(Pop(q), o))
  {
    var f, rest := Front(q), Sub(Pop(q), o);
    assert Sub(q, o) == (if o == f.vmid then [f] else []) + rest by {
      PopSub(q, o);
      assert [f][1..] == [];
    }
    if o == f.vmid {
      assert Infos([f] + rest) == [f.req] + Infos(rest);
    } else {
      assert [] + rest == rest;
    }
  }

  /** The record at the head of the VM's list is the finished task's. */
  lemma FinishPaired(s: IO)
    requires Paired(s) && WF(s.io) && HasFront(s.io)
    ensures var t := Front(s.io);
      t.vmid in s.used && s.used[t.vmid] != [] && s.used[t.vmid][0] == t.req && Paired(FinishIo(s))
  {
    var t := Front(s.io);
    assert t.vmid == s.io.rotation[0] && t.vmid in s.io.subs;
    SubPop(s.io, t.vmid);
    var s' := FinishIo(s);
    PopListed(s.io);
    forall o | o in s'.used ensures s'.used[o] == Infos(Sub(s'.io, o)) {
      SubPop(s.io, o);
    }
  }

  lemma {:induction false} WrittenSnoc(done: seq<Done>, d: Done, vm: nat)
    ensures Written(done + [d], vm) == Written(done, vm) + if d.vmid == vm then [d.written] else []
    ensures Served(done + [d]) == Served(done) + if d.served then [d.req] else []
  {
    assert (done + [d])[..|done|] == done;
  }

  lemma FinishLedger(s: IO, d: Done)
    requires Ledger(s) && d.vmid in s.used && s.used[d.vmid] != [] && s.used[d.vmid][0] == d.written
    ensures Ledger(s.(used := s.used[d.vmid := s.used[d.vmid][1..]], done := s.done + [d]))
  {
    var s' := s.(used := s.used[d.vmid := s.used[d.vmid][1..]], done := s.done + [d]);
    forall v | v in s'.used && v in s'.asked && v in s'.ring && v in s'.cfg ensures Settled(s', v) {
      assert Settled(s, v);
      WrittenSnoc(s.done, d, v);
      if v == d.vmid {
        assert s.used[v] == [d.written] + s.used[v][1..];
        assert Written(s.done, v) + ([d.written] + s.used[v][1..])
          == (Written(s.done, v) + [d.written]) + s.used[v][1..];
      }
    }
  }

  lemma SameLedger(s: IO, s': IO)
    requires Ledger(s) && s'.cfg == s.cfg && s'.ring == s.ring && s'.asked == s.asked && s'.used == s.used
      && s'.done == s.done
    ensures Ledger(s')
  {
    forall v | v in s'.used && v in s'.asked && v in s'.ring && v in s'.cfg ensures Settled(s', v) {
      assert Settled(s, v);
    }
  }

  lemma FinishBooks(s: IO)
    requires Books(s) && HasFront(s.io) && Front(s.io).state == Finish
    ensures Books(FinishIo(s))
  {
    var t, s' := Front(s.io), FinishIo(s);
    FinishPaired(s);
    PopOk(s.io);
    var d := Done(t.vmid, t.req, s.used[t.vmid][0], t.data.IoTask?);
    assert s'.done == s.done + [d];
    FinishLedger(s, d);
    SameLedger(s.(used := s.used[d.vmid := s.used[d.vmid][1..]], done := s.done + [d]), s');
    FinishCounts(s, s', t, d);
  }

  /** The completion is truthful, and what came back is what went out. */
  lemma FinishCounts(s: IO, s': IO, t: AsyncTask, d: Done)
    requires Registered(s) && Truthful(s) && OneAtATime(s) && HasFront(s.io) && t == Front(s.io) && t.state == Finish
    requires t.vmid in s.used && s.used[t.vmid] != [] && s.used[t.vmid][0] == t.req && Outstanding(s'.io) == []
    requires d == Done(t.vmid, t.req, t.req, t.data.IoTask?)
    requires s' == s.(io := s'.io, used := s.used[t.vmid := s.used[t.vmid][1..]], done := s.done + [d])
    ensures Registered(s') && Truthful(s') && OneAtATime(s')
  {
    WrittenSnoc(s.done, d, t.vmid);
  }

  /** Changing the state of the front task touches neither names nor order. */
  lemma SetFrontOk(q: Queue, st: TaskState)
    requires QueueOk(q) && HasFront(q) && Front(q).data.IoTask?
    ensures var r := SetFrontState(q, st);
      && QueueOk(r) && HasFront(r) && Front(r) == Front(q).(state := st)
      && (forall o :: Infos(Sub(r, o)) == Infos(Sub(q, o))) && r.subs.Keys == q.subs.Keys
  {
    var r := SetFrontState(q, st);
    TotalFrame(q.subs, r.subs, q.rotation);
    assert forall o :: o in q.subs ==> |r.subs[o]| == |q.subs[o]|;
    forall o ensures Infos(Sub(r, o)) == Infos(Sub(q, o)) {
      if o == q.rotation[0] {
        assert Sub(q, o) == [Sub(q, o)[0]] + Sub(q, o)[1..];
      }
    }
  }

  /** The request at the front goes to the service VM. */
  lemma IssueBooks(s: IO)
    requires Books(s) && HasFront(s.io) && Front(s.io).data.IoTask? && Front(s.io).state == Pending
    ensures Books(Issue(s)) && InFlight(Issue(s))
  {
    var s' := Issue(s);
    SetFrontOk(s.io, Running);
    SameLedger(s, s');
    assert Served(s.done) + [] == Served(s.done);
  }

  lemma ReportBooks(s: IO)
    requires Books(s) && InFlight(s)
    ensures Books(s.(io := SetFrontState(s.io, Finish)))
  {
    SetFrontOk(s.io, Finish);
    SameLedger(s, s.(io := SetFrontState(s.io, Finish)));
  }

  lemma {:induction false} WrittenNone(done: seq<Done>, vm: nat)
    requires forall k :: 0 <= k < |done| ==> done[k].vmid != vm
    ensures Written(done, vm) == []
  {
    if done != [] { WrittenNone(done[..|done| - 1], vm); }
  }

  lemma {:induction false} AcceptedSplit(c: Config, a: seq<Req>, b: seq<Req>)
    ensures Accepted(c, a + b) == Accepted(c, a) + Accepted(c, b)
  {
    if a == [] {
      assert a + b == b;
    } else {
      assert (a + b)[1..] == a[1..] + b;
      AcceptedSplit(c, a[1..], b);
    }
  }

  lemma RegisterLedger(s: IO, vm: nat, c: Config)
    requires Ledger(s) && Truthful(s) && Enabled(s, Register(vm, c))
    ensures Ledger(Do(s, Register(vm, c)))
  {
    var s' := Do(s, Register(vm, c));
    forall v | v in s'.used && v in s'.asked && v in s'.ring && v in s'.cfg ensures Settled(s', v) {
      if v == vm {
        WrittenNone(s.done, vm);
      } else {
        assert Settled(s, v);
      }
    }
  }

  lemma RegisterPaired(s: IO, vm: nat, c: Config)
    requires Paired(s) && Enabled(s, Register(vm, c))
    ensures Paired(Do(s, Register(vm, c)))
  {
    assert Sub(s.io, vm) == [];
  }

  lemma RegisterBooks(s: IO, vm: nat, c: Config)
    requires Books(s) && Enabled(s, Register(vm, c))
    ensures Books(Do(s, Register(vm, c)))
  {
    RegisterLedger(s, vm, c);
    RegisterPaired(s, vm, c);
    RegisterKeys(s, vm, c);
  }

  lemma RegisterKeys(s: IO, vm: nat, c: Config)
    requires Registered(s) && Truthful(s) && OneAtATime(s) && Enabled(s, Register(vm, c))
    ensures var s' := Do(s, Register(vm, c));
      Registered(s') && Truthful(s') && OneAtATime(s') && s'.io == s.io && s'.panic == s.panic
  {
  }

  lemma {:induction false} SettlePost(asked: seq<UsedInfo>, before: seq<UsedInfo>, c: Config, ring: seq<Req>,
      reqs: seq<Req>)
    requires asked == before + Accepted(c, ring)
    ensures asked + Accepted(c, reqs) == before + Accepted(c, ring + reqs)
  {
    AcceptedSplit(c, ring, reqs);
    assert (before + Accepted(c, ring)) + Accepted(c, reqs) == before + (Accepted(c, ring) + Accepted(c, reqs));
  }

  lemma PostLedger(s: IO, vm: nat, reqs: seq<Req>)
    requires Ledger(s) && Registered(s) && Enabled(s, Post(vm, reqs))
    ensures Ledger(Do(s, Post(vm, reqs)))
  {
    var s' := Do(s, Post(vm, reqs));
    forall v | v in s'.used ensures Settled(s', v) {
      assert Settled(s, v);
      if v == vm {
        SettlePost(s.asked[vm], Written(s.done, vm) + s.used[vm], s.cfg[vm], s.ring[vm], reqs);
      }
    }
  }

  lemma PostBooks(s: IO, vm: nat, reqs: seq<Req>)
    requires Books(s) && Enabled(s, Post(vm, reqs))
    ensures Books(Do(s, Post(vm, reqs)))
  {
    PostLedger(s, vm, reqs);
  }

  // ------------------------------------------------------- the books, over one step

  /** The step is about notifications and the status only. */
  ghost predicate SameBooks(s: IO, s': IO) {
    s' == s.(ipi := s'.ipi, gone := s'.gone, scheduling := s'.scheduling, posted := s'.posted, core := s'.core,
      guests := s'.guests)
  }

  lemma BooksKept(s: IO, s': IO)
    requires Books(s) && SameBooks(s, s')
    ensures Books(s')
  {
    SameLedger(s, s');
  }

  lemma DrainBooks(s: IO)
    requires Books(s) && s.core.Drain? && s.core.vm in s.ring && Harmless(s, s.core.vm)
    ensures Books(CoreStep(s))
  {
    var vm := s.core.vm;
    if s.core.left > 0 && s.ring[vm] != [] {
      TakeBooks(s, vm);
      BooksKept(Take(s, vm), CoreStep(s));
    } else {
      BooksKept(s, CoreStep(s));
    }
  }

  lemma LoopBooks(s: IO)
    requires Books(s) && s.core == Loop
    ensures Books(CoreStep(s))
  {
    WFHasFront(s.io);
    if !HasFront(s.io) {
      BooksKept(s, CoreStep(s));
    } else if Front(s.io).state == Pending {
      IssueBooks(s);
      BooksKept(Issue(s), CoreStep(s));
    } else if Front(s.io).state == Running {
      BooksKept(s, CoreStep(s));
    } else {
      FinishBooks(s);
    }
  }

  /** The queue is empty or has a front, and only block tasks wait or run. */
  predicate FrontOk(q: Queue) {
    (q.subs != map[] <==> HasFront(q)) && (HasFront(q) && Front(q).state != Finish ==> Front(q).data.IoTask?)
  }

  /** What the step finds where the cores are as they should be. */
  predicate Ready(s: IO, e: Event)
    requires Enabled(s, e)
  {
    match e
    case Look => s.core == Rest && s.io.subs == map[]
    case Mark(i) => s.core == Rest && s.ipi != [] && Note(s, s.guests.holding[i]).state == Pending
    case Send => s.core == Rest && s.ipi != []
    case Arrive => s.ipi != [] && s.guests.sent[0] == s.ipi[0].vmid
    case Notify(_) => s.core.Drain? || s.core.Drop? ==> s.ipi != []
    case Go => GoReady(s)
    case Report => InFlight(s)
    case _ => true
  }

  predicate GoReady(s: IO) {
    match s.core
    case Drain(vm, left, _) => s.ipi != [] && vm in s.ring && left <= |s.ring[vm]|
    case Drop(_) => s.ipi != []
    case Holds(k) => s.ipi != [] && k == |s.gone| && s.ipi[0].state == Pending
    case _ => true
  }

  lemma GoSame(s: IO)
    requires s.core != Rest && GoReady(s) && !s.core.Drain? && s.core != Loop
    ensures SameBooks(s, CoreStep(s))
  {
  }

  lemma GoBooks(s: IO)
    requires Books(s) && s.core != Rest && GoReady(s)
    requires s.core.Drain? ==> Harmless(s, s.core.vm)
    ensures Books(CoreStep(s))
  {
    if s.core.Drain? {
      DrainBooks(s);
    } else if s.core == Loop {
      LoopBooks(s);
    } else {
      GoSame(s);
      BooksKept(s, CoreStep(s));
    }
  }

  /** Guests' cores and interrupts leave the books alone. */
  lemma GuestSame(s: IO, e: Event)
    requires Enabled(s, e) && Ready(s, e) && (e.Notify? || e.Look? || e.Mark? || e.Send? || e.Reset? || e.Arrive?)
    ensures SameBooks(s, Do(s, e))
  {
  }

  lemma ReportStepBooks(s: IO)
    requires Books(s) && InFlight(s) && Enabled(s, Report)
    ensures Books(Do(s, Report))
  {
    ReportBooks(s);
    BooksKept(s.(io := SetFrontState(s.io, Finish)), Do(s, Report));
  }

  lemma StepBooks(s: IO, e: Event)
    requires Books(s) && Enabled(s, e) && Ready(s, e)
    requires e.Go? && s.core.Drain? ==> Harmless(s, s.core.vm)
    ensures Books(Do(s, e))
  {
    match e
    case Register(vm, c) => RegisterBooks(s, vm, c);
    case Post(vm, reqs) => PostBooks(s, vm, reqs);
    case Go => GoBooks(s);
    case Report => ReportStepBooks(s);
    case _ =>
      GuestSame(s, e);
      BooksKept(s, Do(s, e));
  }

  // ------------------------------------------------------- the rings, over one step

  ghost predicate SameNames(a: seq<AsyncTask>, b: seq<AsyncTask>) {
    |a| == |b| && forall k :: 0 <= k < |a| ==> a[k].vmid == b[k].vmid
  }

  lemma StillHas(a: seq<AsyncTask>, b: seq<AsyncTask>, v: nat)
    requires SameNames(a, b) && HasIpi(a, v)
    ensures HasIpi(b, v)
  {
    var k :| 0 <= k < |a| && a[k].vmid == v;
    assert b[k].vmid == v;
  }

  lemma StillCalled(ts: seq<AsyncTask>, t: AsyncTask, v: nat)
    ensures HasIpi(ts + [t], v) <==> HasIpi(ts, v) || v == t.vmid
  {
    assert (ts + [t])[|ts|] == t;
    if HasIpi(ts, v) {
      var k :| 0 <= k < |ts| && ts[k].vmid == v;
      assert (ts + [t])[k].vmid == v;
    }
  }

  /** The same requests, the same notifications waiting. */
  lemma RingsKept(s: IO, s': IO)
    requires Rings(s) && s'.ring == s.ring && s'.cfg == s.cfg && s'.posted == s.posted
    requires SameNames(Waiting(s), Waiting(s')) && (forall v :: Taking(s', v) == Taking(s, v))
    requires forall k :: 0 <= k < |s'.ipi| ==> s'.ipi[k].vmid in s.ring
    ensures Rings(s')
  {
    forall v | v in s'.ring ensures Called(s', v) {
      assert Called(s, v);
      if HasIpi(Waiting(s), v) { StillHas(Waiting(s), Waiting(s'), v); }
    }
    forall v | v in s'.ring && v in s'.cfg ensures Harmless(s', v) {
      assert Harmless(s, v);
    }
  }

  lemma TakeRings(s: IO, vm: nat, s': IO)
    requires Rings(s) && s.core.Drain? && s.core.vm == vm && s.core.left > 0 && vm in s.ring && s.ring[vm] != []
    requires s'.ring == s.ring[vm := s.ring[vm][1..]] && s'.cfg == s.cfg && s'.posted == s.posted && s'.ipi == s.ipi
    requires s'.core == s.core.(left := s.core.left - 1)
    ensures Rings(s')
  {
    forall v | v in s'.ring ensures Called(s', v) {
      assert Called(s, v);
    }
    forall v | v in s'.ring && v in s'.cfg ensures Harmless(s', v) {
      assert Harmless(s, v);
    }
  }

  /** Core 0 turns to the front notification: what it takes is all its VM has in
      its ring, and the other VMs' notifications are behind it. */
  lemma StartRings(s: IO, s': IO)
    requires Rings(s) && !s.core.Drain? && !s.core.Drop? && s.ipi != []
    requires s'.core.Drain? && s'.core.vm == s.ipi[0].vmid && s'.core.vm in s.ring
      && s'.core.left == |s.ring[s'.core.vm]|
    requires SameNames(s.ipi, s'.ipi) && s'.cfg == s.cfg && s'.ring == s.ring && s'.posted == s.posted
    ensures Rings(s')
  {
    forall v | v in s'.ring ensures Called(s', v) {
      assert Called(s, v);
      if v != s.ipi[0].vmid && HasIpi(s.ipi, v) {
        var k :| 0 <= k < |s.ipi| && s.ipi[k].vmid == v;
        assert s'.ipi[1..][k - 1].vmid == v;
      }
    }
    forall v | v in s'.ring && v in s'.cfg ensures Harmless(s', v) {
      assert Harmless(s, v);
    }
  }

  lemma HoldsRings(s: IO)
    requires Rings(s) && s.core.Holds? && s.core.k == |s.gone| && s.ipi != [] && s.ipi[0].state == Pending
    ensures Rings(CoreStep(s))
  {
    assert s.ipi[0].vmid in s.ring;
    StartRings(s, CoreStep(s));
  }

  lemma TakeFrame(s: IO, vm: nat)
    requires vm in s.ring && s.ring[vm] != [] && vm in s.cfg
    ensures var s' := Take(s, vm);
      && s'.ring == s.ring[vm := s.ring[vm][1..]] && s'.cfg == s.cfg && s'.posted == s.posted && s'.ipi == s.ipi
      && s'.guests == s.guests && s'.scheduling == s.scheduling
  {
  }

  lemma DrainRings(s: IO)
    requires Rings(s) && s.core.Drain? && s.ring.Keys == s.cfg.Keys && s.core.vm in s.ring
      && s.core.left <= |s.ring[s.core.vm]|
    ensures Rings(CoreStep(s))
  {
    var vm := s.core.vm;
    if s.core.left > 0 {
      TakeFrame(s, vm);
      TakeRings(s, vm, CoreStep(s));
    } else {
      RingsKept(s, CoreStep(s));
    }
  }

  /** The executor's turn on a block task is not about notifications. */
  lemma LoopTaskSame(s: IO)
    requires HasFront(s.io) && s.core == Loop
    ensures var s' := LoopTask(s);
      && s'.ring == s.ring && s'.cfg == s.cfg && s'.posted == s.posted && s'.ipi == s.ipi && s'.guests == s.guests
      && (s'.core == Loop || s'.core == Leave)
  {
  }

  lemma LoopRings(s: IO)
    requires Rings(s) && s.core == Loop && FrontOk(s.io)
    ensures Rings(CoreStep(s))
  {
    if s.io.subs != map[] { LoopTaskSame(s); }
    RingsKept(s, CoreStep(s));
  }

  lemma DropRings(s: IO)
    requires Rings(s) && s.core.Drop? && s.ipi != []
    ensures Rings(CoreStep(s))
  {
    RingsKept(s, CoreStep(s));
  }

  lemma GoRings(s: IO)
    requires Rings(s) && GoReady(s) && s.ring.Keys == s.cfg.Keys && s.core != Rest && FrontOk(s.io)
    ensures Rings(CoreStep(s))
  {
    if s.core.Drain? { DrainRings(s); }
    else if s.core.Drop? { DropRings(s); }
    else if s.core == Loop { LoopRings(s); }
    else if s.core.Holds? { HoldsRings(s); }
    else { RingsKept(s, CoreStep(s)); }
  }

  lemma PostRings(s: IO, vm: nat, reqs: seq<Req>)
    requires Rings(s) && Enabled(s, Post(vm, reqs)) && s.ring.Keys == s.cfg.Keys
    ensures Rings(Do(s, Post(vm, reqs)))
  {
    var s' := Do(s, Post(vm, reqs));
    forall v | v in s'.ring ensures Called(s', v) {
      if v != vm { assert Called(s, v); }
    }
    forall v | v in s'.ring && v in s'.cfg ensures Harmless(s', v) {
      assert Harmless(s, v);
    }
  }

  lemma RegisterRings(s: IO, vm: nat, c: Config)
    requires Rings(s) && Enabled(s, Register(vm, c)) && s.ring.Keys == s.used.Keys
    ensures Rings(Do(s, Register(vm, c)))
  {
    var s' := Do(s, Register(vm, c));
    forall v | v in s'.ring ensures Called(s', v) {
      if v != vm { assert Called(s, v); }
    }
    forall v | v in s'.ring && v in s'.cfg ensures Harmless(s', v) {
      if v != vm { assert v in s.ring && v in s.cfg && Harmless(s, v); }
    }
  }

  lemma NotifyRings(s: IO, vm: nat)
    requires Rings(s) && Enabled(s, Notify(vm)) && vm in s.ring && (s.core.Drain? || s.core.Drop? ==> s.ipi != [])
    ensures Rings(Do(s, Notify(vm)))
  {
    var s', t := Do(s, Notify(vm)), IpiOf(s.cfg[vm], vm);
    assert Waiting(s') == Waiting(s) + [t];
    forall v | v in s'.ring ensures Called(s', v) {
      assert Called(s, v);
      StillCalled(Waiting(s), t, v);
    }
    forall v | v in s'.ring && v in s'.cfg ensures Harmless(s', v) {
      assert Harmless(s, v);
    }
  }

  lemma MarkRings(s: IO, i: nat)
    requires Rings(s) && Enabled(s, Mark(i)) && Ready(s, Mark(i))
    ensures Rings(Do(s, Mark(i)))
  {
    RingsKept(s, Do(s, Mark(i)));
  }

  lemma ReportRings(s: IO)
    requires Rings(s) && Enabled(s, Report)
    ensures Rings(Do(s, Report))
  {
    RingsKept(s, Do(s, Report));
  }

  lemma GuestRings(s: IO, e: Event)
    requires Rings(s) && Enabled(s, e) && Ready(s, e) && (e.Look? || e.Send? || e.Reset?)
    ensures Rings(Do(s, e))
  {
    RingsKept(s, Do(s, e));
  }

  lemma ArriveRings(s: IO)
    requires Rings(s) && Enabled(s, Arrive) && s.ipi != [] && s.guests.sent[0] == s.ipi[0].vmid
    ensures Rings(Do(s, Arrive))
  {
    assert s.ipi[0].vmid in s.ring;
    StartRings(s, Do(s, Arrive));
  }

  lemma StepRings(s: IO, e: Event)
    requires Rings(s) && Registered(s) && FrontOk(s.io) && Enabled(s, e) && Ready(s, e)
    ensures Rings(Do(s, e))
  {
    match e
    case Register(vm, c) => RegisterRings(s, vm, c);
    case Post(vm, reqs) => PostRings(s, vm, reqs);
    case Notify(vm) => NotifyRings(s, vm);
    case Arrive => ArriveRings(s);
    case Go => GoRings(s);
    case Mark(i) => MarkRings(s, i);
    case Report => ReportRings(s);
    case _ => GuestRings(s, e);
  }

  // ------------------------------------------------------- the cores, over one step

  ghost predicate NotesOk(s: IO) { forall k :: 0 <= k < |s.ipi| ==> s.ipi[k].vmid in s.ring && s.ipi[k].vmid in s.cfg }

  lemma DrainPhase(s: IO)
    requires PhaseOk(s) && s.core.Drain? && s.core.vm in s.cfg
    ensures PhaseOk(CoreStep(s))
  {
  }

  lemma LoopPhase(s: IO)
    requires LoopingOk(s) && s.core == Loop && FrontOk(s.io)
    ensures PhaseOk(CoreStep(s))
  {
    if s.io.subs != map[] { LoopTaskPhase(s); }
  }

  lemma LoopTaskPhase(s: IO)
    requires LoopingOk(s) && s.core == Loop && FrontOk(s.io) && HasFront(s.io)
    ensures PhaseOk(LoopTask(s))
  {
    var s' := LoopTask(s);
    LoopTaskSame(s);
    assert LoopingOk(s');
    if Front(s.io).state == Pending { IssueFront(s); }
  }

  lemma IssueFront(s: IO)
    requires HasFront(s.io) && Front(s.io).data.IoTask?
    ensures InFlight(Issue(s))
  {
  }

  lemma HoldsPhase(s: IO)
    requires PhaseOk(s) && s.core.Holds? && NotesOk(s)
    ensures PhaseOk(CoreStep(s))
  {
    assert s.ipi[0].vmid in s.ring;
  }

  lemma GoPhase(s: IO)
    requires PhaseOk(s) && s.core != Rest && FrontOk(s.io) && NotesOk(s)
    ensures PhaseOk(CoreStep(s))
  {
    match s.core
    case Drain(_, _, _) => DrainPhase(s);
    case Loop => LoopPhase(s);
    case Holds(_) => HoldsPhase(s);
    case _ =>
  }

  lemma GuestPhase(s: IO, e: Event)
    requires PhaseOk(s) && Enabled(s, e) && NotesOk(s) && (e.Look? || e.Mark? || e.Send? || e.Reset? || e.Arrive?)
    ensures PhaseOk(Do(s, e))
  {
    var h := s.guests.holding;
    if e.Mark? {
      assert |h| == 1 && h[..0] + h[1..] == [];
    }
  }

  lemma NotifyPhase(s: IO, vm: nat)
    requires PhaseOk(s) && Enabled(s, Notify(vm)) && (s.core == Rest || !NeedExecute(s))
    ensures PhaseOk(Do(s, Notify(vm)))
  {
    var s' := Do(s, Notify(vm));
    assert s.ipi != [] ==> s'.ipi[1..] == s.ipi[1..] + [s'.ipi[|s.ipi|]];
  }

  lemma OtherPhase(s: IO, e: Event)
    requires PhaseOk(s) && Enabled(s, e) && FrontOk(s.io) && Sound(s, e) && (e.Register? || e.Post? || e.Report?)
    requires s.ring.Keys == s.used.Keys
    ensures PhaseOk(Do(s, e))
  {
  }

  lemma StepPhase(s: IO, e: Event)
    requires PhaseOk(s) && Enabled(s, e) && Sound(s, e) && FrontOk(s.io) && NotesOk(s) && s.ring.Keys == s.used.Keys
    ensures PhaseOk(Do(s, e))
  {
    match e
    case Notify(vm) => NotifyPhase(s, vm);
    case Go => GoPhase(s);
    case Register(_, _) => OtherPhase(s, e);
    case Post(_, _) => OtherPhase(s, e);
    case Report => OtherPhase(s, e);
    case _ => GuestPhase(s, e);
  }

  lemma StepReady(s: IO, e: Event)
    requires PhaseOk(s) && Enabled(s, e) && Sound(s, e) && FrontOk(s.io)
    ensures Ready(s, e)
  {
  }

  // ------------------------------------------------------------------- whole runs

  /** What a core can check before it makes the step: a guest whose notification
      would make it wake core 0 finds core 0 outside its handlers, and the service
      VM reports only while a block task is queued. */
  predicate Sound(s: IO, e: Event) {
    match e
    case Notify(_) => s.core == Rest || !NeedExecute(s)
    case Report => HasFront(s.io)
    case _ => true
  }

  lemma InvFacts(s: IO)
    requires Books(s) && Rings(s)
    ensures FrontOk(s.io) && NotesOk(s) && Registered(s)
    ensures forall vm {:trigger Harmless(s, vm)} :: vm in s.ring ==> Harmless(s, vm)
  {
    WFHasFront(s.io);
  }

  /** Every sound step keeps the invariant. */
  lemma StepInv(s: IO, e: Event)
    requires Inv(s) && Enabled(s, e) && Sound(s, e)
    ensures Inv(Do(s, e))
  {
    InvFacts(s);
    StepReady(s, e);
    StepBooks(s, e);
    StepRings(s, e);
    StepPhase(s, e);
  }

  predicate RunSound(s: IO, es: seq<Event>)
    requires RunEnabled(s, es)
    decreases |es|
  {
    es == [] || (Sound(s, es[0]) && RunSound(Do(s, es[0]), es[1..]))
  }

  /** Every state a sound run reaches satisfies the invariant; in particular no
      sound run panics. */
  lemma {:induction false} RunInv(s: IO, es: seq<Event>)
    requires Inv(s) && RunEnabled(s, es) && RunSound(s, es)
    ensures Inv(RunIo(s, es))
    decreases |es|
  {
    if es != [] {
      StepInv(s, es[0]);
      RunInv(Do(s, es[0]), es[1..]);
    }
  }

  lemma BootInv()
    ensures Inv(BOOT)
  {
    assert Served([]) + Outstanding(EMPTY) == [];
  }

  /** In every sound run, what a VM finds in its used ring is, entry for entry, a prefix
      of the accepted requests it made, each completion wrote the record of the
      request it completed, and the service VM has at most one request. */
  lemma {:induction false} CompletionsMatchRequests(es: seq<Event>, vm: nat)
    requires RunEnabled(BOOT, es) && RunSound(BOOT, es)
    ensures var s := RunIo(BOOT, es);
      && !s.panic
      && (vm in s.used ==> vm in s.asked && Written(s.done, vm) <= s.asked[vm])
      && (forall k :: 0 <= k < |s.done| ==> s.done[k].written == s.done[k].req)
      && Served(s.done) <= s.issued && |s.issued| <= |Served(s.done)| + 1
  {
    BootInv();
    RunInv(BOOT, es);
    InvMeans(RunIo(BOOT, es), vm);
  }

  lemma {:induction false} InvMeans(s: IO, vm: nat)
    requires !s.panic && Registered(s) && Ledger(s) && Truthful(s) && OneAtATime(s)
    ensures !s.panic && (vm in s.used ==> vm in s.asked && Written(s.done, vm) <= s.asked[vm])
    ensures forall k :: 0 <= k < |s.done| ==> s.done[k].written == s.done[k].req
    ensures Served(s.done) <= s.issued && |s.issued| <= |Served(s.done)| + 1
  {
    if vm in s.used {
      assert Settled(s, vm);
      assert s.asked[vm] == Written(s.done, vm) + (s.used[vm] + Accepted(s.cfg[vm], s.ring[vm]));
    }
  }

  lemma {:induction false} ReportSteps(s: IO, t: AsyncTask)
    requires s.core == Rest && !s.panic && !s.scheduling && InFlight(s) && t == Front(s.io)
    requires t.vmid in s.used && s.used[t.vmid] != [] && s.used[t.vmid][0] == t.req
    ensures RunEnabled(s, [Report, Go, Go])
    ensures RunIo(s, [Report, Go, Go]).done == s.done + [Done(t.vmid, t.req, t.req, true)]
  {
    var s1 := Do(s, Report);
    var s2 := s1.(scheduling := true, core := Loop);
    assert Do(s1, Go) == s2;
    assert Do(s2, Go) == FinishIo(s2);
    assert [Report, Go, Go][1..] == [Go, Go] && [Go, Go][1..] == [Go] && [Go][1..] == [];
  }

  /** A report completes the request in flight, two steps of core 0 later. */
  lemma {:induction false} ReportCompletes(s: IO)
    requires Inv(s) && s.core == Rest && HasFront(s.io)
    ensures var t := Front(s.io);
      && RunEnabled(s, [Report, Go, Go])
      && RunIo(s, [Report, Go, Go]).done == s.done + [Done(t.vmid, t.req, t.req, true)]
  {
    FinishPaired(s);
    ReportSteps(s, Front(s.io));
  }
}
