/** What requests change on the disk, and whether they stay in their VM's part of it. */
module BlockIoDisk {
  import opened Tasks
  import opened FairQueue
  import opened BlockIo
  import opened BlockIoSafety
  import opened BlockIoRequests
  import opened BlockIoRace
  import opened BlockIoData

  // ------------------------------------------------------------- a VM's part of the disk

  predicate InPart(c: Config, k: int) { c.start <= k < c.start + c.size }

  /** The request ends within the VM's part, or is for no sector at all. */
  predicate Stays(c: Config, r: Req) { r.bytes / 512 == 0 || r.sector + r.bytes / 512 <= c.size }

  /** That keeps it in the part, and nothing else does; the code's range test compares with
      something else. */
  lemma StaysIff(c: Config, r: Req)
    ensures (forall k: int :: Covers(c, r, k) ==> InPart(c, k)) <==> Stays(c, r)
  {
    if r.bytes / 512 > 0 {
      assert Covers(c, r, c.start + r.sector + r.bytes / 512 - 1);
    }
  }

  /** The range test keeps every request in the VM's part exactly when the part starts at
      sector 0. */
  lemma RangeTestIff(c: Config)
    ensures (forall r: Req, k: int :: r.kind.Write? && Passes(c, r) && Covers(c, r, k) ==> InPart(c, k))
      <==> c.start == 0
  {
    if c.start > 0 {
      var r := Req(Write, c.start + c.size - 1, 512, UsedInfo(0, 0));
      assert Passes(c, r) && Covers(c, r, c.start + r.sector) && !InPart(c, c.start + r.sector);
    }
  }

  // ------------------------------------------------------------ what changes on the disk

  predicate WritesAt(cfg: Configs, x: Entry, k: int) { x.Written? && x.vm in cfg && Covers(cfg[x.vm], x.req, k) }

  ghost predicate WrittenAt(cfg: Configs, log: seq<Entry>, k: int) {
    exists j :: 0 <= j < |log| && WritesAt(cfg, log[j], k)
  }

  /** Whatever differs from the disk at the start is at the sectors of a write. */
  ghost predicate Trail(cfg: Configs, log: seq<Entry>, disk: nat -> nat, was: nat -> nat) {
    forall k: nat :: disk(k) != was(k) ==> WrittenAt(cfg, log, k)
  }

  lemma WrittenStays(cfg: Configs, log: seq<Entry>, cfg': Configs, log': seq<Entry>, k: int)
    requires WrittenAt(cfg, log, k) && |log| <= |log'| && log'[..|log|] == log
    requires forall vm :: vm in cfg ==> vm in cfg' && cfg'[vm] == cfg[vm]
    ensures WrittenAt(cfg', log', k)
  {
    var j :| 0 <= j < |log| && WritesAt(cfg, log[j], k);
    assert log'[j] == log'[..|log|][j];
    assert WritesAt(cfg', log'[j], k);
  }

  lemma TrailStays(cfg: Configs, log: seq<Entry>, cfg': Configs, log': seq<Entry>, disk: nat -> nat, was: nat -> nat)
    requires Trail(cfg, log, disk, was) && |log| <= |log'| && log'[..|log|] == log
    requires forall vm :: vm in cfg ==> vm in cfg' && cfg'[vm] == cfg[vm]
    ensures Trail(cfg', log', disk, was)
  {
    forall k: nat | disk(k) != was(k) ensures WrittenAt(cfg', log', k) { WrittenStays(cfg, log, cfg', log', k); }
  }

  /** One more write. */
  lemma TrailWrite(cfg: Configs, log: seq<Entry>, x: Entry, was: nat -> nat)
    requires x.Written? && True(cfg, x) && Trail(cfg, log, x.before, was)
    ensures Trail(cfg, log + [x], x.after, was)
  {
    TrailStays(cfg, log, cfg, log + [x], x.before, was);
    forall k: nat | x.after(k) != was(k) ensures WrittenAt(cfg, log + [x], k) {
      if x.after(k) != x.before(k) { assert WritesAt(cfg, (log + [x])[|log|], k); }
    }
  }

  ghost predicate TrailOk(d: Data, was: nat -> nat) { Trail(d.io.cfg, d.log, d.disk, was) }

  lemma TrailServe(d: Data, was: nat -> nat)
    requires DataInv(d) && DataEnabled(d, Serve) && TrailOk(d, was)
    ensures TrailOk(DataDo(d, Serve), was)
  {
    var r := DataDo(d, Serve);
    ServeTrue(d);
    if Front(d.io.io).data.io == Out {
      assert True(d.io.cfg, r.log[|d.log|]);
      TrailWrite(d.io.cfg, d.log, r.log[|d.log|], was);
    }
  }

  lemma StepFrame(d: Data, e: Event)
    requires DataEnabled(d, Step(e))
    ensures var r := DataDo(d, Step(e));
      r.io == Do(d.io, e) && r.disk == d.disk && |d.log| <= |r.log| && r.log[..|d.log|] == d.log
  {
  }

  lemma TrailTask(d: Data, e: Event, was: nat -> nat)
    requires DataInv(d) && DataEnabled(d, Step(e)) && Sound(d.io, e) && TrailOk(d, was)
    ensures TrailOk(DataDo(d, Step(e)), was)
  {
    StepCfg(d.io, e);
    StepFrame(d, e);
    var r := DataDo(d, Step(e));
    TrailStays(d.io.cfg, d.log, r.io.cfg, r.log, d.disk, was);
  }

  lemma TrailStep(d: Data, x: DataEvent, was: nat -> nat)
    requires DataInv(d) && DataEnabled(d, x) && DataSound(d, x) && TrailOk(d, was)
    ensures TrailOk(DataDo(d, x), was)
  {
    match x
    case Step(e) => TrailTask(d, e, was);
    case Serve => TrailServe(d, was);
    case GuestStore(_, _) =>
  }

  lemma {:induction false} TrailRun(d: Data, xs: seq<DataEvent>, was: nat -> nat)
    requires DataInv(d) && DataRunSound(d, xs) && TrailOk(d, was)
    ensures TrailOk(DataRun(d, xs), was)
    decreases |xs|
  {
    if xs != [] {
      DataStepInv(d, xs[0]);
      TrailStep(d, xs[0], was);
      TrailRun(DataDo(d, xs[0]), xs[1..], was);
    }
  }

  /** Every write carried out stayed in its VM's part. */
  ghost predicate AllStay(cfg: Configs, log: seq<Entry>) {
    forall j :: 0 <= j < |log| && log[j].Written? && log[j].vm in cfg ==> Stays(cfg[log[j].vm], log[j].req)
  }

  /** In every sound run the disk changes only at sectors of writes that guests asked for;
      if every one of them stays in its VM's part (`StaysIff` says which do), only inside
      the VMs' parts. */
  lemma {:induction false} OnlyWritesChange(cache: seq<nat>, disk: nat -> nat, bufs: map<Key, seq<nat>>,
      xs: seq<DataEvent>)
    requires DataRunSound(Booted(cache, disk, bufs), xs)
    ensures var d := DataRun(Booted(cache, disk, bufs), xs);
      forall k: nat :: d.disk(k) != disk(k) ==>
        WrittenAt(d.io.cfg, d.log, k) && (AllStay(d.io.cfg, d.log) ==> InSomePart(d.io.cfg, k))
  {
    BootInv();
    TrailRun(Booted(cache, disk, bufs), xs, disk);
    var d := DataRun(Booted(cache, disk, bufs), xs);
    forall k: nat | d.disk(k) != disk(k)
      ensures WrittenAt(d.io.cfg, d.log, k) && (AllStay(d.io.cfg, d.log) ==> InSomePart(d.io.cfg, k))
    {
      if AllStay(d.io.cfg, d.log) { WrittenInPart(d.io.cfg, d.log, k); }
    }
  }

  predicate InSomePart(cfg: Configs, k: int) { exists vm :: vm in cfg && InPart(cfg[vm], k) }

  lemma WrittenInPart(cfg: Configs, log: seq<Entry>, k: int)
    requires WrittenAt(cfg, log, k) && AllStay(cfg, log)
    ensures InSomePart(cfg, k)
  {
    var j :| 0 <= j < |log| && WritesAt(cfg, log[j], k);
    StaysIff(cfg[log[j].vm], log[j].req);
  }

  // ------------------------------------------------------------- a write outside the part

  function Lift(es: seq<Event>): (xs: seq<DataEvent>)
    ensures |xs| == |es|
  {
    if es == [] then [] else [Step(es[0])] + Lift(es[1..])
  }

  predicate NoReport(es: seq<Event>) { forall k :: 0 <= k < |es| ==> !es[k].Report? }

  /** A run without the service VM is a run of the data. */
  lemma {:induction false} LiftRun(d: Data, es: seq<Event>)
    requires RunEnabled(d.io, es) && RunSound(d.io, es) && NoReport(es)
    ensures DataRunSound(d, Lift(es)) && DataRun(d, Lift(es)).io == RunIo(d.io, es)
    ensures !d.served ==> !DataRun(d, Lift(es)).served
    decreases |es|
  {
    if es != [] {
      assert Lift(es)[1..] == Lift(es[1..]);
      LiftRun(DataDo(d, Step(es[0])), es[1..]);
    }
  }

  /** From the interrupt on: the only request is accepted and handed out. */
  lemma AcceptReaches(s: IO, vm: nat, r: Req) returns (es: seq<Event>, g: IO)
    requires s.core == Rest && !s.panic && !s.scheduling && WF(s.io) && s.io.subs == map[]
      && s.ipi != [] && s.ipi[1..] == []
    requires vm in s.ring && vm in s.cfg && s.ring[vm] == [r] && s.guests.sent == [vm]
    requires r.kind.Write? && Passes(s.cfg[vm], r)
    ensures Reaches(s, es, g) && NoReport(es) && HandedOut(s.cfg, g, vm, r)
  {
    var t := MakeTask(s.cfg[vm], vm, r);
    WFHasFront(s.io);
    var s1 := s.(guests := s.guests.(sent := []), core := Drain(vm, 1, false));
    var s2 := s1.(ring := s.ring[vm := []], core := Drain(vm, 0, false), io := Push(s.io, t),
                  used := if vm in s.used then s.used[vm := s.used[vm] + [r.info]] else s.used);
    assert [r][1..] == [];
    assert Do(s, Arrive) == s1;
    assert Do(s1, Go) == s2;
    es, g := DrainedReaches(s2, t);
    ReachesFirst(s1, Go, es, g);
    ReachesFirst(s, Arrive, [Go] + es, g);
    es := [Arrive] + ([Go] + es);
  }

  /** Core 0 is back in the service VM, which has the VM's write. */
  predicate HandedOut(cfg: Configs, g: IO, vm: nat, r: Req) {
    && g.core == Rest && !g.panic && InFlight(g) && g.cfg == cfg && vm in cfg && Front(g.io).vmid == vm
    && Front(g.io).data == IoTask(Out, cfg[vm].start + r.sector, r.bytes / 512)
  }

  /** From the last request of the ring to the executor. */
  lemma DrainedReaches(s: IO, t: AsyncTask) returns (es: seq<Event>, g: IO)
    requires s.core.Drain? && s.core.left == 0 && !s.core.looping && !s.panic && !s.scheduling && s.ipi != []
    requires s.io.subs != map[] && HasFront(s.io) && Front(s.io) == t && t.data.IoTask? && t.state == Pending
    ensures Reaches(s, es, g) && NoReport(es) && g.core == Rest && !g.panic && InFlight(g)
    ensures g.cfg == s.cfg && Front(g.io) == t.(state := Running)
  {
    var s1 := s.(core := Drop(false));
    var s2 := s1.(ipi := s.ipi[1..], gone := s.gone + [s.ipi[0]], core := Gap);
    var s3 := s2.(scheduling := true, core := Loop);
    assert Do(s, Go) == s1 && Do(s1, Go) == s2 && Do(s2, Go) == s3;
    es, g := IssueReaches(s3, t);
    ReachesFirst(s2, Go, es, g);
    ReachesFirst(s1, Go, [Go] + es, g);
    ReachesFirst(s, Go, [Go] + ([Go] + es), g);
    es := [Go] + ([Go] + ([Go] + es));
  }

  lemma IssueReaches(s: IO, t: AsyncTask) returns (es: seq<Event>, g: IO)
    requires s.core == Loop && !s.panic && s.io.subs != map[] && HasFront(s.io) && Front(s.io) == t
    requires t.data.IoTask? && t.state == Pending
    ensures Reaches(s, es, g) && NoReport(es) && g.core == Rest && !g.panic && InFlight(g)
    ensures g.cfg == s.cfg && Front(g.io) == t.(state := Running)
  {
    var s1 := Issue(s).(core := Leave);
    g := s1.(scheduling := false, core := Rest);
    assert Do(s, Go) == s1 && Do(s1, Go) == g;
    assert Reaches(g, [], g);
    ReachesFirst(s1, Go, [], g);
    ReachesFirst(s, Go, [Go] + [], g);
    es := [Go] + ([Go] + []);
  }

  /** From an idle state: a VM makes one request and notifies. */
  lemma WriteReaches(s: IO, vm: nat, r: Req) returns (es: seq<Event>, g: IO)
    requires Idle(s) && vm in s.cfg && vm in s.ring && s.ring[vm] == [] && r.kind.Write? && Passes(s.cfg[vm], r)
    ensures Reaches(s, es, g) && NoReport(es) && HandedOut(s.cfg, g, vm, r)
  {
    var s1 := Do(s, Post(vm, [r]));
    assert s1.ring[vm] == [r];
    es, g := AcceptReaches(Sent(s1, vm), vm, r);
    WakeFirst(s1, vm, es, g);
    es := [Notify(vm)] + ([Look] + ([Mark(0)] + ([Send] + es)));
    ReachesFirst(s, Post(vm, [r]), es, g);
    es := [Post(vm, [r])] + es;
  }

  /** A VM whose part does not start at sector 0 needs one request: from every idle state a
      sound run leads to a write, carried out for it, outside its part. */
  lemma WritesOutside(d: Data, vm: nat, r: Req) returns (xs: seq<DataEvent>)
    requires DataInv(d) && Idle(d.io) && vm in d.io.cfg && vm in d.io.ring && d.io.ring[vm] == []
      && d.io.cfg[vm].start > 0
    requires r == Req(Write, d.io.cfg[vm].start + d.io.cfg[vm].size - 1, 512, UsedInfo(0, 0))
    ensures DataRunSound(d, xs) && WroteOutside(DataRun(d, xs), vm)
  {
    var es, g := WriteReaches(d.io, vm, r);
    IdleServed(d);
    LiftRun(d, es);
    DataRunInv(d, Lift(es));
    WrittenOutside(DataRun(d, Lift(es)), vm, r);
    ServeAfter(d, Lift(es));
    xs := Lift(es) + [Serve];
  }

  lemma IdleServed(d: Data)
    requires DataInv(d) && Idle(d.io)
    ensures !d.served
  {
    WFHasFront(d.io.io);
  }

  /** The last transfer was a write of the VM's that did not stay in its part. */
  predicate WroteOutside(d: Data, vm: nat) {
    && d.log != [] && vm in d.io.cfg
    && var x := d.log[|d.log| - 1]; x.Written? && x.vm == vm && !Stays(d.io.cfg[vm], x.req)
  }

  /** The service VM carries the write out. */
  lemma WrittenOutside(e: Data, vm: nat, r: Req)
    requires DataInv(e) && DataEnabled(e, Serve) && HandedOut(e.io.cfg, e.io, vm, r) && !Stays(e.io.cfg[vm], r)
    ensures WroteOutside(DataDo(e, Serve), vm)
  {
    FrontMatches(e.io.cfg, e.io.io, e.due);
  }

  lemma {:induction false} ServeAfter(d: Data, xs: seq<DataEvent>)
    requires DataRunSound(d, xs) && DataEnabled(DataRun(d, xs), Serve)
    ensures DataRunSound(d, xs + [Serve]) && DataRun(d, xs + [Serve]) == DataDo(DataRun(d, xs), Serve)
    decreases |xs|
  {
    if xs == [] {
      assert xs + [Serve] == [Serve];
      assert [Serve][1..] == [];
    } else {
      assert (xs + [Serve])[1..] == xs[1..] + [Serve];
      ServeAfter(DataDo(d, xs[0]), xs[1..]);
    }
  }
}
