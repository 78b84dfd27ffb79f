/** The bytes behind the requests: all block tasks go through one cache, and what keeps
    them apart is that one request is in flight at a time.  Content is one number per
    sector. */
module BlockIoData {
  import opened Wrappers
  import opened Tasks
  import opened FairQueue
  import opened BlockIo
  import opened BlockIoSafety
  import opened BlockIoRequests

  /** A request's buffers in guest memory, named by VM and descriptor head. */
  datatype Key = Key(vmid: nat, head: nat)

  /** A transfer the service VM or the completion carried out for a request. */
  datatype Entry =
    // what the completion put into the buffers of a read, and the disk at that moment
    | Read(vm: nat, req: Req, disk: nat -> nat, got: seq<nat>)
    // the disk before and after a write, and what its buffers held when it was handed out
    | Written(vm: nat, req: Req, before: nat -> nat, after: nat -> nat, given: seq<nat>)

  /** `due` names the requests behind the queued tasks; `served` says that the service VM
      has carried out the request in flight, `given` what the buffers held when a write
      was handed out. */
  datatype Data = Data(
    io: IO, due: Due, cache: seq<nat>, disk: nat -> nat, bufs: map<Key, seq<nat>>,
    served: bool, given: seq<nat>, log: seq<Entry>)

  // ---------------------------------------------------------------------- contents

  /** The first n sectors of a buffer or of the cache. */
  function Get(c: seq<nat>, n: nat): (r: seq<nat>)
    ensures |r| == n
  {
    seq(n, i requires 0 <= i < n => if i < |c| then c[i] else 0)
  }

  /** A copy to the front of the cache. */
  function Over(cache: seq<nat>, c: seq<nat>): seq<nat> { c + if |c| < |cache| then cache[|c|..] else [] }

  function Sectors(disk: nat -> nat, s: nat, n: nat): (r: seq<nat>)
    ensures |r| == n
  {
    seq(n, i requires 0 <= i < n => disk(s + i))
  }

  function Store(disk: nat -> nat, s: nat, c: seq<nat>): nat -> nat {
    (k: nat) => if s <= k < s + |c| then c[k - s] else disk(k)
  }

  lemma OverGet(cache: seq<nat>, c: seq<nat>)
    ensures Get(Over(cache, c), |c|) == c
  {
  }

  /** A write stores its sectors and touches no other. */
  lemma StoreSectors(disk: nat -> nat, s: nat, c: seq<nat>)
    ensures Sectors(Store(disk, s, c), s, |c|) == c
    ensures forall k: nat :: !(s <= k < s + |c|) ==> Store(disk, s, c)(k) == disk(k)
  {
  }

  // ------------------------------------------------------------------------- events

  datatype DataEvent =
    | Step(e: Event)                    // a step of a core, a guest or the service VM
    | Serve                             // the service VM carries out the request in flight
    | GuestStore(key: Key, c: seq<nat>) // a guest writes its buffers

  function KeyOf(t: AsyncTask): Key { Key(t.vmid, t.req.head) }

  predicate DataEnabled(d: Data, x: DataEvent) {
    match x
    case Step(e) => Enabled(d.io, e) && (e == Report ==> d.served)
    case Serve => d.io.core == Rest && InFlight(d.io) && !d.served
    case GuestStore(_, _) => true
  }

  predicate DataSound(d: Data, x: DataEvent) { x.Step? && Enabled(d.io, x.e) ==> Sound(d.io, x.e) }

  /** The executor is about to turn to the block task at the front. */
  predicate Turns(s: IO, e: Event) { e == Go && s.core == Loop && HasFront(s.io) && Front(s.io).data.IoTask? }

  function BufferOf(d: Data, t: AsyncTask): seq<nat>
    requires t.data.IoTask?
  {
    Get(if KeyOf(t) in d.bufs then d.bufs[KeyOf(t)] else [], t.data.count)
  }

  /** `async_blk_io_req` copies a write's buffers to the cache; `finish_async_task`
      copies the cache to a read's buffers. */
  function Transfer(d: Data, t: AsyncTask): Data
    requires t.data.IoTask?
  {
    var n := t.data.count;
    match t.state
    case Pending =>
      if t.data.io == Out then d.(cache := Over(d.cache, BufferOf(d, t)), given := BufferOf(d, t), served := false)
      else d.(served := false)
    case Running => d
    case Finish =>
      if t.data.io == Out then d.(served := false)
      else d.(bufs := d.bufs[KeyOf(t) := Get(d.cache, n)], served := false,
              log := d.log + [Entry.Read(t.vmid, Oldest(d.due, t.vmid), d.disk, Get(d.cache, n))])
  }

  /** What the service VM does for a request. */
  function ServeTask(d: Data, t: AsyncTask): Data
    requires t.data.IoTask?
  {
    var s, n := t.data.sector, t.data.count;
    if t.data.io == In then d.(cache := Over(d.cache, Sectors(d.disk, s, n)), served := true) else
    var disk := Store(d.disk, s, Get(d.cache, n));
    d.(disk := disk, served := true, log := d.log + [Written(t.vmid, Oldest(d.due, t.vmid), d.disk, disk, d.given)])
  }

  function DataDo(d: Data, x: DataEvent): Data
    requires DataEnabled(d, x)
  {
    match x
    case Step(e) =>
      var d1 := if Turns(d.io, e) then Transfer(d, Front(d.io.io)) else d;
      d1.(io := Do(d.io, e), due := DueDo(d.io, d.due, e))
    case Serve => ServeTask(d, Front(d.io.io))
    case GuestStore(key, c) => d.(bufs := d.bufs[key := c])
  }

  // ------------------------------------------------------------- the request in flight

  /** The block task that has been handed out. */
  function Current(q: Queue): Option<AsyncTask> {
    if HasFront(q) && Front(q).data.IoTask? && Front(q).state != Pending then Some(Front(q)) else None
  }

  lemma CurrentPush(q: Queue, t: AsyncTask)
    requires QueueOk(q) && Fresh(t)
    ensures Current(Push(q, t)) == Current(q)
  {
    WFHasFront(q);
    if HasFront(q) { PushKeepsFront(q, t); }
  }

  lemma CurrentPop(q: Queue)
    requires QueueOk(q) && HasFront(q)
    ensures Current(Pop(q)) == None
  {
    PopFresh(q);
  }

  lemma CurrentTurn(s: IO)
    requires QueueOk(s.io) && HasFront(s.io) && s.core == Loop
    ensures Current(LoopTask(s).io) == match Front(s.io).state
      case Pending => Some(Front(s.io).(state := Running))
      case Running => Current(s.io)
      case Finish => None
  {
    match Front(s.io).state
    case Pending =>
      assert LoopTask(s).io == SetFrontState(s.io, Running);
      CurrentSet(s.io);
    case Running => assert LoopTask(s).io == s.io;
    case Finish =>
      assert LoopTask(s).io == Pop(s.io);
      CurrentPop(s.io);
  }

  lemma CurrentSet(q: Queue)
    requires QueueOk(q) && HasFront(q) && Front(q).state == Pending
    ensures Current(SetFrontState(q, Running)) == Some(Front(q).(state := Running))
  {
    SetFrontOk(q, Running);
  }

  /** What a step of core 0 makes of it. */
  lemma CurrentGo(s: IO)
    requires QueueOk(s.io) && s.core != Rest && GoReady(s) && FrontOk(s.io)
    ensures Current(CoreStep(s).io) == if s.core == Loop && HasFront(s.io) then Current(LoopTask(s).io)
      else Current(s.io)
  {
    if s.core.Drain? {
      CurrentDrain(s);
    } else if s.core != Loop {
      GoSame(s);
    }
  }

  lemma CurrentDrain(s: IO)
    requires QueueOk(s.io) && s.core.Drain?
    ensures Current(CoreStep(s).io) == Current(s.io)
  {
    var vm := s.core.vm;
    if s.core.left > 0 && vm in s.ring && s.ring[vm] != [] && vm in s.cfg {
      var r := s.ring[vm][0];
      if !Panics(s.cfg[vm], r) && Accepts(s.cfg[vm], r) { CurrentPush(s.io, MakeTask(s.cfg[vm], vm, r)); }
    }
  }

  lemma CurrentReport(s: IO)
    requires QueueOk(s.io) && InFlight(s) && Enabled(s, Report)
    ensures Current(s.io).Some? && Current(Do(s, Report).io) == Some(Current(s.io).value.(state := Finish))
  {
    SetFrontOk(s.io, Finish);
  }

  // ----------------------------------------------------------------------- invariant

  /** The cache holds what the request in flight needs. */
  ghost predicate CacheHolds(current: Option<AsyncTask>, cache: seq<nat>, disk: nat -> nat, served: bool,
      given: seq<nat>) {
    match current
    case None => !served
    case Some(t) =>
      && (t.state == Finish ==> served)
      && (t.data.IoTask? ==> TaskHeld(t.data, cache, disk, served, given))
  }

  ghost predicate TaskHeld(data: TaskData, cache: seq<nat>, disk: nat -> nat, served: bool, given: seq<nat>)
    requires data.IoTask?
  {
    && (!served && data.io == Out ==> Get(cache, data.count) == given)
    && (served && data.io == In ==> Get(cache, data.count) == Sectors(disk, data.sector, data.count))
    && (served && data.io == Out ==> Sectors(disk, data.sector, data.count) == given)
  }

  ghost predicate CacheOk(d: Data) { CacheHolds(Current(d.io.io), d.cache, d.disk, d.served, d.given) }

  /** The data is what the disk holds at the request's sectors, which count from the
      start of the VM's part. */
  predicate OnDisk(c: Config, r: Req, data: seq<nat>, disk: nat -> nat) {
    |data| == r.bytes / 512 && forall i :: 0 <= i < |data| ==> data[i] == disk(c.start + r.sector + i)
  }

  /** The transfer did what the guest's request asks for: a read got what the disk held at
      its sectors, a write left there what its buffers had held, and nothing elsewhere. */
  ghost predicate True(cfg: Configs, x: Entry) {
    && x.vm in cfg
    && match x
      case Read(vm, r, disk, got) => r.kind.Read? && OnDisk(cfg[vm], r, got, disk)
      case Written(vm, r, before, after, given) =>
        && r.kind.Write? && OnDisk(cfg[vm], r, given, after)
        && forall k: nat :: !Covers(cfg[vm], r, k) ==> after(k) == before(k)
  }

  ghost predicate AllTrue(cfg: Configs, log: seq<Entry>) { forall k :: 0 <= k < |log| ==> True(cfg, log[k]) }

  ghost predicate DataInv(d: Data) {
    Inv(d.io) && CacheOk(d) && Tracks(d.io.cfg, d.io.io, d.due) && AllTrue(d.io.cfg, d.log)
  }

  /** What reached the cache or the disk for a task is what its request asks for. */
  lemma SectorsOf(c: Config, vm: nat, t: AsyncTask, r: Req, disk: nat -> nat)
    requires Matches(c, vm, t, r) && t.data.IoTask?
    ensures t.data.io == In <==> r.kind.Read?
    ensures t.data.io == Out <==> r.kind.Write?
    ensures OnDisk(c, r, Sectors(disk, t.data.sector, t.data.count), disk)
    ensures forall k: int :: Covers(c, r, k) <==> t.data.sector <= k < t.data.sector + t.data.count
  {
  }

  lemma TransferOk(d: Data, q: Queue)
    requires CacheOk(d) && HasFront(d.io.io) && Front(d.io.io).data.IoTask?
    requires Current(q) == match Front(d.io.io).state
      case Pending => Some(Front(d.io.io).(state := Running))
      case Running => Current(d.io.io)
      case Finish => None
    ensures var r := Transfer(d, Front(d.io.io)); CacheHolds(Current(q), r.cache, r.disk, r.served, r.given)
  {
    var t := Front(d.io.io);
    if t.state == Pending && t.data.io == Out { OverGet(d.cache, BufferOf(d, t)); }
  }

  /** A completed read is entered with what it should have got. */
  lemma TransferTrue(d: Data)
    requires DataInv(d) && HasFront(d.io.io) && Front(d.io.io).data.IoTask?
    ensures AllTrue(d.io.cfg, Transfer(d, Front(d.io.io)).log)
  {
    var t := Front(d.io.io);
    FrontMatches(d.io.cfg, d.io.io, d.due);
    SectorsOf(d.io.cfg[t.vmid], t.vmid, t, Oldest(d.due, t.vmid), d.disk);
  }

  lemma ServeCache(d: Data)
    requires CacheOk(d) && DataEnabled(d, Serve)
    ensures CacheOk(DataDo(d, Serve))
  {
    var t := Front(d.io.io);
    var s, n := t.data.sector, t.data.count;
    assert Current(d.io.io) == Some(t);
    if t.data.io == In { OverGet(d.cache, Sectors(d.disk, s, n)); } else { StoreSectors(d.disk, s, Get(d.cache, n)); }
  }

  /** A write is entered with what it did to the disk. */
  lemma ServeTrue(d: Data)
    requires DataInv(d) && DataEnabled(d, Serve)
    ensures AllTrue(d.io.cfg, DataDo(d, Serve).log)
  {
    var t := Front(d.io.io);
    var s, n := t.data.sector, t.data.count;
    assert Current(d.io.io) == Some(t);
    FrontMatches(d.io.cfg, d.io.io, d.due);
    if t.data.io == Out {
      StoreSectors(d.disk, s, Get(d.cache, n));
      SectorsOf(d.io.cfg[t.vmid], t.vmid, t, Oldest(d.due, t.vmid), Store(d.disk, s, Get(d.cache, n)));
    }
  }

  /** What core 0 going on makes of the request in flight. */
  lemma GoCurrent(s: IO)
    requires Inv(s) && Enabled(s, Go)
    ensures Current(Do(s, Go).io) == if !Turns(s, Go) then Current(s.io) else
      match Front(s.io).state
      case Pending => Some(Front(s.io).(state := Running))
      case Running => Current(s.io)
      case Finish => None
  {
    InvFacts(s);
    StepReady(s, Go);
    CurrentGo(s);
    if s.core == Loop && HasFront(s.io) { CurrentTurn(s); }
  }

  lemma GoDataOk(d: Data)
    requires DataInv(d) && DataEnabled(d, Step(Go))
    ensures CacheOk(DataDo(d, Step(Go)))
  {
    GoCurrent(d.io);
    if Turns(d.io, Go) { TransferOk(d, Do(d.io, Go).io); }
  }

  lemma StepDataOk(d: Data, e: Event)
    requires DataInv(d) && DataEnabled(d, Step(e)) && Sound(d.io, e) && !e.Go?
    ensures CacheOk(DataDo(d, Step(e)))
  {
    InvFacts(d.io);
    StepReady(d.io, e);
    if e.Report? {
      CurrentReport(d.io);
    } else {
      OtherEffect(d.io, e);
    }
    assert !Turns(d.io, e);
  }

  lemma TrueStays(cfg: Configs, cfg': Configs, log: seq<Entry>)
    requires AllTrue(cfg, log) && forall vm :: vm in cfg ==> vm in cfg' && cfg'[vm] == cfg[vm]
    ensures AllTrue(cfg', log)
  {
    forall k | 0 <= k < |log| ensures True(cfg', log[k]) { assert True(cfg, log[k]); }
  }

  lemma StepTrue(d: Data, e: Event)
    requires DataInv(d) && DataEnabled(d, Step(e)) && Sound(d.io, e)
    ensures var r := DataDo(d, Step(e)); AllTrue(r.io.cfg, r.log)
  {
    StepCfg(d.io, e);
    var log := if Turns(d.io, e) then Transfer(d, Front(d.io.io)).log else d.log;
    if Turns(d.io, e) { TransferTrue(d); }
    TrueStays(d.io.cfg, Do(d.io, e).cfg, log);
  }

  lemma DataStepInv(d: Data, x: DataEvent)
    requires DataInv(d) && DataEnabled(d, x) && DataSound(d, x)
    ensures DataInv(DataDo(d, x))
  {
    match x
    case Step(e) =>
      StepInv(d.io, e);
      StepTracked(d.io, d.due, e);
      StepTrue(d, e);
      if e.Go? { GoDataOk(d); } else { StepDataOk(d, e); }
    case Serve =>
      ServeCache(d);
      ServeTrue(d);
    case GuestStore(_, _) =>
  }

  // ---------------------------------------------------------------------- whole runs

  predicate DataRunSound(d: Data, xs: seq<DataEvent>)
    decreases |xs|
  {
    xs == [] || (DataEnabled(d, xs[0]) && DataSound(d, xs[0]) && DataRunSound(DataDo(d, xs[0]), xs[1..]))
  }

  function DataRun(d: Data, xs: seq<DataEvent>): Data
    requires DataRunSound(d, xs)
    decreases |xs|
  {
    if xs == [] then d else DataRun(DataDo(d, xs[0]), xs[1..])
  }

  lemma {:induction false} DataRunInv(d: Data, xs: seq<DataEvent>)
    requires DataInv(d) && DataRunSound(d, xs)
    ensures DataInv(DataRun(d, xs))
    decreases |xs|
  {
    if xs != [] {
      DataStepInv(d, xs[0]);
      DataRunInv(DataDo(d, xs[0]), xs[1..]);
    }
  }

  function Booted(cache: seq<nat>, disk: nat -> nat, bufs: map<Key, seq<nat>>): Data {
    Data(BOOT, map[], cache, disk, bufs, false, [], [])
  }

  /** In every sound run, whatever was in cache, disk and buffers and whatever guests
      store meanwhile, every transfer did what the guest's request asks for. */
  lemma {:induction false} TransfersTrue(cache: seq<nat>, disk: nat -> nat, bufs: map<Key, seq<nat>>,
      xs: seq<DataEvent>)
    requires DataRunSound(Booted(cache, disk, bufs), xs)
    ensures var d := DataRun(Booted(cache, disk, bufs), xs); AllTrue(d.io.cfg, d.log)
  {
    BootInv();
    DataRunInv(Booted(cache, disk, bufs), xs);
  }

  /** What completing the front task leaves behind: a read's own buffers hold what the disk
      holds at its sectors; a write's sectors hold what its buffers held when it was handed
      out. */
  predicate Delivered(c: Config, vm: nat, q: Req, bufs: map<Key, seq<nat>>, disk: nat -> nat, given: seq<nat>) {
    && (q.kind.Read? || q.kind.Write?)
    && (q.kind.Read? ==> Key(vm, q.info.head) in bufs && OnDisk(c, q, bufs[Key(vm, q.info.head)], disk))
    && (q.kind.Write? ==> OnDisk(c, q, given, disk))
  }

  lemma TransferDelivers(d: Data)
    requires DataInv(d) && HasFront(d.io.io) && Front(d.io.io).data.IoTask? && Front(d.io.io).state == Finish
    ensures var vm, r := Front(d.io.io).vmid, Transfer(d, Front(d.io.io));
      vm in d.io.cfg && Delivered(d.io.cfg[vm], vm, Oldest(d.due, vm), r.bufs, r.disk, d.given)
  {
    var t := Front(d.io.io);
    assert Current(d.io.io) == Some(t);
    FrontMatches(d.io.cfg, d.io.io, d.due);
    SectorsOf(d.io.cfg[t.vmid], t.vmid, t, Oldest(d.due, t.vmid), d.disk);
  }

  /** The step that completes a block request delivers, and tells the guest of that
      request. */
  lemma Delivers(d: Data)
    requires DataInv(d) && DataEnabled(d, Step(Go)) && Turns(d.io, Go) && Front(d.io.io).state == Finish
    ensures var vm, r := Front(d.io.io).vmid, DataDo(d, Step(Go)); var q := Oldest(d.due, vm);
      && vm in d.io.cfg && Delivered(d.io.cfg[vm], vm, q, r.bufs, r.disk, d.given)
      && r.io.done == d.io.done + [Done(vm, q.info, q.info, true)]
  {
    TransferDelivers(d);
    TellsGuest(d);
  }

  lemma TellsGuest(d: Data)
    requires DataInv(d) && DataEnabled(d, Step(Go)) && Turns(d.io, Go) && Front(d.io.io).state == Finish
    ensures var vm := Front(d.io.io).vmid; var q := Oldest(d.due, vm);
      Do(d.io, Go).done == d.io.done + [Done(vm, q.info, q.info, true)]
  {
    assert Do(d.io, Go) == FinishIo(d.io);
    FrontMatches(d.io.cfg, d.io.io, d.due);
    FinishDone(d.io);
  }

  lemma FinishDone(s: IO)
    requires Paired(s) && WF(s.io) && HasFront(s.io)
    ensures var t := Front(s.io); FinishIo(s).done == s.done + [Done(t.vmid, t.req, t.req, t.data.IoTask?)]
  {
    FinishPaired(s);
  }

  /** The step that hands out a write copies its own buffers. */
  lemma HandsOut(d: Data)
    requires DataInv(d) && DataEnabled(d, Step(Go)) && Turns(d.io, Go) && Front(d.io.io).state == Pending
    ensures var vm, r := Front(d.io.io).vmid, DataDo(d, Step(Go)); var q := Oldest(d.due, vm);
      var key := Key(vm, q.info.head);
      q.kind.Write? ==> r.given == Get(if key in d.bufs then d.bufs[key] else [], q.bytes / 512) && !r.served
  {
    var t := Front(d.io.io);
    FrontMatches(d.io.cfg, d.io.io, d.due);
    SectorsOf(d.io.cfg[t.vmid], t.vmid, t, Oldest(d.due, t.vmid), d.disk);
  }
}
