/** The mediated block device: guests ring, the hypervisor turns their requests
    into tasks and used-info records, one task at a time is with the service VM,
    and completions are written back.  A step is what a core does between two
    points where another core can see or change the lists. */
module BlockIo {
  import opened Tasks
  import opened FairQueue

  datatype ReqKind = Read | Write | GetId | Flush | Unknown

  /** A guest request: `bytes` is the length of its data, `info` what its used-ring
      entry must say. */
  datatype Req = Req(kind: ReqKind, sector: nat, bytes: nat, info: UsedInfo)

  /** The part of the disk a VM may use, its priority and its device. */
  datatype Config = Config(start: nat, size: nat, priority: nat, dev: nat)

  /** Where core 0, which runs the service VM and no other, is in its handlers. */
  datatype Phase =
    | Rest                                      // the service VM runs
    | Drain(vm: nat, left: nat, looping: bool)  // `left` requests it found are still to be turned into tasks
    | Drop(looping: bool)                       // about to remove the notification it has handled
    | Gap                                       // about to enter the executor
    | Loop                                      // at the head of the executor's loop, no lock held
    | Holds(k: nat)                             // holds the k-th notification ever queued
    | Leave                                     // about to reset the status and return

  /** The guests' cores inside `async_task_exe`, by how far they are: decided to
      run it, holding a notification, having marked it, about to reset the status.
      `sent` are the interrupts on their way to core 0. */
  datatype Guests = Guests(deciding: nat, holding: seq<nat>, marked: nat, sent: seq<nat>, late: nat)

  /** A completion: the request it is for, what was written to the used ring, and
      whether the service VM had it. */
  datatype Done = Done(vmid: nat, req: UsedInfo, written: UsedInfo, served: bool)

  /** `gone` are the notifications removed so far, so that a core that holds one
      can still be told which; `posted` the VMs with requests in their ring that
      have not notified yet. */
  datatype IO = IO(
    ipi: seq<AsyncTask>, gone: seq<AsyncTask>, io: Queue, used: map<nat, seq<UsedInfo>>, scheduling: bool, panic: bool,
    cfg: map<nat, Config>, ring: map<nat, seq<Req>>, posted: set<nat>, core: Phase, guests: Guests,
    asked: map<nat, seq<UsedInfo>>, issued: seq<UsedInfo>, done: seq<Done>)

  // ------------------------------------------------------------ request handling

  const SECTOR := 512

  predicate InRange(c: Config, r: Req) { r.sector + r.bytes / SECTOR <= c.start + c.size }

  /** Requests that become tasks; the others are dropped without a completion. */
  predicate Accepts(c: Config, r: Req) { InRange(c, r) && (r.kind.Read? || r.kind.Write? || r.kind.GetId?) }

  /** A flush inside the disk hits an unimplemented branch. */
  predicate Panics(c: Config, r: Req) { InRange(c, r) && r.kind.Flush? }

  function MakeTask(c: Config, vm: nat, r: Req): AsyncTask {
    if r.kind.GetId? then AsyncTask(NoneTask, vm, c.priority, Finish, c.dev, r.info)
    else AsyncTask(IoTask(if r.kind.Read? then In else Out, r.sector + c.start, r.bytes / SECTOR),
                   vm, c.priority, Pending, c.dev, r.info)
  }

  /** The step is about requests and block tasks: it leaves the notifications, the
      status and the cores alone. */
  predicate OnlyTasks(s: IO, r: IO) {
    && r.ipi == s.ipi && r.gone == s.gone && r.scheduling == s.scheduling && r.cfg == s.cfg
    && r.posted == s.posted && r.core == s.core && r.guests == s.guests && r.asked == s.asked
  }

  /** One request of `generate_blk_req`: the task is queued, then the used-info. */
  function Take(s: IO, vm: nat): (r: IO)
    requires vm in s.ring && s.ring[vm] != [] && vm in s.cfg
    ensures OnlyTasks(s, r) && r.ring == s.ring[vm := s.ring[vm][1..]]
  {
    var r := s.ring[vm][0];
    var s1 := s.(ring := s.ring[vm := s.ring[vm][1..]]);
    if Panics(s.cfg[vm], r) then s1.(panic := true)
    else if !Accepts(s.cfg[vm], r) then s1
    else s1.(io := Push(s.io, MakeTask(s.cfg[vm], vm, r)),
             used := if vm in s.used then s.used[vm := s.used[vm] + [r.info]] else s.used)
  }

  // ----------------------------------------------------------------- completion

  function SetFrontState(q: Queue, st: TaskState): Queue
    requires HasFront(q)
  {
    var o := q.rotation[0];
    q.(subs := q.subs[o := [q.subs[o][0].(state := st)] + q.subs[o][1..]])
  }

  /** `finish_async_task(false)`: pops the task and writes the used ring. */
  function FinishIo(s: IO): (r: IO)
    requires HasFront(s.io)
    ensures OnlyTasks(s, r) && r.ring == s.ring && r.io.len == s.io.len - 1
  {
    var t := Front(s.io);
    var s1 := s.(io := Pop(s.io));
    if t.vmid !in s.used then s1
    else if s.used[t.vmid] == [] then s1.(panic := true)
    else s1.(used := s.used[t.vmid := s.used[t.vmid][1..]],
             done := s.done + [Done(t.vmid, t.req, s.used[t.vmid][0], t.data.IoTask?)])
  }

  /** Hands the front task to the service VM. */
  function Issue(s: IO): (r: IO)
    requires HasFront(s.io)
    ensures OnlyTasks(s, r) && r.ring == s.ring && r.panic == s.panic && r.io.len == s.io.len
  {
    s.(io := SetFrontState(s.io, Running),
       issued := if Front(s.io).data.IoTask? then s.issued + [Front(s.io).req] else s.issued)
  }

  /** `finish_async_task(true)`: removes the front notification. */
  function PopIpi(s: IO): IO {
    if s.ipi == [] then s.(panic := true) else s.(ipi := s.ipi[1..], gone := s.gone + [s.ipi[0]])
  }

  /** The k-th notification ever queued. */
  function Note(s: IO, k: nat): AsyncTask
    requires k < |s.gone| + |s.ipi|
  {
    if k < |s.gone| then s.gone[k] else s.ipi[k - |s.gone|]
  }

  function MarkNote(s: IO, k: nat): (r: IO)
    requires k < |s.gone| + |s.ipi|
    ensures |r.ipi| == |s.ipi| && |r.gone| == |s.gone| && r == s.(ipi := r.ipi, gone := r.gone)
  {
    var t := Note(s, k).(state := Running);
    if k < |s.gone| then s.(gone := s.gone[k := t]) else s.(ipi := s.ipi[k - |s.gone| := t])
  }

  // --------------------------------------------------------------- steps of core 0

  /** `virtio_blk_notify_handler` reads how many requests there are and takes
      those. */
  function StartDrain(s: IO, vm: nat, looping: bool): IO {
    s.(core := Drain(vm, if vm in s.ring then |s.ring[vm]| else 0, looping))
  }

  /** One turn of the executor with a block task at the front. */
  function LoopTask(s: IO): (r: IO)
    requires HasFront(s.io)
    ensures OnlyTasks(s, r.(core := s.core)) && r.ring == s.ring
  {
    match Front(s.io).state
    case Pending => Issue(s).(core := Leave)
    case Running => s.(core := Leave)
    case Finish => FinishIo(s)
  }

  /** `handle` on a notification, on the service VM's core: one that nobody has
      marked is handled here, any other is removed unread. */
  function HandleNote(s: IO, k: nat): (r: IO)
    requires k < |s.gone| + |s.ipi|
    ensures r.io == s.io && r.ring == s.ring && r.asked == s.asked && r.posted == s.posted
  {
    if Note(s, k).state != Pending then s.(core := Drop(true))
    else if s.ipi == [] then MarkNote(s, k).(panic := true)
    else StartDrain(MarkNote(s, k), s.ipi[0].vmid, true)
  }

  /** What core 0 does next. */
  function CoreStep(s: IO): IO
    requires s.core != Rest
  {
    match s.core
    case Drain(vm, left, looping) =>
      if left > 0 && vm in s.ring && s.ring[vm] != [] && vm in s.cfg
        then Take(s, vm).(core := Drain(vm, left - 1, looping))
      else s.(core := Drop(looping))
    case Drop(looping) => PopIpi(s).(core := if looping then Loop else Gap)
    case Gap => if s.scheduling then s.(core := Rest) else s.(scheduling := true, core := Loop)
    case Loop =>
      if s.io.subs != map[] then if HasFront(s.io) then LoopTask(s) else s.(panic := true)
      else if s.ipi == [] then s.(scheduling := false, core := Rest)
      else s.(core := Holds(|s.gone|))
    case Holds(k) => if k < |s.gone| + |s.ipi| then HandleNote(s, k) else s.(panic := true)
    case Leave => s.(scheduling := false, core := Rest)
  }

  // ----------------------------------------------------- steps of the guests' cores

  /** `add_async_task` for a notification: whether this core is to run the
      executor, tested under the locks of both lists. */
  predicate NeedExecute(s: IO) { s.ipi == [] && s.io.subs == map[] && !s.scheduling }

  function Late(s: IO): (r: IO)
    ensures r.io == s.io && r.ring == s.ring && r.ipi == s.ipi && r.core == s.core
  {
    s.(guests := s.guests.(late := s.guests.late + 1))
  }

  /** A guest's core at the head of the executor's loop.  With a block task at the
      front it takes its one turn at once. */
  function GuestLook(s: IO): IO
    requires s.guests.deciding > 0
  {
    var s1 := s.(guests := s.guests.(deciding := s.guests.deciding - 1));
    if s.io.subs == map[] then
      if s.ipi == [] then s1.(scheduling := false)
      else s1.(guests := s1.guests.(holding := s1.guests.holding + [|s.gone|]))
    else if !HasFront(s.io) then s1.(panic := true)
    else GuestTask(s1)
  }

  /** The turn of a guest's core with a block task at the front. */
  function GuestTask(s: IO): (r: IO)
    requires HasFront(s.io)
    ensures r.ring == s.ring && r.ipi == s.ipi && r.core == s.core && r.io.len <= s.io.len
    ensures r.guests == s.guests.(late := r.guests.late) && r.guests.late <= s.guests.late + 1
  {
    match Front(s.io).state
    case Pending => Late(Issue(s))
    case Running => Late(s)
    case Finish => FinishIo(s)
  }

  /** `handle` on the notification the i-th of them holds. */
  function GuestMark(s: IO, i: nat): IO
    requires i < |s.guests.holding| && s.guests.holding[i] < |s.gone| + |s.ipi|
  {
    var h, k := s.guests.holding, s.guests.holding[i];
    var s1 := s.(guests := s.guests.(holding := h[..i] + h[i + 1..]));
    match Note(s, k).state
    case Pending => MarkNote(s1.(guests := s1.guests.(marked := s1.guests.marked + 1)), k)
    case Running => Late(s1)
    case Finish => PopIpi(s1)
  }

  /** `async_ipi_req`: the interrupt carries what is at the front now. */
  function GuestSend(s: IO): IO
    requires s.guests.marked > 0
  {
    var g := s.guests.(marked := s.guests.marked - 1);
    if s.ipi == [] then s.(guests := g, panic := true)
    else Late(s.(guests := g.(sent := g.sent + [s.ipi[0].vmid])))
  }

  // ---------------------------------------------------------------------- events

  datatype Event =
    | Register(vm: nat, c: Config)         // a VM is set up
    | Post(vm: nat, reqs: seq<Req>)        // a guest puts requests into its ring
    | Notify(vm: nat)                      // and notifies
    | Look                                 // a guest's core goes on to the executor,
    | Mark(i: nat)                         // marks the notification it holds,
    | Send                                 // sends the interrupt
    | Reset                                // and resets the status
    | Arrive                               // an interrupt reaches core 0
    | Go                                   // core 0 goes on
    | Report                               // the service VM reports completion

  function Accepted(c: Config, rs: seq<Req>): seq<UsedInfo> {
    if rs == [] then [] else (if Accepts(c, rs[0]) then [rs[0].info] else []) + Accepted(c, rs[1..])
  }

  predicate InFlight(s: IO) { HasFront(s.io) && Front(s.io).data.IoTask? && Front(s.io).state == Running }

  /** A core that has queued a notification waits while there are this many. */
  const IPI_MAX := 1024

  predicate Enabled(s: IO, e: Event) {
    !s.panic && match e
    case Register(vm, _) => vm !in s.used
    case Post(vm, reqs) => vm in s.used && vm in s.cfg && forall k :: 0 <= k < |reqs| ==> !Panics(s.cfg[vm], reqs[k])
    case Notify(vm) => vm in s.used && vm in s.cfg
    case Look => s.guests.deciding > 0 && |s.ipi| < IPI_MAX
    case Mark(i) => i < |s.guests.holding| && s.guests.holding[i] < |s.gone| + |s.ipi|
    case Send => s.guests.marked > 0
    case Reset => s.guests.late > 0
    case Arrive => s.core == Rest && s.guests.sent != []
    case Go => s.core != Rest
    case Report => s.core == Rest
  }

  function IpiOf(c: Config, vm: nat): AsyncTask { AsyncTask(IpiTask, vm, c.priority, Pending, c.dev, UsedInfo(0, 0)) }

  function Do(s: IO, e: Event): IO
    requires Enabled(s, e)
  {
    match e
    case Register(vm, c) =>
      s.(used := s.used[vm := []], cfg := s.cfg[vm := c], ring := s.ring[vm := []], asked := s.asked[vm := []])
    case Post(vm, reqs) =>
      s.(ring := s.ring[vm := (if vm in s.ring then s.ring[vm] else []) + reqs], posted := s.posted + {vm},
         asked := s.asked[vm := (if vm in s.asked then s.asked[vm] else []) + Accepted(s.cfg[vm], reqs)])
    case Notify(vm) =>
      var s1 := s.(ipi := s.ipi + [IpiOf(s.cfg[vm], vm)], posted := s.posted - {vm});
      if NeedExecute(s) then s1.(guests := s1.guests.(deciding := s1.guests.deciding + 1)) else s1
    case Look => GuestLook(s)
    case Mark(i) => GuestMark(s, i)
    case Send => GuestSend(s)
    case Reset => s.(scheduling := false, guests := s.guests.(late := s.guests.late - 1))
    case Arrive =>
      StartDrain(s.(guests := s.guests.(sent := s.guests.sent[1..])), s.guests.sent[0], false)
    case Go => CoreStep(s)
    case Report =>
      if !HasFront(s.io) then s.(panic := true) else s.(io := SetFrontState(s.io, Finish), core := Gap)
  }

  const BOOT := IO([], [], EMPTY, map[], false, false, map[], map[], {}, Rest, Guests(0, [], 0, [], 0), map[], [], [])

  // ------------------------------------------------------------------- whole runs

  function RunIo(s: IO, es: seq<Event>): IO
    requires RunEnabled(s, es)
    decreases |es|
  {
    if es == [] then s else RunIo(Do(s, es[0]), es[1..])
  }

  predicate RunEnabled(s: IO, es: seq<Event>)
    decreases |es|
  {
    es == [] || (Enabled(s, es[0]) && RunEnabled(Do(s, es[0]), es[1..]))
  }

  function Times(e: Event, n: nat): seq<Event> {
    if n == 0 then [] else [e] + Times(e, n - 1)
  }
}
