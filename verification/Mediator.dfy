/** The mediated block device as the globals its handlers update: each handler,
    with its loops, makes exactly the steps of its core that the safety proof is
    about, here with no other core in between. */
module Mediator {
  import opened Tasks
  import opened FairQueue
  import opened BlockIo
  import opened BlockIoRequests
  import opened BlockIoRace
  import opened BlockIoProgress
  import opened Wrappers

  /** A guest's core in `async_task_exe`, not interrupted: it looks at the lists,
      marks the notification it holds, sends the interrupt and resets the status,
      as far as each comes to it; g is how the cores were. */
  function GuestTurn(s: IO): IO
    requires s.guests.deciding > 0
  {
    ThenMark(s.guests, GuestLook(s))
  }

  function ThenMark(g: Guests, s: IO): IO {
    if !s.panic && |s.guests.holding| > |g.holding| && s.guests.holding[|g.holding|] < |s.gone| + |s.ipi|
    then ThenSend(g, GuestMark(s, |g.holding|)) else ThenSend(g, s)
  }

  function ThenSend(g: Guests, s: IO): IO {
    if s.guests.marked > g.marked && !s.panic then ThenReset(g, GuestSend(s)) else ThenReset(g, s)
  }

  function ThenReset(g: Guests, s: IO): IO {
    if s.guests.late > g.late && !s.panic then s.(scheduling := false, guests := s.guests.(late := s.guests.late - 1))
      else s
  }

  lemma NoteTurn(s: IO)
    requires s.guests.deciding > 0 && s.io.subs == map[] && s.ipi != [] && !s.panic
    ensures var g, x := s.guests.(deciding := s.guests.deciding - 1), s.ipi[0];
      GuestTurn(s) == match x.state
        case Pending =>
          s.(ipi := s.ipi[0 := x.(state := Running)], guests := g.(sent := g.sent + [x.vmid]), scheduling := false)
        case Running => s.(guests := g, scheduling := false)
        case Finish => PopIpi(s.(guests := g))
  {
    var h := s.guests.holding;
    var h1 := h + [|s.gone|];
    assert h1[..|h|] + h1[|h| + 1..] == h;
  }

  lemma NoTurn(s: IO)
    requires s.guests.deciding > 0 && s.io.subs == map[] && s.ipi == []
    ensures GuestTurn(s) == s.(guests := s.guests.(deciding := s.guests.deciding - 1), scheduling := false)
  {
  }

  lemma TaskTurn(s: IO)
    requires s.guests.deciding > 0 && s.io.subs != map[] && HasFront(s.io) && !s.panic
    ensures var s1 := s.(guests := s.guests.(deciding := s.guests.deciding - 1));
      GuestTurn(s) == match Front(s.io).state
        case Pending => Issue(s1).(scheduling := false)
        case Running => s1.(scheduling := false)
        case Finish => FinishIo(s1)
  {
  }

  /** Those are steps of the guest's core, so what holds in every run holds after
      them. */
  lemma TurnIsRun(s: IO) returns (es: seq<Event>)
    requires Enabled(s, Look)
    ensures AllInternal(es) && RunEnabled(s, es) && RunIo(s, es) == GuestTurn(s)
  {
    es := MarkIsRun(s.guests, Do(s, Look));
    RunOne(s, Look, es);
    es := [Look] + es;
  }

  lemma {:induction false} RunOne(s: IO, e: Event, es: seq<Event>)
    requires Enabled(s, e) && RunEnabled(Do(s, e), es)
    ensures RunEnabled(s, [e] + es) && RunIo(s, [e] + es) == RunIo(Do(s, e), es)
  {
    assert ([e] + es)[1..] == es;
  }

  lemma MarkIsRun(g: Guests, s: IO) returns (es: seq<Event>)
    ensures AllInternal(es) && RunEnabled(s, es) && RunIo(s, es) == ThenMark(g, s)
  {
    var i := |g.holding|;
    if !s.panic && |s.guests.holding| > i && s.guests.holding[i] < |s.gone| + |s.ipi| {
      es := SendIsRun(g, Do(s, Mark(i)));
      RunOne(s, Mark(i), es);
      es := [Mark(i)] + es;
    } else {
      es := SendIsRun(g, s);
    }
  }

  lemma SendIsRun(g: Guests, s: IO) returns (es: seq<Event>)
    ensures AllInternal(es) && RunEnabled(s, es) && RunIo(s, es) == ThenSend(g, s)
  {
    if s.guests.marked > g.marked && !s.panic {
      es := ResetIsRun(g, Do(s, Send));
      RunOne(s, Send, es);
      es := [Send] + es;
    } else {
      es := ResetIsRun(g, s);
    }
  }

  lemma ResetIsRun(g: Guests, s: IO) returns (es: seq<Event>)
    ensures AllInternal(es) && RunEnabled(s, es) && RunIo(s, es) == ThenReset(g, s)
  {
    if s.guests.late > g.late && !s.panic {
      RunOne(s, Reset, []);
      es := [Reset] + [];
    } else {
      es := [];
    }
  }

  /** From q to q' the request's task has been queued, if it is to have one. */
  predicate Queued(r: Req, c: Config, vm: nat, q: Queue, q': Queue) {
    if !Fits(c, r) then q' == q else
    match r.kind
    case Read =>
      q' == Push(q, AsyncTask(IoTask(In, r.sector + c.start, r.bytes / 512), vm, c.priority, Pending, c.dev, r.info))
    case Write =>
      q' == Push(q, AsyncTask(IoTask(Out, r.sector + c.start, r.bytes / 512), vm, c.priority, Pending, c.dev, r.info))
    case GetId => q' == Push(q, AsyncTask(NoneTask, vm, c.priority, Finish, c.dev, r.info))
    case _ => q' == q
  }

  class Device {
    const tasks: TaskQueue
    var ipi: seq<AsyncTask>
    var used: map<nat, seq<UsedInfo>>
    var scheduling: bool
    var panic: bool
    var cfg: map<nat, Config>
    var ring: map<nat, seq<Req>>
    ghost var gone: seq<AsyncTask>
    ghost var posted: set<nat>
    ghost var core: Phase
    ghost var guests: Guests
    ghost var asked: map<nat, seq<UsedInfo>>
    ghost var issued: seq<UsedInfo>
    ghost var done: seq<Done>

    ghost function State(): IO
      reads this, tasks
    {
      IO(ipi, gone, tasks.State(), used, scheduling, panic, cfg, ring, posted, core, guests, asked, issued, done)
    }

    ghost predicate Valid()
      reads this, tasks
    {
      WF(tasks.State())
    }

    constructor ()
      ensures Valid() && State() == BOOT && fresh(tasks)
    {
      var q := new TaskQueue();
      tasks := q;
      ipi, used, scheduling, panic, cfg, ring := [], map[], false, false, map[], map[];
      gone, posted, core, guests, asked, issued, done := [], {}, Rest, Guests(0, [], 0, [], 0), map[], [], [];
    }

    method PushUsedInfo(vm: nat, info: UsedInfo)
      modifies this`used
      ensures used == if vm in old(used) then old(used)[vm := old(used)[vm] + [info]] else old(used)
    {
      if vm in used { used := used[vm := used[vm] + [info]]; }
    }

    /** One request of `generate_blk_req`: a read or a write that ends within start + size
        becomes a task for its sectors counted from start, a get-id one that is complete;
        a flush panics, anything else is dropped. */
    method TakeRequest(vm: nat)
      requires Valid() && vm in ring && ring[vm] != [] && vm in cfg
      modifies this`ring, this`used, this`panic, tasks
      ensures Valid() && State() == Take(old(State()), vm) && ring == old(ring)[vm := old(ring[vm])[1..]]
      ensures var r, c := old(ring[vm][0]), cfg[vm];
        Queued(r, c, vm, old(tasks.State()), tasks.State()) && panic == (old(panic) || (Fits(c, r) && r.kind.Flush?))
      ensures used == if Passes(cfg[vm], old(ring[vm][0])) && vm in old(used)
        then old(used)[vm := old(used)[vm] + [old(ring[vm][0]).info]] else old(used)
    {
      var r := ring[vm][0];
      ring := ring[vm := ring[vm][1..]];
      if Panics(cfg[vm], r) {
        panic := true;
      } else if Accepts(cfg[vm], r) {
        tasks.PushBack(MakeTask(cfg[vm], vm, r));
        PushUsedInfo(vm, r.info);
      }
    }

    function RingLength(vm: nat): nat
      reads this
    {
      if vm in ring then |ring[vm]| else 0
    }

    /** Core 0 is taking the VM's requests, and will end where it would have from was. */
    ghost predicate Draining(was: IO, vm: nat, left: nat, looping: bool)
      reads this, tasks
    {
      Valid() && core == Drain(vm, left, looping) && left == RingLength(vm) && Settle(State()) == Settle(was)
    }

    method DrainOne(ghost was: IO, vm: nat, ghost left: nat, ghost looping: bool)
      requires Draining(was, vm, left, looping) && !panic && left > 0 && vm in cfg
      modifies this`ring, this`used, this`panic, this`core, tasks
      ensures Draining(was, vm, left - 1, looping)
    {
      TakeRequest(vm);
      core := core.(left := core.left - 1);
      SettleStep(old(State()), State());
    }

    method DrainEnd()
      requires Valid() && !panic && core.Drain? && (core.left == 0 || core.vm !in cfg)
      modifies this`core
      ensures Settle(State()) == Settle(old(State())) && core == Drop(old(core.looping))
    {
      core := Drop(core.looping);
      SettleStep(old(State()), State());
    }

    /** `virtio_blk_notify_handler` and `generate_blk_req`: one task and one record
        for every accepted request the ring has at the start. */
    method HandleRing(vm: nat)
      requires Valid() && !panic && core.Drain? && core.vm == vm && core.left == RingLength(vm)
      modifies this`ring, this`used, this`panic, this`core, tasks
      ensures Valid() && Settle(State()) == Settle(old(State())) && (panic || core == Drop(old(core.looping)))
    {
      ghost var was, looping := State(), core.looping;
      var left := RingLength(vm);
      while left > 0 && vm in cfg && !panic
        invariant Draining(was, vm, left, looping)
        decreases left
      {
        DrainOne(was, vm, left, looping);
        left := left - 1;
      }
      if !panic { DrainEnd(); }
    }

    /** `finish_async_task(true)`. */
    method FinishNote()
      requires Valid()
      modifies this`ipi, this`panic, this`gone
      ensures Valid() && State() == PopIpi(old(State()))
    {
      if ipi == [] {
        panic := true;
      } else {
        gone := gone + [ipi[0]];
        ipi := ipi[1..];
      }
    }

    /** `finish_async_task(false)` and `update_used_info`. */
    method FinishTask()
      requires Valid() && HasFront(tasks.State())
      modifies this`used, this`panic, this`done, tasks
      ensures Valid() && State() == FinishIo(old(State()))
    {
      var _, t := tasks.PopFront();
      if t.vmid in used {
        if used[t.vmid] == [] {
          panic := true;
        } else {
          var info := used[t.vmid][0];
          used := used[t.vmid := used[t.vmid][1..]];
          done := done + [Done(t.vmid, t.req, info, t.data.IoTask?)];
        }
      }
    }

    /** `handle` on a block task that nobody has started. */
    method StartTask()
      requires Valid() && HasFront(tasks.State())
      modifies this`issued, tasks
      ensures Valid() && State() == Issue(old(State()))
    {
      var t := tasks.subs[tasks.rotation[0]][0];
      tasks.SetFrontTask(t.(state := Running));
      if t.data.IoTask? { issued := issued + [t.req]; }
    }

    /** `handle` on the notification at the front: nobody's yet, it is handled. */
    method HandleNote()
      requires Valid() && !panic && core == Holds(|gone|) && ipi != []
      modifies this`ring, this`used, this`panic, this`ipi, this`core, tasks
      ensures Valid() && Settle(State()) == Settle(old(State())) && |ipi| == |old(ipi)| && (panic || core == Drop(true))
    {
      ghost var was := State();
      var vm := ipi[0].vmid;
      if ipi[0].state == Pending {
        ipi := ipi[0 := ipi[0].(state := Running)];
        core := Drain(vm, RingLength(vm), true);
        SettleStep(was, State());
        HandleRing(vm);
      } else {
        core := Drop(true);
        SettleStep(was, State());
      }
    }

    /** One turn of the executor's loop when no block task is queued. */
    method TurnNote()
      requires Valid() && !panic && core == Loop && tasks.subs == map[] && ipi != []
      modifies this`ring, this`used, this`panic, this`ipi, this`gone, this`core, tasks
      ensures Valid() && Settle(State()) == Settle(old(State())) && (panic || (core == Loop && |ipi| < |old(ipi)|))
    {
      core := Holds(|gone|);
      SettleStep(old(State()), State());
      HandleNote();
      if !panic {
        ghost var was := State();
        FinishNote();
        core := Loop;
        SettleStep(was, State());
      }
    }

    /** One turn when a block task is queued; `more` when it was finished. */
    method TurnTask() returns (more: bool)
      requires Valid() && !panic && core == Loop && HasFront(tasks.State())
      modifies this`used, this`panic, this`issued, this`done, this`core, tasks
      ensures Valid() && State() == LoopTask(old(State())) && Settle(State()) == Settle(old(State()))
      ensures if more then core == Loop && tasks.len < old(tasks.len) else core == Leave && !panic
    {
      ghost var was := State();
      WFHasFront(tasks.State());
      var t := tasks.subs[tasks.rotation[0]][0];
      more := t.state == Finish;
      if more {
        FinishTask();
      } else {
        if t.state == Pending { StartTask(); }
        core := Leave;
      }
      SettleStep(was, State());
    }

    /** One turn of the executor's loop; `more` when there is another. */
    method Turn() returns (more: bool)
      requires Valid() && !panic && core == Loop
      modifies this`ring, this`used, this`panic, this`ipi, this`gone, this`core, this`scheduling, this`issued,
        this`done, tasks
      ensures Valid() && Settle(State()) == Settle(old(State())) && (more ==> !panic && core == Loop)
      ensures more ==> |ipi| < |old(ipi)| || (ipi == old(ipi) && tasks.len < old(tasks.len))
      ensures !more ==> panic || core == Rest
    {
      var idle := tasks.IsEmpty();
      WFHasFront(tasks.State());
      if !idle {
        more := TurnTask();
        if !more { Return(); }
      } else if ipi != [] {
        TurnNote();
        more := true;
      } else {
        Return();
        more := false;
      }
      if panic { more := false; }
    }

    method Return()
      requires !panic && (core == Leave || (core == Loop && ipi == [] && tasks.subs == map[]))
      modifies this`scheduling, this`core
      ensures Settle(State()) == Settle(old(State())) && core == Rest
    {
      scheduling, core := false, Rest;
      SettleStep(old(State()), State());
    }

    /** `async_task_exe` on the service VM's core. */
    method ExecuteOnService()
      requires Valid() && !panic && core == Gap
      modifies this`ring, this`used, this`panic, this`ipi, this`gone, this`core, this`scheduling, this`issued,
        this`done, tasks
      ensures Valid() && State() == Settle(old(State()))
    {
      if scheduling {
        core := Rest;
        SettleStep(old(State()), State());
        return;
      }
      scheduling, core := true, Loop;
      SettleStep(old(State()), State());
      var more := true;
      while more
        invariant Valid() && Settle(State()) == Settle(old(State()))
        invariant if more then !panic && core == Loop else panic || core == Rest
        decreases more, |ipi|, tasks.len
      {
        more := Turn();
      }
    }

    /** `async_task_exe` on a guest's core: one turn, and the interrupt to send. */
    method ExecuteOnGuest() returns (send: Option<nat>)
      requires Valid() && !panic && guests.deciding > 0
      modifies this`used, this`panic, this`ipi, this`gone, this`guests, this`scheduling, this`issued, this`done, tasks
      ensures Valid() && State() == GuestTurn(old(State()))
      ensures guests.sent == old(guests.sent) + (if send.Some? then [send.value] else [])
    {
      send := None;
      var idle := tasks.IsEmpty();
      WFHasFront(tasks.State());
      ghost var was := State();
      guests := guests.(deciding := guests.deciding - 1);
      if !idle {
        GuestTask(was);
      } else if ipi != [] {
        NoteTurn(was);
        send := GuestNote();
      } else {
        NoTurn(was);
        scheduling := false;
      }
    }

    /** The turn with a notification at the front. */
    method GuestNote() returns (send: Option<nat>)
      requires Valid() && ipi != []
      modifies this`panic, this`ipi, this`gone, this`guests, this`scheduling
      ensures guests == old(guests).(sent := guests.sent)
      ensures guests.sent == old(guests.sent) + (if send.Some? then [send.value] else [])
      ensures var s, x, g := old(State()), old(ipi[0]), old(guests);
        Valid() && State() == match x.state
          case Pending =>
            s.(ipi := s.ipi[0 := x.(state := Running)], guests := g.(sent := g.sent + [x.vmid]), scheduling := false)
          case Running => s.(scheduling := false)
          case Finish => PopIpi(s)
    {
      send := None;
      if ipi[0].state == Pending {
        send := Some(ipi[0].vmid);
        guests := guests.(sent := guests.sent + [ipi[0].vmid]);
        ipi := ipi[0 := ipi[0].(state := Running)];
        scheduling := false;
      } else if ipi[0].state == Running {
        scheduling := false;
      } else {
        FinishNote();
      }
    }

    /** The turn with a block task at the front. */
    method GuestTask(ghost was: IO)
      requires Valid() && HasFront(tasks.State()) && !panic && was.guests.deciding > 0
      requires State() == was.(guests := was.guests.(deciding := was.guests.deciding - 1))
      modifies this`used, this`panic, this`scheduling, this`issued, this`done, tasks
      ensures Valid() && State() == GuestTurn(was)
    {
      WFHasFront(tasks.State());
      TaskTurn(was);
      var t := tasks.subs[tasks.rotation[0]][0];
      if t.state == Finish {
        FinishTask();
      } else {
        if t.state == Pending { StartTask(); }
        scheduling := false;
      }
    }

    /** `virtio_mediated_blk_notify_handler` up to the decision to execute. */
    method Notified(vm: nat) returns (execute: bool)
      requires Valid() && Enabled(State(), Notify(vm))
      modifies this`ipi, this`posted, this`guests
      ensures Valid() && State() == Do(old(State()), Notify(vm))
      ensures vm in cfg
        && ipi == old(ipi) + [AsyncTask(IpiTask, vm, cfg[vm].priority, Pending, cfg[vm].dev, UsedInfo(0, 0))]
      ensures execute == (old(ipi) == [] && old(tasks.State()).subs == map[] && !old(scheduling))
    {
      execute := ipi == [] && tasks.subs == map[] && !scheduling;
      ipi := ipi + [IpiOf(cfg[vm], vm)];
      posted := posted - {vm};
      if execute { guests := guests.(deciding := guests.deciding + 1); }
    }

    /** `mediated_ipi_handler`. */
    method OnIpi(vm: nat)
      requires Valid() && Enabled(State(), Arrive) && vm == guests.sent[0]
      modifies this`ring, this`used, this`panic, this`ipi, this`gone, this`core, this`guests, this`scheduling,
        this`issued, this`done, tasks
      ensures Valid() && State() == Settle(Do(old(State()), Arrive))
    {
      guests := guests.(sent := guests.sent[1..]);
      core := Drain(vm, RingLength(vm), false);
      HandleRing(vm);
      if panic { return; }
      ghost var was := State();
      FinishNote();
      core := Gap;
      SettleStep(was, State());
      if panic { return; }
      ExecuteOnService();
    }

    /** `set_front_io_task_state`. */
    method MarkFinished()
      requires Valid() && HasFront(tasks.State())
      modifies this`core, tasks
      ensures Valid() && State() == old(State()).(io := SetFrontState(old(tasks.State()), Finish), core := Gap)
    {
      var t := tasks.subs[tasks.rotation[0]][0];
      tasks.SetFrontTask(t.(state := Finish));
      core := Gap;
    }

    /** `mediated_blk_notify_handler`: a report with nothing queued panics. */
    method OnComplete()
      requires Valid() && Enabled(State(), Report)
      modifies this`ring, this`used, this`panic, this`ipi, this`gone, this`core, this`scheduling, this`issued,
        this`done, tasks
      ensures Valid() && State() == Settle(Do(old(State()), Report))
    {
      var none := tasks.IsEmpty();
      if none { panic := true; return; }
      MarkFinished();
      ExecuteOnService();
    }
  }
}
