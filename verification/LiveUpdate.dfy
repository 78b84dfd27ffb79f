/** The live update of the task lists: the old hypervisor's notifications are
    copied and its block-task queue is drained task by task, each task is rebuilt
    against the new device objects, and the result is pushed into the new
    hypervisor's empty lists. */
module LiveUpdate {
  import opened Seqs
  import opened Tasks
  import opened FairQueue

  /** What the new hypervisor knows of a VM: its priority and, if it has one, its
      block device. */
  datatype VmView = VmView(priority: nat, hasBlk: bool, dev: nat)

  type Vms = map<nat, VmView>

  /** Whether a queued task can be rebuilt; the code panics otherwise: the VM or
      its block device is gone, or the task is not a read or a write. */
  predicate CanRebuild(vms: Vms, t: AsyncTask) {
    t.data.IoTask? && t.vmid in vms && vms[t.vmid].hasBlk
  }

  function Rebuild(vms: Vms, t: AsyncTask): AsyncTask
    requires CanRebuild(vms, t)
  {
    t.(priority := vms[t.vmid].priority, dev := vms[t.vmid].dev)
  }

  predicate AllRebuild(vms: Vms, ts: seq<AsyncTask>) {
    forall k :: 0 <= k < |ts| ==> CanRebuild(vms, ts[k])
  }

  function RebuildAll(vms: Vms, ts: seq<AsyncTask>): (r: seq<AsyncTask>)
    requires AllRebuild(vms, ts)
    ensures |r| == |ts| && forall k :: 0 <= k < |ts| ==> r[k] == Rebuild(vms, ts[k])
  {
    seq(|ts|, k requires 0 <= k < |ts| => Rebuild(vms, ts[k]))
  }

  predicate QueueRebuilds(vms: Vms, q: Queue) {
    forall o :: o in q.subs ==> AllRebuild(vms, q.subs[o])
  }

  /** The queue with every task rebuilt in place. */
  function RebuildQueue(vms: Vms, q: Queue): Queue
    requires QueueRebuilds(vms, q)
  {
    Queue(q.len, map o | o in q.subs :: RebuildAll(vms, q.subs[o]), q.rotation)
  }

  /** n is t with its VM's priority and device as they are after the update. */
  predicate Carried(vms: Vms, t: AsyncTask, n: AsyncTask) {
    && t.vmid in vms && n.priority == vms[t.vmid].priority && n.dev == vms[t.vmid].dev
    && n.data == t.data && n.vmid == t.vmid && n.state == t.state && n.req == t.req
  }

  /** The same owners in the same order, with the same tasks in the same order. */
  ghost predicate QueueCarried(vms: Vms, q: Queue, r: Queue) {
    && r.len == q.len && r.rotation == q.rotation && r.subs.Keys == q.subs.Keys
    && forall o :: o in q.subs ==> ListCarried(vms, q.subs[o], r.subs[o])
  }

  ghost predicate ListCarried(vms: Vms, ts: seq<AsyncTask>, ns: seq<AsyncTask>) {
    |ns| == |ts| && forall k :: 0 <= k < |ts| ==> Carried(vms, ts[k], ns[k])
  }

  /** Field by field, that is the rebuilt queue and no other. */
  lemma QueueCarriedIff(vms: Vms, q: Queue, r: Queue)
    requires QueueRebuilds(vms, q)
    ensures QueueCarried(vms, q, r) <==> r == RebuildQueue(vms, q)
  {
    var e := RebuildQueue(vms, q);
    if QueueCarried(vms, q, r) {
      forall o | o in q.subs ensures r.subs[o] == e.subs[o] {
        assert ListCarried(vms, q.subs[o], r.subs[o]);
        assert forall k :: 0 <= k < |q.subs[o]| ==> Carried(vms, q.subs[o][k], r.subs[o][k]);
      }
      assert r.subs == e.subs;
    }
  }

  lemma NotesCarriedIff(vms: Vms, ts: seq<AsyncTask>, ns: seq<AsyncTask>)
    requires NotesRebuild(vms, ts)
    ensures ListCarried(vms, ts, ns) <==> ns == RebuildNotes(vms, ts)
  {
    if ListCarried(vms, ts, ns) {
      assert forall k :: 0 <= k < |ts| ==> Carried(vms, ts[k], ns[k]);
    }
  }

  /** Every queued task is a read or a write of a VM that is there and has a device. */
  ghost predicate Carriable(vms: Vms, q: Queue) {
    forall o, k :: o in q.subs && 0 <= k < |q.subs[o]| ==>
      var t := q.subs[o][k]; t.data.IoTask? && t.vmid in vms && vms[t.vmid].hasBlk
  }

  lemma CarriableIff(vms: Vms, q: Queue)
    ensures QueueRebuilds(vms, q) <==> Carriable(vms, q)
  {
    if Carriable(vms, q) {
      forall o | o in q.subs ensures AllRebuild(vms, q.subs[o]) {}
    } else {
      var o, k :| o in q.subs && 0 <= k < |q.subs[o]| && !CanRebuild(vms, q.subs[o][k]);
      assert !AllRebuild(vms, q.subs[o]);
    }
  }

  /** The owners of a rotation that d does not list. */
  function Missing(rot: seq<nat>, d: seq<nat>): seq<nat> {
    if rot == [] then [] else (if rot[0] in d then [] else [rot[0]]) + Missing(rot[1..], d)
  }

  /** Half way through, for one owner: what arrived is the rebuilt front part of
      the old sub-queue and what is still to come is the rest of it. */
  ghost predicate Half(vms: Vms, old_: seq<AsyncTask>, src: seq<AsyncTask>, dst: seq<AsyncTask>) {
    && |dst| <= |old_| && src == old_[|dst|..]
    && forall k :: 0 <= k < |dst| ==> CanRebuild(vms, old_[k]) && dst[k] == Rebuild(vms, old_[k])
  }

  /** Half way through for all owners; the new rotation followed by the owners
      that have not arrived yet is the old rotation. */
  ghost predicate Transferring(vms: Vms, q: Queue, src: Queue, dst: Queue) {
    && WF(src) && WF(dst)
    && (forall o :: Half(vms, Sub(q, o), Sub(src, o), Sub(dst, o)))
    && dst.rotation + Missing(src.rotation, dst.rotation) == q.rotation
    && dst.len + src.len == q.len
  }

  lemma {:induction false} MissingSplit(a: seq<nat>, b: seq<nat>, d: seq<nat>)
    ensures Missing(a + b, d) == Missing(a, d) + Missing(b, d)
  {
    if a == [] {
      assert a + b == b;
    } else {
      assert (a + b)[1..] == a[1..] + b;
      MissingSplit(a[1..], b, d);
    }
  }

  /** Listing one more owner matters only where that owner occurs. */
  lemma {:induction false} MissingMore(rot: seq<nat>, d: seq<nat>, o: nat)
    requires o !in rot
    ensures Missing(rot, d + [o]) == Missing(rot, d)
  {
    if rot != [] { MissingMore(rot[1..], d, o); }
  }

  lemma {:induction false} MissingAll(rot: seq<nat>)
    ensures Missing(rot, []) == rot
  {
    if rot != [] { MissingAll(rot[1..]); }
  }

  /** Moving the front owner over, whether it comes back or not. */
  lemma {:induction false} RotationStep(rot: seq<nat>, d: seq<nat>, again: bool)
    requires rot != [] && rot[0] !in rot[1..]
    ensures var o := rot[0];
      var d' := if o in d then d else d + [o];
      var rot' := if again then rot[1..] + [o] else rot[1..];
      d' + Missing(rot', d') == d + Missing(rot, d)
  {
    var o, rest, m := rot[0], rot[1..], Missing(rot[1..], d);
    var d' := if o in d then d else d + [o];
    StillMissing(rest, d, o);
    MissingSplit(rest, [o], d');
    NotMissing(o, d');
    Units(m);
    if o !in d { Regroup(d, [o], m); }
  }

  lemma StillMissing(rest: seq<nat>, d: seq<nat>, o: nat)
    requires o !in rest
    ensures Missing(rest, if o in d then d else d + [o]) == Missing(rest, d)
  {
    if o !in d { MissingMore(rest, d, o); }
  }

  lemma {:induction false} NotMissing(o: nat, d: seq<nat>)
    requires o in d
    ensures Missing([o], d) == []
  {
    assert [o][1..] == [];
  }

  lemma HalfStep(vms: Vms, q: Queue, src: Queue, dst: Queue, o: nat)
    requires WF(src) && WF(dst) && HasFront(src) && CanRebuild(vms, Front(src))
    requires Half(vms, Sub(q, o), Sub(src, o), Sub(dst, o))
    ensures Half(vms, Sub(q, o), Sub(Pop(src), o), Sub(Push(dst, Rebuild(vms, Front(src))), o))
  {
    PopSub(src, o);
    PushSub(dst, Rebuild(vms, Front(src)), o);
  }

  lemma TransferStep(vms: Vms, q: Queue, src: Queue, dst: Queue)
    requires Transferring(vms, q, src, dst) && HasFront(src) && CanRebuild(vms, Front(src))
    ensures Transferring(vms, q, Pop(src), Push(dst, Rebuild(vms, Front(src))))
  {
    var t := Rebuild(vms, Front(src));
    PopWF(src);
    PushWF(dst, t);
    Rotated(src.rotation);
    RotationStep(src.rotation, dst.rotation, src.rotation[0] in Pop(src).subs);
    forall o ensures Half(vms, Sub(q, o), Sub(Pop(src), o), Sub(Push(dst, t), o)) {
      HalfStep(vms, q, src, dst, o);
    }
  }

  lemma TransferEnd(vms: Vms, q: Queue, src: Queue, dst: Queue)
    requires WF(q) && Transferring(vms, q, src, dst) && src.subs == map[]
    ensures QueueRebuilds(vms, q) && dst == RebuildQueue(vms, q)
  {
    WFHasFront(src);
    assert dst.rotation == q.rotation;
    forall o | o in q.subs
      ensures AllRebuild(vms, q.subs[o]) && o in dst.subs && dst.subs[o] == RebuildAll(vms, q.subs[o]) {
      assert Half(vms, Sub(q, o), Sub(src, o), Sub(dst, o));
      assert o in dst.rotation;
    }
    assert dst.subs.Keys == q.subs.Keys;
    assert dst.subs == RebuildQueue(vms, q).subs;
  }

  lemma TransferStart(vms: Vms, q: Queue)
    requires WF(q)
    ensures Transferring(vms, q, q, EMPTY)
  {
    EmptyWF();
    MissingAll(q.rotation);
    forall o ensures Half(vms, Sub(q, o), Sub(q, o), Sub(EMPTY, o)) { HalfStart(vms, Sub(q, o)); }
  }

  lemma EmptyWF()
    ensures WF(EMPTY)
  {
  }

  lemma HalfStart(vms: Vms, ts: seq<AsyncTask>)
    ensures Half(vms, ts, ts, [])
  {
    assert ts[0..] == ts;
  }

  lemma TransferDone(vms: Vms, q: Queue, src: Queue, dst: Queue)
    requires WF(q) && Transferring(vms, q, src, dst) && !HasFront(src)
    ensures Carriable(vms, q) && QueueCarried(vms, q, dst)
  {
    WFHasFront(src);
    TransferEnd(vms, q, src, dst);
    CarriableIff(vms, q);
    QueueCarriedIff(vms, q, dst);
  }

  /** One turn of the draining loop. */
  method MoveOne(vms: Vms, src: TaskQueue, dst: TaskQueue, ghost q: Queue) returns (ok: bool)
    requires src != dst && Transferring(vms, q, src.State(), dst.State()) && HasFront(src.State())
    modifies src, dst
    ensures ok ==> Transferring(vms, q, src.State(), dst.State()) && src.len < old(src.len)
    ensures !ok ==> !Carriable(vms, q)
  {
    ghost var s, d := src.State(), dst.State();
    var _, t := src.PopFront();
    ok := CanRebuild(vms, t);
    if ok {
      dst.PushBack(Rebuild(vms, t));
      TransferStep(vms, q, s, d);
    } else {
      StuckTask(vms, q, s, d);
      CarriableIff(vms, q);
    }
  }

  /** `async_task_update` of the block-task queue: it succeeds exactly when every
      queued task is a read or a write of a VM that is there and has a block device,
      and then the new queue is the old one, owner rotation and per-owner order
      included, each task with its VM's priority and device as they are now. */
  method UpdateQueue(vms: Vms, src: TaskQueue, dst: TaskQueue) returns (ok: bool)
    requires src != dst && WF(src.State()) && dst.State() == EMPTY
    modifies src, dst
    ensures ok <==> Carriable(vms, old(src.State()))
    ensures ok ==> QueueCarried(vms, old(src.State()), dst.State())
  {
    ghost var q := src.State();
    TransferStart(vms, q);
    var empty := src.IsEmpty();
    while !empty
      invariant Transferring(vms, q, src.State(), dst.State())
      invariant empty <==> !HasFront(src.State())
      decreases src.len
    {
      ok := MoveOne(vms, src, dst, q);
      if !ok { return; }
      empty := src.IsEmpty();
    }
    TransferDone(vms, q, src.State(), dst.State());
    return true;
  }

  lemma StuckTask(vms: Vms, q: Queue, src: Queue, dst: Queue)
    requires Transferring(vms, q, src, dst) && HasFront(src) && !CanRebuild(vms, Front(src))
    ensures !QueueRebuilds(vms, q)
  {
    var o := src.rotation[0];
    assert Half(vms, Sub(q, o), Sub(src, o), Sub(dst, o));
    assert o in q.subs && q.subs[o][|Sub(dst, o)|] == Front(src);
  }

  // --------------------------------------------------------------- notifications

  /** Whether a notification can be rebuilt; the code panics otherwise. */
  predicate CanRebuildNote(vms: Vms, t: AsyncTask) {
    t.data.IpiTask? && t.vmid in vms && vms[t.vmid].hasBlk
  }

  predicate NotesRebuild(vms: Vms, ts: seq<AsyncTask>) {
    forall k :: 0 <= k < |ts| ==> CanRebuildNote(vms, ts[k])
  }

  /** Who notified, in which order, and how far each notification got. */
  function RebuildNotes(vms: Vms, ts: seq<AsyncTask>): (r: seq<AsyncTask>)
    requires NotesRebuild(vms, ts)
    ensures |r| == |ts|
    ensures forall k :: 0 <= k < |ts| ==>
      r[k] == ts[k].(priority := vms[ts[k].vmid].priority, dev := vms[ts[k].vmid].dev)
  {
    seq(|ts|, k requires 0 <= k < |ts| => ts[k].(priority := vms[ts[k].vmid].priority, dev := vms[ts[k].vmid].dev))
  }

  /** `async_task_update` of the list of notifications. */
  method UpdateNotes(vms: Vms, src: seq<AsyncTask>) returns (ok: bool, dst: seq<AsyncTask>)
    ensures ok <==> forall k :: 0 <= k < |src| ==>
      src[k].data.IpiTask? && src[k].vmid in vms && vms[src[k].vmid].hasBlk
    ensures ok ==> ListCarried(vms, src, dst)
  {
    dst := [];
    for n := 0 to |src|
      invariant |dst| == n && NotesRebuild(vms, src[..n])
      invariant dst == RebuildNotes(vms, src[..n])
    {
      var t := src[n];
      if !CanRebuildNote(vms, t) { return false, dst; }
      dst := dst + [t.(priority := vms[t.vmid].priority, dev := vms[t.vmid].dev)];
      assert src[..n + 1] == src[..n] + [t];
    }
    assert src[..|src|] == src;
    NotesCarriedIff(vms, src, dst);
    return true, dst;
  }
}
