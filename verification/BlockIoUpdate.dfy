/** A live update between two steps of the mediated block device: the new
    hypervisor's lists satisfy what the old one's did. */
module BlockIoUpdate {
  import opened FairQueue
  import opened BlockIo
  import opened BlockIoSafety
  import opened LiveUpdate

  /** The state after `async_task_update`: both lists rebuilt, the status and the
      used-info records copied. */
  function Updated(vms: Vms, s: IO): IO
    requires QueueRebuilds(vms, s.io) && NotesRebuild(vms, s.ipi)
  {
    s.(io := RebuildQueue(vms, s.io), ipi := RebuildNotes(vms, s.ipi))
  }

  lemma RebuiltOk(vms: Vms, q: Queue)
    requires QueueOk(q) && QueueRebuilds(vms, q)
    ensures var r := RebuildQueue(vms, q);
      QueueOk(r) && HasFront(r) == HasFront(q) && Outstanding(r) == Outstanding(q)
  {
    var r := RebuildQueue(vms, q);
    TotalFrame(q.subs, r.subs, q.rotation);
    forall o, k | o in r.subs && 0 <= k < |r.subs[o]| && !(k == 0 && r.rotation[0] == o) ensures Fresh(r.subs[o][k]) {
      assert Fresh(q.subs[o][k]);
    }
  }

  lemma RebuiltBooks(vms: Vms, s: IO)
    requires Books(s) && QueueRebuilds(vms, s.io)
    ensures Books(s.(io := RebuildQueue(vms, s.io)))
  {
    var s' := s.(io := RebuildQueue(vms, s.io));
    RebuiltOk(vms, s.io);
    forall o | o in s.used ensures Infos(Sub(s'.io, o)) == Infos(Sub(s.io, o)) {}
    SameLedger(s, s');
  }

  lemma RebuiltFlight(vms: Vms, q: Queue)
    requires QueueRebuilds(vms, q)
    ensures var r := RebuildQueue(vms, q);
      (q.subs == map[] <==> r.subs == map[]) && HasFront(r) == HasFront(q)
      && (HasFront(q) ==> Front(r).state == Front(q).state && Front(r).data == Front(q).data)
  {
    var r := RebuildQueue(vms, q);
    assert r.subs.Keys == q.subs.Keys;
    assert q.subs == map[] <==> q.subs.Keys == {};
    assert r.subs == map[] <==> r.subs.Keys == {};
  }

  lemma UpdatedRings(vms: Vms, s: IO)
    requires Rings(s) && QueueRebuilds(vms, s.io) && NotesRebuild(vms, s.ipi)
    ensures Rings(Updated(vms, s))
  {
    RingsKept(s, Updated(vms, s));
  }

  lemma UpdatedPhase(vms: Vms, s: IO)
    requires PhaseOk(s) && QueueRebuilds(vms, s.io) && NotesRebuild(vms, s.ipi)
    ensures PhaseOk(Updated(vms, s))
  {
    RebuiltFlight(vms, s.io);
  }

  /** The schedule, the pairing, the notifications and the request in flight
      survive a live update: the new hypervisor goes on where the old one stopped,
      at whatever step it stopped. */
  lemma LiveUpdateInv(vms: Vms, s: IO)
    requires Inv(s) && QueueRebuilds(vms, s.io) && NotesRebuild(vms, s.ipi)
    ensures Inv(Updated(vms, s))
  {
    RebuiltBooks(vms, s);
    BooksKept(s.(io := RebuildQueue(vms, s.io)), Updated(vms, s));
    UpdatedRings(vms, s);
    UpdatedPhase(vms, s);
  }
}
