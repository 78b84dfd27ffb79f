/** Where the mediated block device is not safe: which steps can make a core panic. */
module BlockIoRace {
  import opened Tasks
  import opened BlockIo
  import opened BlockIoSafety

  /** Steps that cores make by themselves, without a guest or the service VM. */
  predicate Internal(e: Event) { e.Look? || e.Mark? || e.Send? || e.Reset? || e.Arrive? || e.Go? }

  predicate AllInternal(es: seq<Event>) { forall k :: 0 <= k < |es| ==> Internal(es[k]) }

  /** These steps of the cores end in a panic. */
  ghost predicate Fails(s: IO, es: seq<Event>) {
    AllInternal(es) && RunEnabled(s, es) && RunIo(s, es).panic
  }

  ghost predicate CanPanic(s: IO) { exists es :: Fails(s, es) }

  lemma {:induction false} InternalSound(s: IO, es: seq<Event>)
    requires AllInternal(es) && RunEnabled(s, es)
    ensures RunSound(s, es)
    decreases |es|
  {
    if es != [] {
      assert Internal(es[0]);
      InternalSound(Do(s, es[0]), es[1..]);
    }
  }

  /** As long as the invariant holds, no schedule of the cores panics. */
  lemma InvCannotPanic(s: IO)
    requires Inv(s)
    ensures !CanPanic(s)
  {
    forall es ensures !Fails(s, es) {
      if AllInternal(es) && RunEnabled(s, es) {
        InternalSound(s, es);
        RunInv(s, es);
      }
    }
  }

  lemma FailsBefore(s: IO, e: Event, es: seq<Event>)
    requires Enabled(s, e) && Internal(e) && Fails(Do(s, e), es)
    ensures Fails(s, [e] + es)
  {
    assert ([e] + es)[1..] == es;
  }

  // ----------------------------------------------------------- the stray interrupt

  /** An interrupt whose notification is gone. */
  lemma {:induction false} DrainFails(s: IO) returns (es: seq<Event>)
    requires s.core.Drain? && !s.core.looping && s.ipi == [] && !s.panic && s.core.vm in s.ring && s.core.vm in s.cfg
    ensures Fails(s, es)
    decreases s.core.left
  {
    var s1 := Do(s, Go);
    if s1.panic {
      es := [Go];
      assert [Go][1..] == [];
    } else if s1.core.Drain? {
      es := DrainFails(s1);
      FailsBefore(s, Go, es);
      es := [Go] + es;
    } else {
      assert s1 == s.(core := Drop(false));
      assert [Go, Go][1..] == [Go] && [Go][1..] == [];
      es := [Go, Go];
    }
  }

  /** Core 0 in its loop removes the marked notification unread; then the interrupt
      sent for it arrives. */
  lemma StrayFails(s: IO) returns (es: seq<Event>)
    requires s.core == Loop && !s.panic && s.io.subs == map[] && |s.ipi| == 1 && s.ipi[0].state == Running
    requires s.guests.sent == [s.ipi[0].vmid] && s.ipi[0].vmid in s.ring && s.ipi[0].vmid in s.cfg
    ensures Fails(s, es)
  {
    var s1 := s.(core := Holds(|s.gone|));
    var s2 := s.(core := Drop(true));
    var s3 := s.(ipi := [], gone := s.gone + s.ipi);
    var s4 := s3.(scheduling := false, core := Rest);
    assert s.ipi == [s.ipi[0]];
    assert Do(s, Go) == s1 && Do(s1, Go) == s2;
    assert Do(s2, Go) == s3 && Do(s3, Go) == s4;
    es := DrainFails(Do(s4, Arrive));
    FailsBefore(s4, Arrive, es);
    FailsBefore(s3, Go, [Arrive] + es);
    FailsBefore(s2, Go, [Go] + ([Arrive] + es));
    FailsBefore(s1, Go, [Go] + ([Go] + ([Arrive] + es)));
    FailsBefore(s, Go, [Go] + ([Go] + ([Go] + ([Arrive] + es))));
    es := [Go] + ([Go] + ([Go] + ([Go] + ([Arrive] + es))));
  }

  /** Core 0 is about to enter its loop, or in it. */
  lemma SentFails(s: IO) returns (es: seq<Event>)
    requires s.core == Loop || (s.core == Gap && !s.scheduling)
    requires !s.panic && s.io.subs == map[] && |s.ipi| == 1 && s.ipi[0].state == Running
    requires s.guests.sent == [s.ipi[0].vmid] && s.ipi[0].vmid in s.ring && s.ipi[0].vmid in s.cfg
    ensures Fails(s, es)
  {
    if s.core == Loop {
      es := StrayFails(s);
    } else {
      es := StrayFails(Do(s, Go));
      FailsBefore(s, Go, es);
      es := [Go] + es;
    }
  }

  /** A guest's core wakes core 0 while core 0 is inside its handlers. */
  lemma WakeFails(s: IO) returns (es: seq<Event>)
    requires s.core == Loop || (s.core == Gap && !s.scheduling)
    requires !s.panic && s.io.subs == map[] && |s.ipi| == 1 && s.ipi[0].state == Pending
    requires s.guests == Guests(1, [], 0, [], s.guests.late) && s.ipi[0].vmid in s.ring && s.ipi[0].vmid in s.cfg
    ensures Fails(s, es)
  {
    var g, x := s.guests, s.ipi[0];
    var s1 := s.(guests := g.(deciding := 0, holding := [|s.gone|]));
    var s2 := s.(guests := g.(deciding := 0, marked := 1), ipi := [x.(state := Running)]);
    var s3 := s2.(guests := Guests(0, [], 0, [x.vmid], g.late + 1));
    assert Do(s, Look) == s1;
    assert Do(s1, Mark(0)) == s2;
    assert Do(s2, Send) == s3;
    es := SentFails(s3);
    FailsBefore(s2, Send, es);
    FailsBefore(s1, Mark(0), [Send] + es);
    FailsBefore(s, Look, [Mark(0)] + ([Send] + es));
    es := [Look] + ([Mark(0)] + ([Send] + es));
  }

  lemma NobodyElse(s: IO)
    requires PhaseOk(s) && s.core != Rest && NeedExecute(s)
    ensures s.core == Loop || s.core == Gap
    ensures s.guests == Guests(0, [], 0, [], s.guests.late)
  {
  }

  lemma ClashFails(s: IO, vm: nat) returns (es: seq<Event>)
    requires Inv(s) && Enabled(s, Notify(vm)) && s.core != Rest && NeedExecute(s)
    ensures Fails(Do(s, Notify(vm)), es)
  {
    NobodyElse(s);
    es := WakeFails(Do(s, Notify(vm)));
  }

  /** The exact condition, step by step: in every state a sound run reaches, a step
      leaves the cores unable to panic if and only if it is sound. */
  lemma SoundIff(s: IO, e: Event)
    requires Inv(s) && Enabled(s, e)
    ensures Sound(s, e) <==> !CanPanic(Do(s, e))
  {
    if Sound(s, e) {
      StepInv(s, e);
      InvCannotPanic(Do(s, e));
    } else if e.Notify? {
      var es := ClashFails(s, e.vm);
    } else {
      assert Fails(Do(s, e), []);
    }
  }

  /** At no point of the run can the cores panic by themselves. */
  ghost predicate NeverPanics(s: IO, es: seq<Event>)
    requires RunEnabled(s, es)
    decreases |es|
  {
    !CanPanic(s) && (es == [] || NeverPanics(Do(s, es[0]), es[1..]))
  }

  /** And over whole runs. */
  lemma {:induction false} RunSoundIff(s: IO, es: seq<Event>)
    requires Inv(s) && RunEnabled(s, es)
    ensures RunSound(s, es) <==> NeverPanics(s, es)
    decreases |es|
  {
    InvCannotPanic(s);
    if es != [] {
      SoundIff(s, es[0]);
      if Sound(s, es[0]) {
        StepInv(s, es[0]);
        RunSoundIff(Do(s, es[0]), es[1..]);
      }
    }
  }

  // ----------------------------------------------------------------- how it comes

  /** Nothing to do anywhere. */
  ghost predicate Idle(s: IO) {
    Inv(s) && s.core == Rest && s.ipi == [] && s.io.subs == map[] && Waking(s.guests) == 0
  }

  /** The run `es` from s keeps to the rule and ends in r. */
  ghost predicate Reaches(s: IO, es: seq<Event>, r: IO) {
    RunEnabled(s, es) && RunSound(s, es) && RunIo(s, es) == r
  }

  lemma ReachesFirst(s: IO, e: Event, es: seq<Event>, r: IO)
    requires Enabled(s, e) && Sound(s, e) && Reaches(Do(s, e), es, r)
    ensures Reaches(s, [e] + es, r)
  {
    assert ([e] + es)[1..] == es;
  }

  /** From the interrupt on: the only request is dropped, and core 0 stands before
      the executor with both lists empty. */
  lemma HandleReaches(s: IO, vm: nat, r: Req) returns (es: seq<Event>, g: IO)
    requires s.core == Rest && !s.panic && !s.scheduling && s.io.subs == map[] && s.ipi != [] && s.ipi[1..] == []
    requires vm in s.ring && vm in s.cfg && s.ring[vm] == [r] && s.guests.sent == [vm]
    requires !Accepts(s.cfg[vm], r) && !Panics(s.cfg[vm], r)
    ensures Reaches(s, es, g) && g.core == Gap && NeedExecute(g) && g.used == s.used && g.cfg == s.cfg
  {
    var s1 := s.(guests := s.guests.(sent := []), core := Drain(vm, 1, false));
    var s2 := s1.(ring := s.ring[vm := []], core := Drain(vm, 0, false));
    var s3 := s2.(core := Drop(false));
    g := s3.(ipi := [], gone := s.gone + [s.ipi[0]], core := Gap);
    assert Do(s, Arrive) == s1;
    assert [r][1..] == [];
    assert Do(s1, Go) == s2 && Do(s2, Go) == s3 && Do(s3, Go) == g;
    assert Reaches(g, [], g);
    ReachesFirst(s3, Go, [], g);
    ReachesFirst(s2, Go, [Go] + [], g);
    ReachesFirst(s1, Go, [Go] + ([Go] + []), g);
    ReachesFirst(s, Arrive, [Go] + ([Go] + ([Go] + [])), g);
    es := [Arrive] + ([Go] + ([Go] + ([Go] + [])));
  }

  /** The notification's interrupt is on its way to core 0. */
  function Sent(s: IO, vm: nat): IO
    requires vm in s.cfg
  {
    s.(ipi := [IpiOf(s.cfg[vm], vm).(state := Running)], posted := s.posted - {vm},
       guests := Guests(0, [], 0, [vm], s.guests.late + 1))
  }

  lemma WakeFirst(s: IO, vm: nat, es: seq<Event>, g: IO)
    requires s.core == Rest && !s.panic && !s.scheduling && s.io.subs == map[] && s.ipi == []
    requires vm in s.cfg && vm in s.used && s.guests == Guests(0, [], 0, [], s.guests.late)
    requires Reaches(Sent(s, vm), es, g)
    ensures Reaches(s, [Notify(vm)] + ([Look] + ([Mark(0)] + ([Send] + es))), g)
  {
    var x, q := IpiOf(s.cfg[vm], vm), s.(posted := s.posted - {vm});
    var s1 := q.(ipi := [x], guests := s.guests.(deciding := 1));
    var s2 := q.(ipi := [x], guests := s.guests.(holding := [|s.gone|]));
    var s3 := q.(ipi := [x.(state := Running)], guests := s.guests.(marked := 1));
    assert Do(s, Notify(vm)) == s1;
    assert Do(s1, Look) == s2;
    assert Do(s2, Mark(0)) == s3;
    assert Do(s3, Send) == Sent(s, vm);
    ReachesFirst(s3, Send, es, g);
    ReachesFirst(s2, Mark(0), [Send] + es, g);
    ReachesFirst(s1, Look, [Mark(0)] + ([Send] + es), g);
    ReachesFirst(s, Notify(vm), [Look] + ([Mark(0)] + ([Send] + es)), g);
  }

  /** One request outside a VM's part of the disk is enough: from every idle state a
      sound run leads to a point where the next notification, of any VM, can make
      core 0 panic. */
  lemma GapOpens(s: IO, vm: nat, r: Req, other: nat) returns (es: seq<Event>, g: IO)
    requires Idle(s) && vm in s.used && vm in s.ring && vm in s.cfg && s.ring[vm] == []
    requires !Accepts(s.cfg[vm], r) && !Panics(s.cfg[vm], r) && other in s.used
    ensures Reaches(s, es, g) && g.core == Gap && Enabled(g, Notify(other)) && !Sound(g, Notify(other))
    ensures CanPanic(Do(g, Notify(other)))
  {
    var s1 := Do(s, Post(vm, [r]));
    assert s1.ring[vm] == [r];
    assert Sound(s, Post(vm, [r]));
    es, g := HandleReaches(Sent(s1, vm), vm, r);
    WakeFirst(s1, vm, es, g);
    es := [Notify(vm)] + ([Look] + ([Mark(0)] + ([Send] + es)));
    ReachesFirst(s, Post(vm, [r]), es, g);
    es := [Post(vm, [r])] + es;
    RunInv(s, es);
    SoundIff(g, Notify(other));
  }
}
