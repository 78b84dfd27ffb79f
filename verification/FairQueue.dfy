/** The round-robin queue of I/O tasks: one FIFO per owning VM and a rotation of
    the owners that have tasks. */
module FairQueue {
  import opened Seqs
  import opened Tasks

  datatype Queue = Queue(len: nat, subs: map<nat, seq<AsyncTask>>, rotation: seq<nat>)

  const EMPTY := Queue(0, map[], [])

  function Sub(q: Queue, o: nat): seq<AsyncTask> { if o in q.subs then q.subs[o] else [] }

  function Total(subs: map<nat, seq<AsyncTask>>, owners: seq<nat>): nat {
    if owners == [] then 0 else (if owners[0] in subs then |subs[owners[0]]| else 0) + Total(subs, owners[1..])
  }

  /** The rotation lists each owner with tasks once, sub-queues hold their
      owner's tasks only, and `len` counts them all. */
  ghost predicate WF(q: Queue) {
    Listed(q) && Owned(q) && q.len == Total(q.subs, q.rotation)
  }

  ghost predicate Listed(q: Queue) {
    Distinct(q.rotation) && forall o :: o in q.rotation <==> o in q.subs
  }

  ghost predicate Owned(q: Queue) {
    && (forall o :: o in q.subs ==> q.subs[o] != [])
    && (forall o, k :: o in q.subs && 0 <= k < |q.subs[o]| ==> q.subs[o][k].vmid == o)
  }

  // ------------------------------------------------------------------ operations

  function Push(q: Queue, t: AsyncTask): Queue {
    var o := t.vmid;
    if o in q.subs then Queue(q.len + 1, q.subs[o := q.subs[o] + [t]], q.rotation)
    else Queue(q.len + 1, q.subs[o := [t]], q.rotation + [o])
  }

  /** Whether `front` and `pop_front` find a task; they panic otherwise. */
  predicate HasFront(q: Queue) {
    q.rotation != [] && q.rotation[0] in q.subs && q.subs[q.rotation[0]] != [] && q.len > 0
  }

  function Front(q: Queue): AsyncTask
    requires HasFront(q)
  {
    q.subs[q.rotation[0]][0]
  }

  function Pop(q: Queue): Queue
    requires HasFront(q)
  {
    var o := q.rotation[0];
    var rest := q.subs[o][1..];
    if rest != [] then Queue(q.len - 1, q.subs[o := rest], q.rotation[1..] + [o])
    else Queue(q.len - 1, q.subs - {o}, q.rotation[1..])
  }

  // ------------------------------------------------------------------- invariant

  lemma {:induction false} TotalSplit(subs: map<nat, seq<AsyncTask>>, a: seq<nat>, b: seq<nat>)
    ensures Total(subs, a + b) == Total(subs, a) + Total(subs, b)
  {
    if a == [] {
      assert a + b == b;
    } else {
      assert (a + b)[1..] == a[1..] + b;
      TotalSplit(subs, a[1..], b);
    }
  }

  /** Changing one owner's sub-queue does not matter where it is not listed. */
  lemma {:induction false} TotalFrame(subs: map<nat, seq<AsyncTask>>, subs': map<nat, seq<AsyncTask>>, owners: seq<nat>)
    requires forall o :: o in owners ==> (o in subs <==> o in subs') && (o in subs ==> |subs[o]| == |subs'[o]|)
    ensures Total(subs, owners) == Total(subs', owners)
  {
    if owners != [] {
      TotalFrame(subs, subs', owners[1..]);
    }
  }

  lemma {:induction false} TotalBump(subs: map<nat, seq<AsyncTask>>, subs': map<nat, seq<AsyncTask>>,
      owners: seq<nat>, o: nat)
    requires Distinct(owners) && o in owners && o in subs && o in subs' && |subs'[o]| == |subs[o]| + 1
    requires forall p :: p != o ==> (p in subs <==> p in subs') && (p in subs ==> subs[p] == subs'[p])
    ensures Total(subs', owners) == Total(subs, owners) + 1
  {
    assert owners == [owners[0]] + owners[1..];
    if owners[0] == o {
      assert o !in owners[1..];
      TotalFrame(subs, subs', owners[1..]);
    } else {
      TotalBump(subs, subs', owners[1..], o);
    }
  }

  lemma PushWF(q: Queue, t: AsyncTask)
    requires WF(q)
    ensures WF(Push(q, t))
  {
    var q' := Push(q, t);
    if t.vmid in q.subs {
      TotalBump(q.subs, q'.subs, q.rotation, t.vmid);
    } else {
      TotalSplit(q'.subs, q.rotation, [t.vmid]);
      TotalFrame(q.subs, q'.subs, q.rotation);
    }
  }

  lemma WFHasFront(q: Queue)
    requires WF(q)
    ensures HasFront(q) <==> q.subs != map[]
    ensures q.rotation == [] <==> q.subs == map[]
  {
    if q.rotation != [] {
      assert q.rotation[0] in q.subs;
    }
    if q.subs != map[] {
      var o :| o in q.subs;
      assert o in q.rotation;
    }
  }

  lemma Rotated(s: seq<nat>)
    requires Distinct(s) && s != []
    ensures Distinct(s[1..]) && Distinct(s[1..] + [s[0]]) && s[0] !in s[1..]
    ensures forall p :: p in s <==> p == s[0] || p in s[1..]
    ensures forall p :: p in s[1..] + [s[0]] <==> p in s
  {
    assert s == [s[0]] + s[1..];
  }

  lemma PopListed(q: Queue)
    requires WF(q) && HasFront(q)
    ensures Listed(Pop(q)) && Owned(Pop(q))
  {
    Rotated(q.rotation);
  }

  lemma PopCounted(q: Queue)
    requires WF(q) && HasFront(q)
    ensures Pop(q).len == Total(Pop(q).subs, Pop(q).rotation)
  {
    var o, rest := q.rotation[0], q.rotation[1..];
    assert q.rotation == [o] + rest && o !in rest;
    TotalFrame(q.subs, Pop(q).subs, rest);
    if o in Pop(q).subs {
      TotalSplit(Pop(q).subs, rest, [o]);
    }
  }

  lemma PopWF(q: Queue)
    requires WF(q) && HasFront(q)
    ensures WF(Pop(q))
  {
    PopListed(q);
    PopCounted(q);
  }

  /** A push never changes what is at the front. */
  lemma PushKeepsFront(q: Queue, t: AsyncTask)
    requires WF(q) && HasFront(q)
    ensures HasFront(Push(q, t)) && Front(Push(q, t)) == Front(q)
  {
  }

  // ------------------------------------------------------------------------ runs

  datatype Op = PushOp(t: AsyncTask) | PopOp

  function Step(q: Queue, op: Op): Queue {
    match op
    case PushOp(t) => Push(q, t)
    case PopOp => if HasFront(q) then Pop(q) else q
  }

  /** The run pops only when there is something to pop. */
  predicate NoPanic(q: Queue, ops: seq<Op>)
    decreases |ops|
  {
    ops == [] || ((ops[0].PopOp? ==> HasFront(q)) && NoPanic(Step(q, ops[0]), ops[1..]))
  }

  function After(q: Queue, ops: seq<Op>): Queue
    decreases |ops|
  {
    if ops == [] then q else After(Step(q, ops[0]), ops[1..])
  }

  /** The tasks the run pops, in order. */
  function Popped(q: Queue, ops: seq<Op>): seq<AsyncTask>
    decreases |ops|
  {
    if ops == [] then [] else
    (if ops[0].PopOp? && HasFront(q) then [Front(q)] else []) + Popped(Step(q, ops[0]), ops[1..])
  }

  function Pushed(ops: seq<Op>): seq<AsyncTask> {
    if ops == [] then [] else (if ops[0].PushOp? then [ops[0].t] else []) + Pushed(ops[1..])
  }

  function Pops(ops: seq<Op>): nat {
    if ops == [] then 0 else (if ops[0].PopOp? then 1 else 0) + Pops(ops[1..])
  }

  /** The tasks of one owner. */
  function Of(ts: seq<AsyncTask>, o: nat): seq<AsyncTask> {
    if ts == [] then [] else (if ts[0].vmid == o then [ts[0]] else []) + Of(ts[1..], o)
  }

  lemma StepWF(q: Queue, op: Op)
    requires WF(q)
    ensures WF(Step(q, op))
  {
    match op
    case PushOp(t) => PushWF(q, t);
    case PopOp => if HasFront(q) { PopWF(q); }
  }

  /** Every run keeps the invariant. */
  lemma {:induction false} RunWF(q: Queue, ops: seq<Op>)
    requires WF(q)
    ensures WF(After(q, ops))
    decreases |ops|
  {
    if ops != [] {
      StepWF(q, ops[0]);
      RunWF(Step(q, ops[0]), ops[1..]);
    }
  }

  lemma {:induction false} OfCons(t: AsyncTask, ts: seq<AsyncTask>, o: nat)
    ensures Of([t] + ts, o) == (if t.vmid == o then [t] else []) + Of(ts, o)
  {
    assert ([t] + ts)[1..] == ts;
  }

  lemma {:induction false} OfAppend(a: seq<AsyncTask>, b: seq<AsyncTask>, o: nat)
    ensures Of(a + b, o) == Of(a, o) + Of(b, o)
  {
    if a == [] {
      assert a + b == b;
    } else {
      assert a + b == [a[0]] + (a[1..] + b) && a == [a[0]] + a[1..];
      OfAppend(a[1..], b, o);
      OfCons(a[0], a[1..] + b, o);
      OfCons(a[0], a[1..], o);
      Reassociate(if a[0].vmid == o then [a[0]] else [], Of(a[1..], o), Of(b, o));
    }
  }

  lemma {:induction false} PushSub(q: Queue, t: AsyncTask, o: nat)
    requires WF(q)
    ensures Sub(Push(q, t), o) == Sub(q, o) + Of([t], o)
  {
  }

  lemma {:induction false} PopSub(q: Queue, o: nat)
    requires WF(q) && HasFront(q)
    ensures Sub(q, o) == Of([Front(q)], o) + Sub(Pop(q), o)
  {
    assert q.rotation[0] in q.subs;
  }

  /** Per owner the queue is FIFO and loses nothing: what was popped, followed by
      what is left, is what was there followed by what was pushed. */
  lemma {:induction false} Fifo(q: Queue, ops: seq<Op>, o: nat)
    requires WF(q) && NoPanic(q, ops)
    ensures Of(Popped(q, ops), o) + Sub(After(q, ops), o) == Sub(q, o) + Of(Pushed(ops), o)
    decreases |ops|
  {
    if ops != [] {
      StepWF(q, ops[0]);
      Fifo(Step(q, ops[0]), ops[1..], o);
      var tail := Popped(Step(q, ops[0]), ops[1..]);
      assert Popped(q, ops) == if ops[0].PopOp? then [Front(q)] + tail else tail;
      assert Pushed(ops) == if ops[0].PushOp? then [ops[0].t] + Pushed(ops[1..]) else Pushed(ops[1..]);
      FifoStep(q, ops[0], tail, Sub(After(q, ops), o), Pushed(ops[1..]), o);
    }
  }

  lemma {:induction false} FifoStep(q: Queue, op: Op, popped: seq<AsyncTask>, left: seq<AsyncTask>,
      pushed: seq<AsyncTask>, o: nat)
    requires WF(q) && (op.PopOp? ==> HasFront(q))
    requires Of(popped, o) + left == Sub(Step(q, op), o) + Of(pushed, o)
    ensures op.PopOp? ==> Of([Front(q)] + popped, o) + left == Sub(q, o) + Of(pushed, o)
    ensures op.PushOp? ==> Of(popped, o) + left == Sub(q, o) + Of([op.t] + pushed, o)
  {
    match op
    case PushOp(t) =>
      PushSub(q, t, o);
      OfAppend([t], pushed, o);
      Reassociate(Sub(q, o), Of([t], o), Of(pushed, o));
    case PopOp =>
      PopSub(q, o);
      OfAppend([Front(q)], popped, o);
      Reassociate(Of([Front(q)], o), Of(popped, o), left);
      Reassociate(Of([Front(q)], o), Sub(Pop(q), o), Of(pushed, o));
  }

  lemma Reassociate(a: seq<AsyncTask>, b: seq<AsyncTask>, c: seq<AsyncTask>)
    ensures (a + b) + c == a + (b + c)
  {
  }

  /** At every point of the run at most n owners have tasks. */
  predicate AtMost(q: Queue, ops: seq<Op>, n: nat)
    decreases |ops|
  {
    |q.rotation| <= n && (ops == [] || AtMost(Step(q, ops[0]), ops[1..], n))
  }

  /** Where a task stands one step later: the same place after a push, one place
      nearer after a pop, or the end of the rotation with one task fewer ahead. */
  lemma StepPlace(q: Queue, op: Op, i: nat, j: nat)
    requires WF(q) && (op.PopOp? ==> HasFront(q))
    requires i < |q.rotation| && j < |Sub(q, q.rotation[i])|
    ensures var q' := Step(q, op); var o := q.rotation[i];
      && (op.PushOp? ==> i < |q'.rotation| && q'.rotation[i] == o && j < |Sub(q', o)| && Sub(q', o)[j] == Sub(q, o)[j])
      && (op.PopOp? && i > 0 ==>
        i - 1 < |q'.rotation| && q'.rotation[i - 1] == o && Sub(q', o) == Sub(q, o) && Front(q).vmid != o)
      && (op.PopOp? && i == 0 ==> Front(q) == Sub(q, o)[0] && Front(q).vmid == o)
      && (op.PopOp? && i == 0 && j > 0 ==>
            |q'.rotation| == |q.rotation| && q'.rotation[|q.rotation| - 1] == o && Sub(q', o) == Sub(q, o)[1..])
  {
    assert q.rotation[i] in q.subs && q.rotation[0] in q.subs;
  }

  /** j full rotations of n owners. */
  function Rounds(j: nat, n: nat): nat {
    if j == 0 then 0 else Rounds(j - 1, n) + n
  }

  lemma {:induction false} RoundsIsProduct(j: nat, n: nat)
    ensures Rounds(j, n) == j * n
  {
    if j > 0 {
      RoundsIsProduct(j - 1, n);
      assert j * n == (j - 1) * n + n;
    }
  }

  /** Task t of owner o is the p-th the run pops, after j tasks of o. */
  ghost predicate Seen(q: Queue, ops: seq<Op>, o: nat, t: AsyncTask, j: nat, p: nat) {
    var ts := Popped(q, ops);
    p < |ts| && ts[p] == t && |Of(ts[..p], o)| == j
  }

  lemma SeenLater(q: Queue, ops: seq<Op>, o: nat, t: AsyncTask, j: nat, p: nat)
    requires ops != [] && (ops[0].PopOp? ==> HasFront(q)) && Seen(Step(q, ops[0]), ops[1..], o, t, j, p)
    ensures if ops[0].PushOp? then Seen(q, ops, o, t, j, p)
            else Seen(q, ops, o, t, if Front(q).vmid == o then j + 1 else j, p + 1)
  {
    var tail := Popped(Step(q, ops[0]), ops[1..]);
    if ops[0].PushOp? {
      assert Popped(q, ops) == tail;
    } else {
      assert Popped(q, ops)[..p + 1] == [Front(q)] + tail[..p];
      OfAppend([Front(q)], tail[..p], o);
    }
  }

  /** No starvation: with at most n owners, the task at position j of the owner
      at place i of the rotation is popped as number j * n + i at the latest,
      whatever is pushed meanwhile, and after exactly j tasks of its owner. */
  lemma {:induction false} Latency(q: Queue, ops: seq<Op>, n: nat, i: nat, j: nat) returns (p: nat)
    requires WF(q) && NoPanic(q, ops) && AtMost(q, ops, n)
    requires i < |q.rotation| && j < |Sub(q, q.rotation[i])| && Pops(ops) > Rounds(j, n) + i
    ensures p <= Rounds(j, n) + i < Rounds(j + 1, n) && Rounds(j, n) == j * n
    ensures Seen(q, ops, q.rotation[i], Sub(q, q.rotation[i])[j], j, p)
    decreases |ops|, 1
  {
    RoundsIsProduct(j, n);
    if ops[0].PushOp? {
      var o := q.rotation[i];
      StepWF(q, ops[0]);
      StepPlace(q, ops[0], i, j);
      p := Latency(Step(q, ops[0]), ops[1..], n, i, j);
      SeenLater(q, ops, o, Sub(q, o)[j], j, p);
    } else if i > 0 {
      p := LatencyAhead(q, ops, n, i, j);
    } else if j > 0 {
      p := LatencyTurn(q, ops, n, j);
    } else {
      p := 0;
      SeenNow(q, ops);
    }
  }

  /** Another owner is popped: this one is a place nearer. */
  lemma {:induction false} LatencyAhead(q: Queue, ops: seq<Op>, n: nat, i: nat, j: nat) returns (p: nat)
    requires WF(q) && NoPanic(q, ops) && AtMost(q, ops, n) && ops != [] && ops[0].PopOp?
    requires 0 < i < |q.rotation| && j < |Sub(q, q.rotation[i])| && Pops(ops) > Rounds(j, n) + i
    ensures p <= Rounds(j, n) + i
    ensures Seen(q, ops, q.rotation[i], Sub(q, q.rotation[i])[j], j, p)
    decreases |ops|, 0
  {
    var o := q.rotation[i];
    StepWF(q, ops[0]);
    StepPlace(q, ops[0], i, j);
    var p' := Latency(Step(q, ops[0]), ops[1..], n, i - 1, j);
    SeenLater(q, ops, o, Sub(q, o)[j], j, p');
    p := p' + 1;
  }

  /** The owner is at the front with more than this task: it goes to the back. */
  lemma {:induction false} LatencyTurn(q: Queue, ops: seq<Op>, n: nat, j: nat) returns (p: nat)
    requires WF(q) && NoPanic(q, ops) && AtMost(q, ops, n) && ops != [] && ops[0].PopOp?
    requires q.rotation != [] && 0 < j < |Sub(q, q.rotation[0])| && Pops(ops) > Rounds(j, n)
    ensures p <= Rounds(j, n)
    ensures Seen(q, ops, q.rotation[0], Sub(q, q.rotation[0])[j], j, p)
    decreases |ops|, 0
  {
    var o := q.rotation[0];
    StepWF(q, ops[0]);
    StepPlace(q, ops[0], 0, j);
    var p' := Latency(Step(q, ops[0]), ops[1..], n, |q.rotation| - 1, j - 1);
    SeenLater(q, ops, o, Sub(q, o)[j], j - 1, p');
    p := p' + 1;
  }

  lemma SeenNow(q: Queue, ops: seq<Op>)
    requires WF(q) && HasFront(q) && ops != [] && ops[0].PopOp?
    ensures Sub(q, q.rotation[0]) != [] && Seen(q, ops, q.rotation[0], Sub(q, q.rotation[0])[0], 0, 0)
  {
    assert Popped(q, ops)[..0] == [];
  }

  // --------------------------------------------------------------------- removal

  function Only(s: seq<nat>, o: nat): seq<nat> {
    if s == [] then [] else (if s[0] == o then [o] else []) + Only(s[1..], o)
  }

  function Without(s: seq<nat>, o: nat): seq<nat> {
    if s == [] then [] else (if s[0] == o then [] else [s[0]]) + Without(s[1..], o)
  }

  /** `remove` as written: the rotation becomes what `drain_filter` yields, which
      is the removed owner and not the owners that stay. */
  function RemoveAsWritten(q: Queue, o: nat): Queue {
    if o in q.subs && q.len >= |q.subs[o]|
    then Queue(q.len - |q.subs[o]|, q.subs - {o}, Only(q.rotation, o)) else q
  }

  /** `remove` as meant: the owner leaves the rotation. */
  function RemoveAsMeant(q: Queue, o: nat): Queue {
    if o in q.subs && q.len >= |q.subs[o]|
    then Queue(q.len - |q.subs[o]|, q.subs - {o}, Without(q.rotation, o)) else q
  }

  lemma {:induction false} OnlyHolds(s: seq<nat>, o: nat)
    ensures forall p :: p in Only(s, o) <==> p == o && o in s
  {
    if s != [] {
      OnlyHolds(s[1..], o);
      assert s == [s[0]] + s[1..];
    }
  }

  lemma {:induction false} WithoutHolds(s: seq<nat>, o: nat)
    requires Distinct(s)
    ensures Distinct(Without(s, o)) && forall p :: p in Without(s, o) <==> p in s && p != o
  {
    if s != [] {
      Rotated(s);
      WithoutHolds(s[1..], o);
    }
  }

  lemma {:induction false} TotalWithout(subs: map<nat, seq<AsyncTask>>, s: seq<nat>, o: nat)
    requires Distinct(s) && o in subs
    ensures Total(subs, s) == Total(subs - {o}, Without(s, o)) + if o in s then |subs[o]| else 0
  {
    if s != [] {
      Rotated(s);
      TotalWithout(subs, s[1..], o);
      var w := Without(s[1..], o);
      assert Without(s, o) == if s[0] == o then w else [s[0]] + w;
      assert ([s[0]] + w)[1..] == w;
    }
  }

  /** As written, `remove` is sound exactly for owners that have no tasks; for any
      other owner the next `front` or `pop_front` panics, whoever else waits. */
  lemma RemoveSoundIff(q: Queue, o: nat)
    requires WF(q)
    ensures WF(RemoveAsWritten(q, o)) <==> o !in q.subs
    ensures o in q.subs ==> !HasFront(RemoveAsWritten(q, o)) && RemoveAsWritten(q, o).rotation != []
  {
    OnlyHolds(q.rotation, o);
    if o in q.subs {
      TotalWithout(q.subs, q.rotation, o);
      assert o in Only(q.rotation, o) && Only(q.rotation, o)[0] in Only(q.rotation, o);
    }
  }

  /** As meant, it keeps the invariant, the other owners' tasks and their order. */
  lemma {:induction false} RemoveAsMeantOk(q: Queue, o: nat)
    requires WF(q)
    ensures WF(RemoveAsMeant(q, o)) && Sub(RemoveAsMeant(q, o), o) == []
    ensures forall p :: p != o ==> Sub(RemoveAsMeant(q, o), p) == Sub(q, p)
    ensures o in q.subs ==> RemoveAsMeant(q, o).rotation == Without(q.rotation, o)
  {
    WithoutHolds(q.rotation, o);
    if o in q.subs {
      TotalWithout(q.subs, q.rotation, o);
    }
  }

  /** The notifications of the other VMs: what `remove_vm_async_task` means to keep. */
  function NotOf(ts: seq<AsyncTask>, o: nat): seq<AsyncTask> {
    if ts == [] then [] else (if ts[0].vmid == o then [] else [ts[0]]) + NotOf(ts[1..], o)
  }

  lemma {:induction false} OfOf(ts: seq<AsyncTask>, o: nat, p: nat)
    ensures Of(Of(ts, o), p) == if p == o then Of(ts, o) else []
  {
    if ts != [] {
      OfOf(ts[1..], o, p);
      if ts[0].vmid == o { OfCons(ts[0], Of(ts[1..], o), p); } else { assert Of(ts, o) == Of(ts[1..], o); }
    }
  }

  lemma {:induction false} OfNotOf(ts: seq<AsyncTask>, o: nat, p: nat)
    ensures Of(NotOf(ts, o), p) == if p == o then [] else Of(ts, p)
    ensures |Of(ts, o)| + |NotOf(ts, o)| == |ts|
  {
    if ts != [] {
      OfNotOf(ts[1..], o, p);
      if ts[0].vmid != o { OfCons(ts[0], NotOf(ts[1..], o), p); } else { assert NotOf(ts, o) == NotOf(ts[1..], o); }
      assert ts[0].vmid != p ==> Of(ts, p) == Of(ts[1..], p);
    }
  }

  /** The list of notifications after `remove_vm_async_task` is what its filter
      yields, the removed VM's notifications: the other VMs keep theirs if and only
      if they have none, and it is what was meant only for the empty list. */
  lemma {:induction false} RemoveNotesIff(ts: seq<AsyncTask>, o: nat)
    ensures (forall p :: p != o ==> Of(Of(ts, o), p) == Of(ts, p)) <==> NotOf(ts, o) == []
    ensures Of(Of(ts, o), o) == Of(ts, o)
    ensures Of(ts, o) == NotOf(ts, o) <==> ts == []
  {
    OfOf(ts, o, o);
    OfNotOf(ts, o, o);
    forall p | p != o ensures Of(Of(ts, o), p) == [] && Of(NotOf(ts, o), p) == Of(ts, p) {
      OfOf(ts, o, p);
      OfNotOf(ts, o, p);
    }
    if NotOf(ts, o) != [] {
      NotOfOther(ts, o);
      assert Of(ts, NotOf(ts, o)[0].vmid) != [];
    }
  }

  lemma {:induction false} NotOfOther(ts: seq<AsyncTask>, o: nat)
    requires NotOf(ts, o) != []
    ensures NotOf(ts, o)[0].vmid != o
  {
    if ts[0].vmid == o { NotOfOther(ts[1..], o); }
  }

  // ---------------------------------------------------------------------- object

  class TaskQueue {
    var len: nat
    var subs: map<nat, seq<AsyncTask>>
    var rotation: seq<nat>

    constructor ()
      ensures State() == EMPTY && WF(State())
    {
      len, subs, rotation := 0, map[], [];
    }

    function State(): Queue
      reads this
    {
      Queue(len, subs, rotation)
    }

    method PushBack(t: AsyncTask)
      requires WF(State())
      modifies this
      ensures WF(State()) && State() == Push(old(State()), t)
    {
      PushWF(State(), t);
      var key := t.vmid;
      if key in subs {
        subs := subs[key := subs[key] + [t]];
      } else {
        subs := subs[key := [t]];
        rotation := rotation + [key];
      }
      len := len + 1;
    }

    /** Pops the front task; fails where the code panics. */
    method PopFront() returns (ok: bool, t: AsyncTask)
      requires WF(State())
      modifies this
      ensures WF(State()) && ok == old(HasFront(State()))
      ensures ok ==> t == old(Front(State())) && State() == Pop(old(State()))
      ensures !ok ==> State() == old(State())
    {
      WFHasFront(State());
      if rotation == [] { return false, AsyncTask(NoneTask, 0, 0, Finish, 0, UsedInfo(0, 0)); }
      assert WF(Pop(State())) by { PopWF(State()); }
      var owner := rotation[0];
      rotation := rotation[1..];
      var queue := subs[owner];
      t := queue[0];
      queue := queue[1..];
      if queue != [] {
        subs := subs[owner := queue];
        rotation := rotation + [owner];
      } else {
        subs := subs - {owner};
      }
      len := len - 1;
      ok := true;
    }

    /** `set_front_io_task_state`, on the queue. */
    method SetFrontTask(t: AsyncTask)
      requires WF(State()) && HasFront(State()) && t.vmid == rotation[0]
      modifies this`subs
      ensures WF(State())
        && State() == old(State()).(subs := old(subs)[rotation[0] := [t] + old(subs)[rotation[0]][1..]])
    {
      ghost var before := subs;
      subs := subs[rotation[0] := [t] + subs[rotation[0]][1..]];
      TotalFrame(before, subs, rotation);
    }

    method IsEmpty() returns (empty: bool)
      requires WF(State())
      ensures empty <==> !HasFront(State())
    {
      WFHasFront(State());
      empty := subs == map[];
    }
  }
}
