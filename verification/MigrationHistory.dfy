/** One migration after the other: the barrier's count is never reset, so what a
    migration finds is what the earlier ones left. */
module MigrationHistory {
  import opened Arith
  import opened Barrier
  import opened Migration
  import opened MigrationBarrier

  // ------------------------------------------------------------ what a migration leaves

  /** The count has gone up once for every vCPU that has stopped. */
  ghost predicate Counted(s: Vm, c0: nat) {
    s.sync.count == c0 + Arrivals(s.sync.cores) && forall c :: 0 <= c < |s.sync.cores| ==> s.sync.cores[c].arrived <= 1
  }

  lemma CountedStep(s: Vm, e: Event, c0: nat)
    requires Counted(s, c0) && Migration.Enabled(s, e)
    ensures Counted(Migration.Do(s, e), c0) && |Migration.Do(s, e).sync.cores| == |s.sync.cores|
  {
    var s' := Migration.Do(s, e);
    if e.Halt? { ArrivalsUpdate(s.sync.cores, e.c, s'.sync.cores[e.c]); }
    if e.Pass? { ArrivalsUpdate(s.sync.cores, e.c, s'.sync.cores[e.c]); }
  }

  lemma {:induction false} CountedRun(s: Vm, es: seq<Event>, c0: nat)
    requires Counted(s, c0) && Migration.RunEnabled(s, es)
    ensures Counted(Migration.Run(s, es), c0) && |Migration.Run(s, es).sync.cores| == |s.sync.cores|
    decreases |es|
  {
    if es != [] {
      CountedStep(s, es[0], c0);
      CountedRun(Migration.Do(s, es[0]), es[1..], c0);
    }
  }

  /** All vCPUs have stopped. */
  predicate AllStopped(s: Vm) { forall c :: 0 <= c < |s.sync.cores| ==> s.sync.cores[c].arrived >= 1 }

  /** A migration whose vCPUs have all stopped leaves the count higher by their number,
      whatever the count was. */
  lemma {:induction false} CountAfter(s: Vm, es: seq<Event>)
    requires Migration.Start(s) && Migration.RunEnabled(s, es) && AllStopped(Migration.Run(s, es))
    ensures Migration.Run(s, es).sync.count == s.sync.count + |s.sync.cores|
  {
    NoArrivals(s.sync.cores);
    CountedRun(s, es, s.sync.count);
    ArrivalsBounds(Migration.Run(s, es).sync.cores, 0);
  }

  // ------------------------------------------------------------------ the whole history

  /** A migration: its guest before it, and what happened until all vCPUs stopped. */
  datatype Move = Move(start: Vm, es: seq<Event>)

  predicate Done(m: Move) {
    && Migration.Start(m.start) && |m.start.src| > 0
    && Migration.RunEnabled(m.start, m.es) && AllStopped(Migration.Run(m.start, m.es))
  }

  /** Migrations one after the other since boot, when the count is 0. */
  ghost predicate History(ms: seq<Move>) {
    && (forall k :: 0 <= k < |ms| ==> Done(ms[k]))
    && (ms != [] ==> ms[0].start.sync.count == 0)
    && (forall k {:trigger ms[k].start} :: 0 < k < |ms| ==>
      ms[k].start.sync.count == Migration.Run(ms[k - 1].start, ms[k - 1].es).sync.count)
  }

  function Vcpus(m: Move): nat { |m.start.sync.cores| }

  /** The vCPUs of the first k migrations. */
  function Before(ms: seq<Move>, k: nat): nat
    requires k <= |ms|
  {
    if k == 0 then 0 else Before(ms, k - 1) + Vcpus(ms[k - 1])
  }

  /** The count a migration starts with is the number of vCPUs migrated before. */
  lemma {:induction false} CountAtStart(ms: seq<Move>, k: nat)
    requires History(ms) && k < |ms|
    ensures ms[k].start.sync.count == Before(ms, k)
  {
    if k > 0 {
      CountAtStart(ms, k - 1);
      assert Done(ms[k - 1]);
      CountAfter(ms[k - 1].start, ms[k - 1].es);
    }
  }

  /** Every migration since boot is correct, in every way it can run, if and only if the
      number of its vCPUs divides the number of vCPUs migrated before it. */
  lemma {:induction false} HistoryIff(ms: seq<Move>)
    requires History(ms)
    ensures (forall k :: 0 <= k < |ms| ==> AlwaysCopies(ms[k].start))
       <==> (forall k :: 0 <= k < |ms| ==> Before(ms, k) % Vcpus(ms[k]) == 0)
  {
    forall k | 0 <= k < |ms|
      ensures Vcpus(ms[k]) > 0 && (AlwaysCopies(ms[k].start) <==> Before(ms, k) % Vcpus(ms[k]) == 0)
    {
      assert Done(ms[k]);
      CountAtStart(ms, k);
      MigrationCorrectIff(ms[k].start);
    }
  }

  /** So VMs of one size can be migrated for ever, */
  lemma SameSize(ms: seq<Move>, n: nat)
    requires History(ms) && n > 0 && forall j :: 0 <= j < |ms| ==> Vcpus(ms[j]) == n
    ensures forall k :: 0 <= k < |ms| ==> AlwaysCopies(ms[k].start)
  {
    forall k | 0 <= k < |ms| ensures Before(ms, k) % Vcpus(ms[k]) == 0 {
      MultipleBefore(ms, n, k);
      DivUnique(Before(ms, k), n, k, 0);
    }
    HistoryIff(ms);
  }

  lemma {:induction false} MultipleBefore(ms: seq<Move>, n: nat, k: nat)
    requires k <= |ms| && forall j :: 0 <= j < |ms| ==> Vcpus(ms[j]) == n
    ensures Before(ms, k) == k * n
  {
    if k > 0 {
      MultipleBefore(ms, n, k - 1);
      assert k * n == (k - 1) * n + n;
    }
  }

  /** and a VM with more vCPUs than the first cannot be the second. */
  lemma BiggerSecond(a: Move, b: Move)
    requires History([a, b]) && Vcpus(b) > Vcpus(a)
    ensures !AlwaysCopies(b.start)
  {
    var ms := [a, b];
    assert Done(ms[0]) && Done(ms[1]);
    CountAtStart(ms, 1);
    assert Before(ms, 1) == Before(ms, 0) + Vcpus(ms[0]) == Vcpus(a);
    MigrationCorrectIff(b.start);
  }
}
