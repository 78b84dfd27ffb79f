/** The counting barrier: cores take tickets from a counter that is never reset
    and wait for the next multiple of the number of cores. */
module Barrier {
  import opened Arith

  /** A core's number of arrivals and, while it spins, the count it waits for. */
  datatype Core = Core(arrived: nat, waiting: bool, target: nat)

  datatype Sync = Sync(n: nat, count: nat, cores: seq<Core>)

  datatype Step = Arrive(i: nat) | Leave(i: nat)

  predicate Enabled(s: Sync, a: Step) {
    match a
    case Arrive(i) => i < |s.cores| && !s.cores[i].waiting && s.n > 0
    case Leave(i) => i < |s.cores| && s.cores[i].waiting && s.count >= s.cores[i].target
  }

  function Do(s: Sync, a: Step): Sync
    requires Enabled(s, a)
  {
    match a
    case Arrive(i) =>
      s.(count := s.count + 1, cores := s.cores[i := Core(s.cores[i].arrived + 1, true, RoundUp(s.count + 1, s.n))])
    case Leave(i) => s.(cores := s.cores[i := s.cores[i].(waiting := false)])
  }

  predicate RunEnabled(s: Sync, steps: seq<Step>)
    decreases |steps|
  {
    steps == [] || (Enabled(s, steps[0]) && RunEnabled(Do(s, steps[0]), steps[1..]))
  }

  function Run(s: Sync, steps: seq<Step>): Sync
    requires RunEnabled(s, steps)
    decreases |steps|
  {
    if steps == [] then s else Run(Do(s, steps[0]), steps[1..])
  }

  /** How often a core has got past the barrier. */
  function Crossed(c: Core): nat { if c.waiting && c.arrived > 0 then c.arrived - 1 else c.arrived }

  /** n cores about to use the barrier while the counter stands at count. */
  predicate Start(s: Sync) {
    s.n > 0 && |s.cores| == s.n && forall i :: 0 <= i < s.n ==> s.cores[i] == Core(0, false, 0)
  }

  // ------------------------------------------------------------------- invariant

  function Arrivals(cores: seq<Core>): nat {
    if cores == [] then 0 else Arrivals(cores[..|cores| - 1]) + cores[|cores| - 1].arrived
  }

  ghost predicate CoreOk(c: Core, c0: nat, n: nat, m: nat) {
    || (c.arrived == m && (c.waiting ==> c.target == c0 + m * n))
    || (c.arrived == m + 1 && c.waiting && c.target == c0 + (m + 1) * n)
  }

  /** From a start at count c0: every core has arrived m or m + 1 times, some core
      only m times, and those that are ahead wait for all the others. */
  ghost predicate Inv(s: Sync, c0: nat, m: nat) {
    && s.n > 0 && |s.cores| == s.n
    && (forall i :: 0 <= i < s.n ==> CoreOk(s.cores[i], c0, s.n, m))
    && (exists i :: 0 <= i < s.n && s.cores[i].arrived == m)
    && s.count == c0 + Arrivals(s.cores)
  }

  lemma {:induction false} ArrivalsBounds(cores: seq<Core>, m: nat)
    requires forall i :: 0 <= i < |cores| ==> m <= cores[i].arrived <= m + 1
    ensures |cores| * m <= Arrivals(cores) <= |cores| * (m + 1)
    ensures (exists i :: 0 <= i < |cores| && cores[i].arrived == m) ==> Arrivals(cores) < |cores| * (m + 1)
    ensures (forall i :: 0 <= i < |cores| ==> cores[i].arrived == m + 1) ==> Arrivals(cores) == |cores| * (m + 1)
  {
    if cores == [] {
      assert 0 * (m + 1) == 0;
    } else {
      var front := cores[..|cores| - 1];
      ArrivalsBounds(front, m);
      assert |cores| * m == |front| * m + m;
      assert |cores| * (m + 1) == |front| * (m + 1) + (m + 1);
      if i :| 0 <= i < |cores| && cores[i].arrived == m {
        if i < |front| { assert front[i].arrived == m; }
      }
    }
  }

  lemma {:induction false} ArrivalsUpdate(cores: seq<Core>, i: nat, c: Core)
    requires i < |cores|
    ensures Arrivals(cores[i := c]) == Arrivals(cores) - cores[i].arrived + c.arrived
  {
    var front := cores[..|cores| - 1];
    if i == |front| {
      assert cores[i := c][..|front|] == front;
    } else {
      ArrivalsUpdate(front, i, c);
      assert cores[i := c][..|front|] == front[i := c];
    }
  }

  /** The ticket taken at count c waits for the next multiple of n after c. */
  lemma NextMultiple(c: nat, n: nat)
    requires n > 0
    ensures RoundUp(c + 1, n) == (c / n + 1) * n
  {
    DivMod(c, n);
    assert (c / n + 1) * n == c / n * n + n;
    DivUnique(c + n, n, c / n + 1, c % n);
  }

  lemma CountInRound(s: Sync, c0: nat, m: nat)
    requires Inv(s, c0, m)
    ensures c0 + s.n * m <= s.count < c0 + s.n * (m + 1)
  {
    ArrivalsBounds(s.cores, m);
  }

  lemma TicketOfRound(s: Sync, c0: nat, m: nat)
    requires Inv(s, c0, m) && c0 % s.n == 0
    ensures RoundUp(s.count + 1, s.n) == c0 + (m + 1) * s.n
  {
    CountInRound(s, c0, m);
    NextMultiple(s.count, s.n);
    var q := c0 / s.n;
    DivMod(c0, s.n);
    assert s.n * (m + 1) == m * s.n + s.n;
    assert (q + m) * s.n == c0 + m * s.n;
    DivUnique(s.count, s.n, q + m, s.count - c0 - m * s.n);
    assert (q + m + 1) * s.n == c0 + (m + 1) * s.n;
  }

  lemma ArriveInv(s: Sync, c0: nat, m: nat, i: nat) returns (m': nat)
    requires Inv(s, c0, m) && c0 % s.n == 0 && Enabled(s, Arrive(i))
    ensures m <= m' && Inv(Do(s, Arrive(i)), c0, m')
  {
    TicketOfRound(s, c0, m);
    var s' := Do(s, Arrive(i));
    ArrivalsUpdate(s.cores, i, s'.cores[i]);
    if k :| 0 <= k < s.n && s'.cores[k].arrived == m {
      m' := m;
    } else {
      m' := m + 1;
      assert forall k :: 0 <= k < s.n ==> s'.cores[k].arrived == m + 1;
      assert s'.cores[0].arrived == m';
    }
  }

  lemma LeaveInv(s: Sync, c0: nat, m: nat, i: nat)
    requires Inv(s, c0, m) && Enabled(s, Leave(i))
    ensures Inv(Do(s, Leave(i)), c0, m)
  {
    CountInRound(s, c0, m);
    var s' := Do(s, Leave(i));
    assert s.cores[i].arrived == m;
    ArrivalsUpdate(s.cores, i, s'.cores[i]);
    assert s'.cores[i].arrived == m;
  }

  lemma StepInv(s: Sync, c0: nat, m: nat, a: Step) returns (m': nat)
    requires Inv(s, c0, m) && c0 % s.n == 0 && Enabled(s, a)
    ensures Inv(Do(s, a), c0, m') && Do(s, a).n == s.n
  {
    if a.Arrive? {
      m' := ArriveInv(s, c0, m, a.i);
    } else {
      m' := m;
      LeaveInv(s, c0, m, a.i);
    }
  }

  lemma {:induction false} RunInv(s: Sync, c0: nat, m: nat, steps: seq<Step>) returns (m': nat)
    requires Inv(s, c0, m) && c0 % s.n == 0 && RunEnabled(s, steps)
    ensures Inv(Run(s, steps), c0, m')
    decreases |steps|
  {
    if steps == [] {
      m' := m;
    } else {
      var m1 := StepInv(s, c0, m, steps[0]);
      var s1 := Do(s, steps[0]);
      assert Run(s, steps) == Run(s1, steps[1..]);
      m' := RunInv(s1, c0, m1, steps[1..]);
    }
  }

  lemma {:induction false} NoArrivals(cores: seq<Core>)
    requires forall i :: 0 <= i < |cores| ==> cores[i].arrived == 0
    ensures Arrivals(cores) == 0
  {
    if cores != [] { NoArrivals(cores[..|cores| - 1]); }
  }

  /** In any interleaving that starts with the count at a multiple of n, no core
      is past its k-th crossing before all n cores have arrived k times. */
  lemma {:induction false} BarrierSafe(s: Sync, steps: seq<Step>, i: nat, j: nat)
    requires Start(s) && s.count % s.n == 0 && RunEnabled(s, steps) && i < s.n && j < s.n
    ensures var r := Run(s, steps); |r.cores| == s.n && Crossed(r.cores[i]) <= r.cores[j].arrived
  {
    NoArrivals(s.cores);
    assert s.cores[0].arrived == 0;
    var m := RunInv(s, s.count, 0, steps);
    RunCores(s, steps);
    var r := Run(s, steps);
    assert CoreOk(r.cores[i], s.count, r.n, m) && CoreOk(r.cores[j], s.count, r.n, m);
  }

  lemma {:induction false} RunCores(s: Sync, steps: seq<Step>)
    requires RunEnabled(s, steps)
    ensures Run(s, steps).n == s.n && |Run(s, steps).cores| == |s.cores|
    decreases |steps|
  {
    if steps != [] { RunCores(Do(s, steps[0]), steps[1..]); }
  }

  /** And it never blocks: once all cores have arrived as often as a waiting core,
      that core can leave, and in every reachable state some step is possible. */
  lemma {:induction false} BarrierProgress(s: Sync, steps: seq<Step>, i: nat)
    requires Start(s) && s.count % s.n == 0 && RunEnabled(s, steps) && i < s.n
    ensures var r := Run(s, steps);
      && |r.cores| == s.n
      && (r.cores[i].waiting && (forall j :: 0 <= j < s.n ==> r.cores[j].arrived >= r.cores[i].arrived) ==>
        Enabled(r, Leave(i)))
      && exists a :: Enabled(r, a)
  {
    NoArrivals(s.cores);
    assert s.cores[0].arrived == 0;
    var m := RunInv(s, s.count, 0, steps);
    RunCores(s, steps);
    var r := Run(s, steps);
    CountInRound(r, s.count, m);
    assert CoreOk(r.cores[i], s.count, r.n, m);
    var k :| 0 <= k < r.n && r.cores[k].arrived == m;
    assert CoreOk(r.cores[k], s.count, r.n, m);
    assert m * r.n == r.n * m;
    assert Enabled(r, Arrive(k)) || Enabled(r, Leave(k));
  }

  // ------------------------------------------------- why the multiple is needed

  /** Cores 0 to k - 1 arrive, one after the other. */
  function FirstArrive(k: nat): seq<Step> {
    if k == 0 then [] else FirstArrive(k - 1) + [Arrive(k - 1)]
  }

  lemma {:induction false} RunSnoc(s: Sync, steps: seq<Step>, a: Step)
    requires RunEnabled(s, steps) && Enabled(Run(s, steps), a)
    ensures RunEnabled(s, steps + [a]) && Run(s, steps + [a]) == Do(Run(s, steps), a)
    decreases |steps|
  {
    if steps == [] {
      assert [] + [a] == [a] && [a][1..] == [];
    } else {
      assert (steps + [a])[1..] == steps[1..] + [a];
      RunSnoc(Do(s, steps[0]), steps[1..], a);
    }
  }

  lemma {:induction false} FirstArriveState(s: Sync, k: nat)
    requires Start(s) && k <= s.n
    ensures RunEnabled(s, FirstArrive(k))
    ensures var r := Run(s, FirstArrive(k));
      && r.n == s.n && r.count == s.count + k && |r.cores| == s.n
      && (forall i :: k <= i < s.n ==> r.cores[i] == Core(0, false, 0))
      && (k > 0 ==> r.cores[0] == Core(1, true, RoundUp(s.count + 1, s.n)))
  {
    if k > 0 {
      FirstArriveState(s, k - 1);
      RunSnoc(s, FirstArrive(k - 1), Arrive(k - 1));
    }
  }

  ghost predicate Separates(s: Sync, steps: seq<Step>)
    requires RunEnabled(s, steps)
  {
    var r := Run(s, steps);
    |r.cores| == s.n && forall i, j :: 0 <= i < s.n && 0 <= j < s.n ==> Crossed(r.cores[i]) <= r.cores[j].arrived
  }

  /** The barrier separates its cores exactly when the count is a multiple of n at
      the start: otherwise core 0 gets through before the last core arrives. */
  lemma {:induction false} SafeIffMultiple(s: Sync)
    requires Start(s)
    ensures s.count % s.n == 0 <==> forall steps :: RunEnabled(s, steps) ==> Separates(s, steps)
  {
    if s.count % s.n == 0 {
      forall steps | RunEnabled(s, steps) ensures Separates(s, steps) {
        RunCores(s, steps);
        forall i, j | 0 <= i < s.n && 0 <= j < s.n
          ensures Crossed(Run(s, steps).cores[i]) <= Run(s, steps).cores[j].arrived {
          BarrierSafe(s, steps, i, j);
        }
      }
    } else {
      var steps := EarlyRun(s);
      assert !Separates(s, steps) by {
        var r := Run(s, steps);
        assert Crossed(r.cores[0]) > r.cores[s.n - 1].arrived;
      }
    }
  }

  /** Off a multiple, n - count % n arrivals let core 0 through. */
  lemma {:induction false} FirstMayLeave(s: Sync)
    requires Start(s) && s.count % s.n != 0
    ensures var k := s.n - s.count % s.n;
      0 < k < s.n && RunEnabled(s, FirstArrive(k)) && Enabled(Run(s, FirstArrive(k)), Leave(0))
  {
    var k := s.n - s.count % s.n;
    FirstArriveState(s, k);
    NextMultiple(s.count, s.n);
    DivMod(s.count, s.n);
    assert (s.count / s.n + 1) * s.n == s.count / s.n * s.n + s.n;
  }

  lemma EarlyRun(s: Sync) returns (steps: seq<Step>)
    requires Start(s) && s.count % s.n != 0
    ensures RunEnabled(s, steps)
    ensures var r := Run(s, steps); |r.cores| == s.n && Crossed(r.cores[0]) == 1 && r.cores[s.n - 1].arrived == 0
  {
    var k := s.n - s.count % s.n;
    FirstArriveState(s, k);
    FirstMayLeave(s);
    RunSnoc(s, FirstArrive(k), Leave(0));
    steps := FirstArrive(k) + [Leave(0)];
  }
}
