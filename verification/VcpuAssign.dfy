/** Handing a VM's vCPUs to the cores that call in, in whatever order, and the
    translation of ids and masks that rests on it. A bitmap is the set of its bits. */
module VcpuAssign {
  import opened Wrappers
  import opened Seqs

  /** The configured number of vCPUs, the cores allocated, the master core. */
  datatype Config = Config(num: nat, cores: set<nat>, master: nat)

  /** `VmInner` as far as the assignment goes; `home` is the core of each vCPU that
      has one. */
  datatype State = State(cpuNum: nat, hasMaster: bool, ncpu: set<nat>, home: map<nat, nat>)

  const START := State(0, false, {}, map[])

  /** The vCPU chosen by `select_vcpu2assign` for an allocated core. */
  function Target(cfg: Config, s: State, cpu: nat): int {
    if cpu == cfg.master || (!s.hasMaster && s.cpuNum == cfg.num - 1) then 0
    else if s.hasMaster then cfg.num - s.cpuNum
    else cfg.num - s.cpuNum - 1
  }

  /** A core calls `vmm_cpu_assign_vcpu`. */
  function Call(cfg: Config, s: State, cpu: nat): State {
    if cpu !in cfg.cores || s.cpuNum >= cfg.num then s else
    var v := Target(cfg, s, cpu);
    if v < 0 || v >= cfg.num then s else
    State(s.cpuNum + 1, s.hasMaster || v == 0, s.ncpu + {cpu}, s.home[v := cpu])
  }

  function Calls(cfg: Config, s: State, order: seq<nat>): State
    decreases |order|
  {
    if order == [] then s else Calls(cfg, Call(cfg, s, order[0]), order[1..])
  }

  /** The vCPUs handed out after c calls: from the top down, with 0 kept back until
      it has its core. */
  predicate Given(cfg: Config, s: State, v: nat) {
    if s.hasMaster then v == 0 || cfg.num - s.cpuNum + 1 <= v < cfg.num else cfg.num - s.cpuNum <= v < cfg.num
  }

  /** After the allocated cores `done` have called. */
  ghost predicate Inv(cfg: Config, s: State, done: seq<nat>) {
    && s.cpuNum == |done| <= cfg.num && (s.hasMaster ==> s.cpuNum > 0) && (s.cpuNum == cfg.num > 0 ==> s.hasMaster)
    && (forall c :: c in s.ncpu <==> c in done)
    && (forall v: nat :: v in s.home <==> Given(cfg, s, v))
    && (forall v :: v in s.home ==> s.home[v] in done) && (forall c :: c in done ==> c in s.home.Values)
    && (forall v, w :: v in s.home && w in s.home && v != w ==> s.home[v] != s.home[w])
    && (if cfg.master in done then s.hasMaster && s.home[0] == cfg.master
        else s.hasMaster ==> s.cpuNum == cfg.num && s.home[0] == done[|done| - 1])
  }

  lemma CallInv(cfg: Config, s: State, done: seq<nat>, cpu: nat)
    requires Inv(cfg, s, done) && |done| < cfg.num && cpu in cfg.cores && cpu !in done
    ensures 0 <= Target(cfg, s, cpu) < cfg.num && Target(cfg, s, cpu) !in s.home
    ensures Inv(cfg, Call(cfg, s, cpu), done + [cpu])
  {
    var v := Target(cfg, s, cpu);
    var r := Call(cfg, s, cpu);
    assert !s.hasMaster ==> cfg.master !in done;
    assert !Given(cfg, s, v);
    assert forall w: nat :: Given(cfg, r, w) <==> Given(cfg, s, w) || w == v;
    forall c | c in done + [cpu] ensures c in r.home.Values {
      if c in done {
        var w :| w in s.home && s.home[w] == c;
        assert r.home[w] == c;
      } else {
        assert r.home[v] == c;
      }
    }
  }

  /** The allocated cores among those that call, in order. */
  function Allocated(cfg: Config, order: seq<nat>): seq<nat>
    decreases |order|
  {
    if order == [] then [] else (if order[0] in cfg.cores then [order[0]] else []) + Allocated(cfg, order[1..])
  }

  lemma {:induction false} AllocatedHas(cfg: Config, order: seq<nat>, c: nat)
    ensures c in Allocated(cfg, order) <==> c in order && c in cfg.cores
    decreases |order|
  {
    if order != [] { AllocatedHas(cfg, order[1..], c); }
  }

  lemma {:induction false} AllocatedDistinct(cfg: Config, order: seq<nat>)
    requires Distinct(order)
    ensures Distinct(Allocated(cfg, order))
    decreases |order|
  {
    if order != [] {
      AllocatedDistinct(cfg, order[1..]);
      AllocatedHas(cfg, order[1..], order[0]);
      assert order[0] !in order[1..];
    }
  }

  function Members(s: seq<nat>): set<nat> { set c | c in s }

  lemma {:induction false} DistinctCount(s: seq<nat>)
    requires Distinct(s)
    ensures |Members(s)| == |s|
    decreases |s|
  {
    if s != [] {
      DistinctCount(s[1..]);
      assert s[0] !in s[1..];
      assert Members(s) == Members(s[1..]) + {s[0]};
    }
  }

  lemma {:induction false} CallsInv(cfg: Config, s: State, done: seq<nat>, order: seq<nat>)
    requires Inv(cfg, s, done) && Distinct(order) && |done| + |Allocated(cfg, order)| <= cfg.num
    requires forall c :: c in order ==> c !in done
    ensures Inv(cfg, Calls(cfg, s, order), done + Allocated(cfg, order))
    decreases |order|
  {
    if order == [] {
      Units(done);
    } else {
      var c, rest := order[0], order[1..];
      assert c !in rest;
      if c in cfg.cores {
        CallInv(cfg, s, done, c);
        CallsInv(cfg, Call(cfg, s, c), done + [c], rest);
        Regroup(done, [c], Allocated(cfg, rest));
      } else {
        CallsInv(cfg, s, done, rest);
        Units(Allocated(cfg, rest));
      }
    }
  }

  /** Every vCPU has exactly one allocated core and every allocated core one vCPU. */
  ghost predicate Bijection(cfg: Config, s: State) {
    && s.cpuNum == cfg.num && s.ncpu == cfg.cores
    && (forall v: nat :: v in s.home <==> v < cfg.num)
    && s.home.Values == cfg.cores
    && (forall v, w :: v in s.home && w in s.home && s.home[v] == s.home[w] ==> v == w)
  }

  /** Whatever the order in which the cores call in, each once. */
  lemma {:induction false} AnyOrder(cfg: Config, order: seq<nat>)
    requires 0 < cfg.num == |cfg.cores| && Distinct(order) && forall c :: c in cfg.cores ==> c in order
    ensures Bijection(cfg, Calls(cfg, START, order)) && |Allocated(cfg, order)| == cfg.num
    ensures Calls(cfg, START, order).home[0] == if cfg.master in cfg.cores then cfg.master
      else Allocated(cfg, order)[cfg.num - 1]
  {
    var done, s := Allocated(cfg, order), Calls(cfg, START, order);
    AllCalled(cfg, order);
    assert Inv(cfg, s, done) by {
      CallsInv(cfg, START, [], order);
      assert [] + done == done;
    }
    Finished(cfg, s, done);
  }

  lemma {:induction false} AllCalled(cfg: Config, order: seq<nat>)
    requires cfg.num == |cfg.cores| && Distinct(order) && forall c :: c in cfg.cores ==> c in order
    ensures |Allocated(cfg, order)| == cfg.num && Members(Allocated(cfg, order)) == cfg.cores
  {
    var done := Allocated(cfg, order);
    AllocatedDistinct(cfg, order);
    DistinctCount(done);
    forall c ensures c in Members(done) <==> c in cfg.cores { AllocatedHas(cfg, order, c); }
    assert Members(done) == cfg.cores;
  }

  lemma Finished(cfg: Config, s: State, done: seq<nat>)
    requires Inv(cfg, s, done) && |done| == cfg.num > 0 && Members(done) == cfg.cores
    ensures Bijection(cfg, s) && s.home[0] == if cfg.master in cfg.cores then cfg.master else done[cfg.num - 1]
  {
    AllGiven(cfg, s, done);
    forall c ensures c in s.ncpu <==> c in cfg.cores { assert c in done <==> c in Members(done); }
    assert cfg.master in done <==> cfg.master in Members(done);
  }

  lemma AllGiven(cfg: Config, s: State, done: seq<nat>)
    requires Inv(cfg, s, done) && |done| == cfg.num > 0 && Members(done) == cfg.cores
    ensures s.hasMaster && s.home.Values == cfg.cores && forall v: nat :: v in s.home <==> v < cfg.num
  {
    forall v: nat ensures v in s.home <==> v < cfg.num { assert v in s.home <==> Given(cfg, s, v); }
    forall c ensures c in s.home.Values <==> c in cfg.cores { assert c in done <==> c in Members(done); }
  }

  // ----------------------------------------------------------- ids and masks

  /** `phys_id`: 0 until the vCPU has a core. */
  function PhysId(s: State, v: nat): nat { if v in s.home then s.home[v] else 0 }

  function ToPcpu(s: State, v: nat): Option<nat> { if v < s.cpuNum then Some(PhysId(s, v)) else None }

  /** The first vCPU from v on whose core is p. */
  function ToVcpuFrom(s: State, p: nat, v: nat): (r: Option<nat>)
    ensures r.Some? ==> v <= r.value < s.cpuNum && PhysId(s, r.value) == p
    ensures r.None? ==> forall w :: v <= w < s.cpuNum ==> PhysId(s, w) != p
    decreases s.cpuNum - v
  {
    if v >= s.cpuNum then None else if PhysId(s, v) == p then Some(v) else ToVcpuFrom(s, p, v + 1)
  }

  ghost function PcpuMask(s: State, mask: set<nat>, len: nat): set<nat> {
    set i | i in mask && i < len && i < s.cpuNum :: PhysId(s, i)
  }

  ghost function VcpuMask(s: State, mask: set<nat>, len: nat): set<nat> {
    set i | i in mask && i < len && ToVcpuFrom(s, i, 0).Some? :: ToVcpuFrom(s, i, 0).value
  }

  /** With every vCPU placed, the two translations of an id undo each other. */
  lemma {:induction false} IdsInverse(cfg: Config, s: State, v: nat, p: nat)
    requires Bijection(cfg, s)
    ensures v < cfg.num ==> ToVcpuFrom(s, PhysId(s, v), 0) == Some(v)
    ensures p in cfg.cores <==> ToVcpuFrom(s, p, 0).Some?
  {
    if p in cfg.cores {
      var w :| w in s.home && s.home[w] == p;
      assert PhysId(s, w) == p;
    }
  }

  /** So do the translations of a mask, as far as both lengths reach. */
  lemma {:induction false} MasksInverse(cfg: Config, s: State, mask: set<nat>, len: nat, plen: nat)
    requires Bijection(cfg, s)
    ensures VcpuMask(s, PcpuMask(s, mask, len), plen) == set v | v in mask && v < len && v < cfg.num && s.home[v] < plen
    ensures PcpuMask(s, VcpuMask(s, mask, plen), len) == set p | p in mask && p < plen && ToVcpuFrom(s, p, 0).Some?
      && ToVcpuFrom(s, p, 0).value < len
  {
    var pm, vm := PcpuMask(s, mask, len), VcpuMask(s, mask, plen);
    forall v: nat ensures v in VcpuMask(s, pm, plen) <==> v in mask && v < len && v < cfg.num && s.home[v] < plen {
      if v in VcpuMask(s, pm, plen) {
        var i :| i in pm && i < plen && ToVcpuFrom(s, i, 0) == Some(v);
        var w :| w in mask && w < len && w < s.cpuNum && PhysId(s, w) == i;
        IdsInverse(cfg, s, w, i);
      }
      if v in mask && v < len && v < cfg.num && s.home[v] < plen {
        IdsInverse(cfg, s, v, s.home[v]);
        assert PhysId(s, v) in pm;
      }
    }
    forall p: nat
      ensures p in PcpuMask(s, vm, len)
        <==> p in mask && p < plen && ToVcpuFrom(s, p, 0).Some? && ToVcpuFrom(s, p, 0).value < len {
      IdsInverse(cfg, s, 0, p);
      if p in PcpuMask(s, vm, len) {
        var v :| v in vm && v < len && v < s.cpuNum && PhysId(s, v) == p;
        var i :| i in mask && i < plen && ToVcpuFrom(s, i, 0) == Some(v);
        IdsInverse(cfg, s, v, i);
      }
      if p in mask && p < plen && ToVcpuFrom(s, p, 0).Some? && ToVcpuFrom(s, p, 0).value < len {
        var v := ToVcpuFrom(s, p, 0).value;
        assert v in vm && PhysId(s, v) == p;
      }
    }
  }

  class Vm {
    const cfg: Config
    var s: State
    /** The core `vm_if_set_cpu_id` records for the VM's interface. */
    var masterCore: nat
    var ready: bool

    constructor (cfg: Config)
      ensures this.cfg == cfg && s == START && !ready && Inv(cfg, s, [])
    {
      this.cfg, s, masterCore, ready := cfg, START, 0, false;
    }

    /** `select_vcpu2assign`, with the core recorded in the vCPU. */
    method Select(cpu: nat) returns (v: Option<nat>)
      requires s.hasMaster ==> 0 in s.home && masterCore == s.home[0]
      modifies this`s, this`masterCore
      ensures s == Call(cfg, old(s), cpu)
      ensures v.None? ==> s == old(s) && masterCore == old(masterCore)
      ensures v.Some? <==> cpu in cfg.cores && old(s.cpuNum) < cfg.num && 0 <= Target(cfg, old(s), cpu) < cfg.num
      ensures v.Some? ==> v.value == Target(cfg, old(s), cpu) && s.home[v.value] == cpu
      ensures masterCore == if v == Some(0) then cpu else old(masterCore)
    {
      v := None;
      if cpu in cfg.cores && s.cpuNum < cfg.num {
        var target: int :=
          if cpu == cfg.master || (!s.hasMaster && s.cpuNum == cfg.num - 1) then 0
          else if s.hasMaster then cfg.num - s.cpuNum
          else cfg.num - s.cpuNum - 1;
        if 0 <= target < cfg.num {
          var master := s.hasMaster;
          if target == 0 {
            masterCore := cpu;
            master := true;
          }
          s := State(s.cpuNum + 1, master, s.ncpu + {cpu}, s.home[target := cpu]);
          v := Some(target);
        }
      }
    }

    /** `vmm_cpu_assign_vcpu` on this core; `done` are the allocated cores that have
        called before. An allocated core is always given a vCPU. */
    method Assign(cpu: nat, ghost done: seq<nat>) returns (v: Option<nat>)
      requires Inv(cfg, s, done) && (s.hasMaster ==> masterCore == s.home[0]) && cfg.num == |cfg.cores|
      requires cpu in cfg.cores ==> |done| < cfg.num && cpu !in done
      modifies this
      ensures s == Call(cfg, old(s), cpu) && (v.Some? <==> cpu in cfg.cores)
      ensures v.Some? ==> Inv(cfg, s, done + [cpu]) && v.value !in old(s.home) && s.home == old(s.home)[v.value := cpu]
      ensures v.None? ==> s == old(s)
      ensures (s.hasMaster ==> masterCore == s.home[0]) && ready == (old(ready) || s.cpuNum == cfg.num)
    {
      if cpu in cfg.cores { CallInv(cfg, s, done, cpu); }
      v := Select(cpu);
      if cfg.num == s.cpuNum { ready := true; }
    }

    /** vCPU v answers to core p: it is its own, or v has none yet and p is 0. */
    predicate Answers(v: nat, p: nat)
      reads this
    {
      v < s.cpuNum && if v in s.home then s.home[v] == p else p == 0
    }

    /** `pcpuid_to_vcpuid`: the first vCPU that answers to the core. */
    method PcpuidToVcpuid(p: nat) returns (r: Option<nat>)
      ensures r == ToVcpuFrom(s, p, 0)
      ensures r.Some? ==> Answers(r.value, p) && forall w: nat :: w < r.value ==> !Answers(w, p)
      ensures r.None? ==> forall w: nat :: !Answers(w, p)
    {
      for v := 0 to s.cpuNum
        invariant ToVcpuFrom(s, p, 0) == ToVcpuFrom(s, p, v) && forall w: nat :: w < v ==> !Answers(w, p)
      {
        if PhysId(s, v) == p { return Some(v); }
      }
      r := None;
    }

    /** `vcpu_to_pcpu_mask`: the cores that vCPUs of the mask answer to. */
    method VcpuToPcpuMask(mask: set<nat>, len: nat) returns (pmask: set<nat>)
      ensures pmask == PcpuMask(s, mask, len)
      ensures forall p :: p in pmask <==> exists v: nat :: v in mask && v < len && Answers(v, p)
    {
      pmask := {};
      for i := 0 to len
        invariant pmask == PcpuMask(s, mask, i)
      {
        var shift := ToPcpu(s, i);
        if i in mask && shift.Some? { pmask := pmask + {shift.value}; }
      }
    }

    /** `pcpu_to_vcpu_mask`. */
    method PcpuToVcpuMask(mask: set<nat>, len: nat) returns (pmask: set<nat>)
      ensures pmask == VcpuMask(s, mask, len)
    {
      pmask := {};
      for i := 0 to len
        invariant pmask == VcpuMask(s, mask, i)
      {
        var shift := PcpuidToVcpuid(i);
        if i in mask && shift.Some? { pmask := pmask + {shift.value}; }
      }
    }
  }
}
