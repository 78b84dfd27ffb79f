/** The receiving side of the console: the bytes another VM sends go through the
    target VM's receive buffers, whose pages become dirty first. */
module Console {
  import opened Seqs
  import opened Iov
  import opened DirtyBitmap

  // --------------------------------------------------------------------- dirty pages

  /** The bit of pa's page is set. */
  ghost predicate Dirty(rs: seq<Region>, bits: seq<bool>, pa: nat) {
    exists n: nat :: Numbers(rs, pa, n) && n < |bits| && bits[n]
  }

  ghost predicate AllDirty(rs: seq<Region>, bits: seq<bool>, d: seq<nat>) {
    forall i: nat {:trigger d[i]} :: i < |d| ==> Dirty(rs, bits, d[i])
  }

  ghost predicate Grows(a: seq<bool>, b: seq<bool>) {
    |a| == |b| && forall i :: 0 <= i < |a| && a[i] ==> b[i]
  }

  lemma DirtyGrows(rs: seq<Region>, a: seq<bool>, b: seq<bool>, pa: nat)
    requires Dirty(rs, a, pa) && Grows(a, b)
    ensures Dirty(rs, b, pa)
  {
    var n: nat :| Numbers(rs, pa, n) && n < |a| && a[n];
    assert b[n];
  }

  /** All addresses of a page are in the same region and have the same number. */
  lemma PageNumber(rs: seq<Region>, pa: nat, base: nat, n: nat)
    requires Aligned(rs) && base == pa / PAGE_SIZE * PAGE_SIZE && Numbers(rs, base, n)
    ensures Numbers(rs, pa, n)
  {
    var i: nat :| InRegion(rs, i, base) && n == PagesBefore(rs, i) + (base - rs[i].start) / PAGE_SIZE;
    PageInside(rs[i], pa, base);
    forall k | 0 <= k < i ensures !Holds(rs[k], pa) { PageInside(rs[k], pa, base); }
    assert InRegion(rs, i, pa);
    SamePage(rs[i], pa, base);
  }

  lemma PageInside(r: Region, pa: nat, base: nat)
    requires r.start % PAGE_SIZE == 0 && r.length % PAGE_SIZE == 0 && base == pa / PAGE_SIZE * PAGE_SIZE
    ensures Holds(r, pa) <==> Holds(r, base)
  {
  }

  // ------------------------------------------------------------------ one descriptor

  /** Page p is one of the VM's. */
  predicate Owns(rs: seq<Region>, p: nat) { Inside(rs, p * PAGE_SIZE) }

  /** The pages the marking loop goes through: those of the buffer and, when it ends
      at the end of a page, the page after it. */
  predicate Visits(b: Buf, p: nat) { b.addr / PAGE_SIZE <= p <= (b.addr + b.len) / PAGE_SIZE }

  ghost predicate Markable(rs: seq<Region>, b: Buf) {
    forall p: nat {:trigger Owns(rs, p)} :: Visits(b, p) ==> Owns(rs, p)
  }

  /** Bit j stands for a page the loop goes through. */
  ghost predicate Visited(rs: seq<Region>, b: Buf, j: nat) {
    exists p: nat :: Visits(b, p) && Numbers(rs, p * PAGE_SIZE, j)
  }

  /** When a buffer inside a region can be marked: not if it ends exactly at the end
      of the region, unless another region of the VM starts there. */
  lemma MarkableIff(rs: seq<Region>, k: nat, b: Buf)
    requires Aligned(rs) && k < |rs| && Holds(rs[k], b.addr) && b.addr + b.len <= rs[k].start + rs[k].length
    ensures var end := rs[k].start + rs[k].length;
      Markable(rs, b) <==> b.addr + b.len < end || Inside(rs, end)
  {
    var end := rs[k].start + rs[k].length;
    forall p: nat | Visits(b, p) ensures p * PAGE_SIZE == end || Owns(rs, p) { VisitInside(rs[k], b, p); }
    assert end / PAGE_SIZE * PAGE_SIZE == end;
    assert Visits(b, end / PAGE_SIZE) <==> b.addr + b.len == end by { VisitEnd(rs[k], b); }
    if Markable(rs, b) && b.addr + b.len == end { assert Owns(rs, end / PAGE_SIZE); }
  }

  lemma VisitInside(r: Region, b: Buf, p: nat)
    requires r.start % PAGE_SIZE == 0 && r.length % PAGE_SIZE == 0 && Holds(r, b.addr)
      && b.addr + b.len <= r.start + r.length
    requires Visits(b, p)
    ensures p * PAGE_SIZE == r.start + r.length || Holds(r, p * PAGE_SIZE)
  {
    assert r.start / PAGE_SIZE * PAGE_SIZE == r.start;
    assert (r.start + r.length) / PAGE_SIZE * PAGE_SIZE == r.start + r.length;
  }

  lemma VisitEnd(r: Region, b: Buf)
    requires r.start % PAGE_SIZE == 0 && r.length % PAGE_SIZE == 0 && Holds(r, b.addr)
      && b.addr + b.len <= r.start + r.length
    ensures Visits(b, (r.start + r.length) / PAGE_SIZE) <==> b.addr + b.len == r.start + r.length
  {
  }

  /** The marking loop over one descriptor; fails where the code panics. */
  method MarkPages(rs: seq<Region>, map_: FlexBitmap, b: Buf) returns (ok: bool)
    requires map_.Valid() && SizedFor(rs, map_.len)
    modifies map_
    ensures map_.Valid() && Grows(old(map_.Bits()), map_.Bits())
    ensures ok <==> Markable(rs, b)
    ensures ok ==> AllDirty(rs, map_.Bits(), Range(b.addr, b.len))
    ensures forall j :: 0 <= j < |map_.Bits()| && map_.Bits()[j] && !old(map_.Bits())[j] ==> Visited(rs, b, j)
  {
    ghost var m0 := map_.Bits();
    var page, end := b.addr / PAGE_SIZE, (b.addr + b.len) / PAGE_SIZE;
    while page <= end
      invariant b.addr / PAGE_SIZE <= page <= end + 1 && map_.Valid()
      invariant MarkedUpTo(rs, b, m0, map_.Bits(), page)
    {
      ghost var was, bit := map_.Bits(), 0;
      ok, bit := DeviceMark(rs, page * PAGE_SIZE, map_);
      assert Owns(rs, page) == ok;
      if !ok { return; }
      MarkOne(rs, b, page, bit, m0, was, map_.Bits());
      page := page + 1;
    }
    ok := true;
    BytesDirty(rs, b, m0, map_.Bits());
  }

  /** The pages before `page` are marked, and only pages the loop goes through. */
  ghost predicate MarkedUpTo(rs: seq<Region>, b: Buf, m0: seq<bool>, now: seq<bool>, page: nat) {
    && Grows(m0, now)
    && (forall p: nat {:trigger Owns(rs, p)} :: b.addr / PAGE_SIZE <= p < page ==>
      Owns(rs, p) && Dirty(rs, now, p * PAGE_SIZE))
    && (forall j :: 0 <= j < |now| && now[j] && !m0[j] ==> Visited(rs, b, j))
  }

  lemma BytesDirty(rs: seq<Region>, b: Buf, m0: seq<bool>, now: seq<bool>)
    requires Aligned(rs) && MarkedUpTo(rs, b, m0, now, (b.addr + b.len) / PAGE_SIZE + 1)
    ensures AllDirty(rs, now, Range(b.addr, b.len))
  {
    forall i: nat | i < b.len ensures Dirty(rs, now, Range(b.addr, b.len)[i]) {
      RangeAt(b.addr, b.len, i);
      var pa := b.addr + i;
      assert Owns(rs, pa / PAGE_SIZE);
      ByteDirty(rs, now, pa);
    }
  }

  lemma MarkOne(rs: seq<Region>, b: Buf, page: nat, bit: nat, m0: seq<bool>, was: seq<bool>, now: seq<bool>)
    requires MarkedUpTo(rs, b, m0, was, page) && Owns(rs, page)
    requires Visits(b, page) && Numbers(rs, page * PAGE_SIZE, bit) && bit < |was| && now == was[bit := true]
    ensures MarkedUpTo(rs, b, m0, now, page + 1)
  {
    assert now[bit] && Grows(was, now) && Visited(rs, b, bit);
    forall p: nat | b.addr / PAGE_SIZE <= p < page + 1 ensures Owns(rs, p) && Dirty(rs, now, p * PAGE_SIZE) {
      if p < page { assert Owns(rs, p); DirtyGrows(rs, was, now, p * PAGE_SIZE); }
    }
  }

  lemma ByteDirty(rs: seq<Region>, bits: seq<bool>, pa: nat)
    requires Aligned(rs) && Dirty(rs, bits, pa / PAGE_SIZE * PAGE_SIZE)
    ensures Dirty(rs, bits, pa)
  {
    var n: nat :| Numbers(rs, pa / PAGE_SIZE * PAGE_SIZE, n) && n < |bits| && bits[n];
    PageNumber(rs, pa, pa / PAGE_SIZE * PAGE_SIZE, n);
  }

  // ------------------------------------------------------------------- the whole chain

  /** What becomes of a message: it arrives, it is turned down, or the hypervisor
      panics. */
  datatype Outcome = Arrived | Refused | Panicked

  /** The loop comes to descriptor i: those before it hold too few bytes. */
  predicate Reached(chain: seq<Buf>, len: nat, i: nat)
    requires i < |chain|
  {
    i == 0 || |Addrs(chain[..i])| < len
  }

  /** An address that translates and, but for VM 0, pages that can be marked. */
  ghost predicate Usable(rs: seq<Region>, vmid: nat, b: Buf) { b.addr != 0 && (vmid == 0 || Markable(rs, b)) }

  ghost predicate AllUsable(chain: seq<Buf>, len: nat, rs: seq<Region>, vmid: nat) {
    forall i: nat {:trigger chain[i]} :: i < |chain| && Reached(chain, len, i) ==> Usable(rs, vmid, chain[i])
  }

  /** Descriptor k is the first that is not usable. */
  ghost predicate StopsAt(chain: seq<Buf>, len: nat, rs: seq<Region>, vmid: nat, k: nat) {
    && k < |chain| && Reached(chain, len, k) && !Usable(rs, vmid, chain[k])
    && forall j: nat {:trigger chain[j]} :: j < k ==> Usable(rs, vmid, chain[j])
  }

  lemma AddrsMono(chain: seq<Buf>, k: nat, i: nat)
    requires k <= i <= |chain|
    ensures |Addrs(chain[..k])| <= |Addrs(chain[..i])|
  {
    assert chain[..i] == chain[..k] + chain[k..i];
    AddrsConcat(chain[..k], chain[k..i]);
  }

  lemma NoneBehind(chain: seq<Buf>, len: nat, k: nat, i: nat)
    requires 0 < k <= i < |chain| && |Addrs(chain[..k])| >= len
    ensures !Reached(chain, len, i)
  {
    AddrsMono(chain, k, i);
  }

  /** The gathering loop of `virtio_console_recv`: receive descriptors until they
      hold `len` bytes or the chain ends, each one's pages marked dirty. */
  method Gather(rs: seq<Region>, map_: FlexBitmap, vmid: nat, chain: seq<Buf>, len: nat)
      returns (r: Outcome, k: nat, got: nat)
    requires |chain| > 0 && map_.Valid() && SizedFor(rs, map_.len)
    modifies map_
    ensures map_.Valid() && Grows(old(map_.Bits()), map_.Bits())
    ensures r.Arrived? <==> AllUsable(chain, len, rs, vmid)
    ensures r.Arrived? ==> 0 < k <= |chain| && got == |Addrs(chain[..k])| && (got < len ==> k == |chain|)
    ensures r.Arrived? && vmid != 0 ==> AllDirty(rs, map_.Bits(), Addrs(chain[..k]))
    ensures !r.Arrived? ==> StopsAt(chain, len, rs, vmid, k) && (r.Refused? <==> chain[k].addr == 0)
  {
    k, got := 0, 0;
    while true
      invariant k < |chain| && got == |Addrs(chain[..k])| && (k == 0 || got < len)
      invariant forall j: nat {:trigger chain[j]} :: j < k ==> Usable(rs, vmid, chain[j])
      invariant map_.Valid() && Grows(old(map_.Bits()), map_.Bits())
      invariant vmid != 0 ==> AllDirty(rs, map_.Bits(), Addrs(chain[..k]))
      decreases |chain| - k
    {
      var b := chain[k];
      if b.addr == 0 { return Refused, k, got; }
      ghost var was := map_.Bits();
      if vmid != 0 {
        var ok := MarkPages(rs, map_, b);
        if !ok { return Panicked, k, got; }
      }
      GatherStep(chain, k);
      if vmid != 0 { GatherDirty(rs, chain, k, was, map_.Bits()); }
      got, k := got + b.len, k + 1;
      if got >= len || k == |chain| { break; }
    }
    forall i: nat | i < |chain| && Reached(chain, len, i) ensures Usable(rs, vmid, chain[i]) {
      if i >= k { NoneBehind(chain, len, k, i); }
    }
    r := Arrived;
  }

  lemma GatherStep(chain: seq<Buf>, k: nat)
    requires k < |chain|
    ensures Addrs(chain[..k + 1]) == Addrs(chain[..k]) + Range(chain[k].addr, chain[k].len)
  {
    assert chain[..k + 1] == chain[..k] + [chain[k]];
    AddrsConcat(chain[..k], [chain[k]]);
    Alone(chain[k].addr, chain[k].len);
  }

  lemma GatherDirty(rs: seq<Region>, chain: seq<Buf>, k: nat, was: seq<bool>, now: seq<bool>)
    requires k < |chain| && AllDirty(rs, was, Addrs(chain[..k])) && Grows(was, now)
    requires AllDirty(rs, now, Range(chain[k].addr, chain[k].len))
    ensures AllDirty(rs, now, Addrs(chain[..k + 1]))
  {
    GatherStep(chain, k);
    var d := Addrs(chain[..k]);
    forall i: nat | i < |d| ensures Dirty(rs, now, d[i]) { DirtyGrows(rs, was, now, d[i]); }
  }

  /** The used ring's pages, as the code marks them. */
  predicate RingOwned(rs: seq<Region>, vmid: nat, used: nat) {
    vmid == 0 || (Inside(rs, used) && Inside(rs, used + PAGE_SIZE))
  }

  method MarkRing(rs: seq<Region>, map_: FlexBitmap, vmid: nat, used: nat) returns (ok: bool)
    requires map_.Valid() && SizedFor(rs, map_.len)
    modifies map_
    ensures map_.Valid() && Grows(old(map_.Bits()), map_.Bits())
    ensures ok <==> RingOwned(rs, vmid, used)
    ensures ok && vmid != 0 ==> Dirty(rs, map_.Bits(), used) && Dirty(rs, map_.Bits(), used + PAGE_SIZE)
  {
    if vmid == 0 { return true; }
    ghost var bit;
    ok, bit := DeviceMark(rs, used, map_);
    if !ok { return; }
    assert map_.Bits()[bit];
    ghost var was := map_.Bits();
    ok, bit := DeviceMark(rs, used + PAGE_SIZE, map_);
    if !ok { return; }
    assert map_.Bits()[bit];
    DirtyGrows(rs, was, map_.Bits(), used);
  }

  /** `virtio_console_recv` from the descriptors on.  The message arrives whole, at
      pages that are marked, exactly if every descriptor it needs is usable, they
      hold enough bytes and the used ring's pages are the VM's.  It is turned down,
      or the hypervisor panics, before anything is written; but a panic for the
      used ring comes after. */
  method ConsoleRecv(mem: array<byte>, rs: seq<Region>, map_: FlexBitmap, vmid: nat, used: nat,
      tx: seq<Buf>, chain: seq<Buf>, len: nat) returns (r: Outcome, ghost k: nat)
    requires |tx| > 0 && |chain| > 0 && len == |Addrs(tx)| && map_.Valid() && SizedFor(rs, map_.len)
    requires InMemory(Addrs(chain), mem.Length) && InMemory(Addrs(tx), mem.Length)
    requires NoDup(Addrs(chain)) && Apart(Addrs(chain), Addrs(tx))
    modifies mem, map_
    ensures r.Arrived? <==> AllUsable(chain, len, rs, vmid) && len <= |Addrs(chain)| && RingOwned(rs, vmid, used)
    ensures r.Arrived? && vmid != 0 ==> forall i: nat {:trigger Addrs(chain)[i]} :: i < len ==>
      Dirty(rs, map_.Bits(), Addrs(chain)[i])
    ensures if AllUsable(chain, len, rs, vmid) && len <= |Addrs(chain)|
            then Copied(old(mem[..]), mem[..], Addrs(chain), Addrs(tx), len) && (r.Arrived? || r.Panicked?)
            else mem[..] == old(mem[..])
    ensures !AllUsable(chain, len, rs, vmid) ==>
      StopsAt(chain, len, rs, vmid, k) && (r.Refused? <==> chain[k].addr == 0)
    ensures AllUsable(chain, len, rs, vmid) && |Addrs(chain)| < len ==> r.Refused?
  {
    var got;
    var n;
    r, n, got := Gather(rs, map_, vmid, chain, len);
    k := n;
    if !r.Arrived? { return; }
    Whole(chain, n);
    AddrsConcat(chain[..n], chain[n..]);
    ghost var d, part := Addrs(chain), Addrs(chain[..n]);
    assert forall i: nat {:trigger d[i]} {:trigger part[i]} :: i < |part| ==> part[i] == d[i];
    if got < len {
      assert chain[..n] == chain;
      return Refused, k;
    }
    FrontApart(part, d, Addrs(tx));
    WholeSource(tx, chain[..n]);
    var fine, left := WriteThroughIov(mem, tx, chain[..n], len);
    assert fine && left == 0;
    Longer(old(mem[..]), mem[..], part, d, Addrs(tx), len);
    ghost var was := map_.Bits();
    var marked := MarkRing(rs, map_, vmid, used);
    if !marked { r := Panicked; return; }
    if vmid != 0 { FrontDirty(rs, was, map_.Bits(), part, d, len); }
  }

  lemma FrontDirty(rs: seq<Region>, was: seq<bool>, now: seq<bool>, part: seq<nat>, d: seq<nat>, len: nat)
    requires AllDirty(rs, was, part) && Grows(was, now) && len <= |part| <= |d|
    requires forall i: nat {:trigger d[i]} {:trigger part[i]} :: i < |part| ==> part[i] == d[i]
    ensures forall i: nat {:trigger d[i]} :: i < len ==> Dirty(rs, now, d[i])
  {
    forall i: nat | i < len ensures Dirty(rs, now, d[i]) {
      assert Dirty(rs, was, part[i]);
      DirtyGrows(rs, was, now, part[i]);
    }
  }
}
