/** `access_permission`: the walk over a range that rewrites permissions, with
    its 4 KB, 2 MB and 1 GB strides. */
module AccessPermission {
  import opened Wrappers
  import opened Descriptors
  import opened PageTable
  import opened AddressSpace

  /** The loop from page v up to `end`; pa and size are what it returns so far. */
  function Access(pt: PT, v: nat, end: nat, ap: nat, pa: nat, size: nat): (PT, nat, nat)
    decreases if v < end then end - v else 0
  {
    if v >= end then (pt, pa, size) else
    var i, j, k := v / 512 / 512 % 512, v / 512 % 512, v % 512;
    var l1 := Entry(pt, pt.dir, i);
    if !l1.Valid() then Access(pt, v + 512 * 512, end, ap, pa, size) else
    var l2 := Entry(pt, l1.pa, j);
    if !l2.Valid() then Access(pt, v + 512, end, ap, pa, size)
    else if l2.kind == BLOCK then
      Access(SetPageAp(pt, i, j, k, ap), v + 512, end, ap, l2.pa, size + 0x20_0000)
    else if Entry(pt, l2.pa, k).Valid() then
      Access(SetPageAp(pt, i, j, k, ap), v + 1, end, ap, Entry(pt, l2.pa, k).pa, size + 0x1000)
    else Access(pt, v + 1, end, ap, pa, size)
  }

  ghost predicate Mapped(pt: PT, v: nat, end: nat) {
    forall u :: v <= u < end ==> View(pt, u) != None
  }

  /** Page u is in the range, or shares a 2 MB block with a page that is. */
  predicate Reached(pt: PT, v: nat, end: nat, u: nat) {
    v < end && (v <= u < end || (InBlock(pt, u) && v / 512 <= u / 512 && 512 * (u / 512) < end))
  }

  /** The 2 MB stride keeps in step with the blocks: the range starts on a block's
      edge or outside blocks, or stays within one block, or consists of blocks only
      and ends in its last one no earlier than it starts in its first. */
  ghost predicate InStep(pt: PT, v: nat, end: nat) {
    v < end ==>
      || v % 512 == 0 || !InBlock(pt, v) || end <= 512 * (v / 512) + 512
      || (AllBlocks(pt, v, end) && v % 512 <= (end - 1) % 512)
  }

  ghost predicate AllBlocks(pt: PT, v: nat, end: nat) { forall u :: v <= u < end ==> InBlock(pt, u) }

  /** The leaf that one iteration at page v rewrites. */
  lemma SetApView(pt: PT, slot: map<nat, Slot>, v: nat, ap: nat)
    requires Good(pt, slot) && v < PAGES
    ensures var q := Apply(pt, SetAp(v, ap));
      && Good(q, slot)
      && (forall u :: 0 <= u < PAGES ==> InBlock(q, u) == InBlock(pt, u))
      && (forall u :: 0 <= u < PAGES ==>
            View(q, u) == if u == v || (InBlock(pt, v) && u / 512 == v / 512) then Permitted(View(pt, u), ap)
              else View(pt, u))
  {
    var i, j, k := v / 512 / 512, v / 512 % 512, v % 512;
    var q := Apply(pt, SetAp(v, ap));
    assert Good(q, slot) by { SetApRefines(pt, slot, SetAp(v, ap)); }
    SetPageApOk(pt, slot, i, j, k, ap);
    forall u | 0 <= u < PAGES
      ensures View(q, u) == if u == v || (InBlock(pt, v) && u / 512 == v / 512) then Permitted(View(pt, u), ap)
        else View(pt, u)
      ensures InBlock(q, u) == InBlock(pt, u)
    {
      assert u / 512 != v / 512 ==> SameBelow(pt, q, u / 512 / 512, u / 512 % 512);
    }
  }

  function Stride(pt: PT, v: nat): nat { if InBlock(pt, v) then 512 else 1 }

  /** On a mapped page the loop rewrites the leaf and strides over it. */
  lemma AccessStep(pt: PT, v: nat, end: nat, ap: nat, pa: nat, size: nat) returns (pa': nat, size': nat)
    requires v < end && v < PAGES && View(pt, v) != None
    ensures Access(pt, v, end, ap, pa, size) == Access(Apply(pt, SetAp(v, ap)), v + Stride(pt, v), end, ap, pa', size')
    ensures size' == size + Stride(pt, v) * PAGE_SIZE
    ensures pa' == View(pt, if InBlock(pt, v) then 512 * (v / 512) else v).value.pa
  {
    assert v / 512 / 512 % 512 == v / 512 / 512;
    var i, j, k := v / 512 / 512, v / 512 % 512, v % 512;
    var l2 := Entry(pt, Entry(pt, pt.dir, i).pa, j);
    if l2.kind == BLOCK {
      pa', size' := l2.pa, size + 0x20_0000;
      assert 512 * (v / 512) / 512 == v / 512 && 512 * (v / 512) % 512 == 0;
    } else {
      pa', size' := Entry(pt, l2.pa, k).pa, size + 0x1000;
    }
  }

  ghost predicate Rewritten(pt: PT, q: PT, v: nat, end: nat, ap: nat) {
    forall u :: 0 <= u < PAGES ==>
      View(q, u) == if Reached(pt, v, end, u) then Permitted(View(pt, u), ap) else View(pt, u)
  }

  lemma RewriteStep(pt: PT, p: PT, q: PT, v: nat, end: nat, ap: nat)
    requires v < end <= PAGES && InStep(pt, v, end)
    requires forall u :: 0 <= u < PAGES ==> InBlock(p, u) == InBlock(pt, u)
    requires forall u :: 0 <= u < PAGES ==>
      View(p, u) == if u == v || (InBlock(pt, v) && u / 512 == v / 512) then Permitted(View(pt, u), ap) else View(pt, u)
    requires Rewritten(p, q, v + Stride(pt, v), end, ap)
    ensures Rewritten(pt, q, v, end, ap)
  {
    forall u: nat | u < PAGES
      ensures View(q, u) == if Reached(pt, v, end, u) then Permitted(View(pt, u), ap) else View(pt, u) {
      assert InBlock(p, u) == InBlock(pt, u);
      ReachedStep(pt, p, v, end, u);
    }
  }

  /** A page is reached at the first stop or after it, never both. */
  lemma ReachedStep(pt: PT, p: PT, v: nat, end: nat, u: nat)
    requires v < end <= PAGES && InStep(pt, v, end) && u < PAGES && InBlock(p, u) == InBlock(pt, u)
    ensures var now := u == v || (InBlock(pt, v) && u / 512 == v / 512);
      var later := Reached(p, v + Stride(pt, v), end, u);
      (Reached(pt, v, end, u) <==> now || later) && !(now && later)
  {
    if u / 512 == v / 512 { SameChunk(pt, u, v); }
    if InBlock(pt, v) { StrideStep(v, end, u); }
  }

  lemma StrideStep(v: nat, end: nat, u: nat)
    ensures u / 512 > v / 512 <==> u / 512 >= (v + 512) / 512
    ensures v % 512 <= (end - 1) % 512 && v < end <= v + 512 ==> (end - 1) / 512 == v / 512
    ensures 512 * (u / 512) < end && end > 0 ==> u / 512 <= (end - 1) / 512
  {
  }

  /** Over a mapped range with which the walk keeps in step,
      exactly the leaves the range touches get the new permission; addresses,
      other attributes and all other pages stay. */
  lemma {:induction false} AccessCovers(pt: PT, slot: map<nat, Slot>, v: nat, end: nat, ap: nat, pa: nat, size: nat)
    requires Good(pt, slot) && end <= PAGES && Mapped(pt, v, end) && InStep(pt, v, end)
    ensures Good(Access(pt, v, end, ap, pa, size).0, slot)
    ensures Rewritten(pt, Access(pt, v, end, ap, pa, size).0, v, end, ap)
    ensures forall u :: 0 <= u < PAGES ==> InBlock(Access(pt, v, end, ap, pa, size).0, u) == InBlock(pt, u)
    decreases if v < end then end - v else 0
  {
    if v < end {
      assert View(pt, v) != None;
      var pa', size' := AccessStep(pt, v, end, ap, pa, size);
      var p := Apply(pt, SetAp(v, ap));
      var w := v + Stride(pt, v);
      SetApView(pt, slot, v, ap);
      NextStart(pt, p, v, end);
      forall u | w <= u < end ensures View(p, u) != None {
        assert View(pt, u) != None;
      }
      AccessCovers(p, slot, w, end, ap, pa', size');
      RewriteStep(pt, p, Access(p, w, end, ap, pa', size').0, v, end, ap);
    }
  }

  lemma NextStart(pt: PT, p: PT, v: nat, end: nat)
    requires v < end <= PAGES && InStep(pt, v, end)
    requires forall u :: 0 <= u < PAGES ==> InBlock(p, u) == InBlock(pt, u)
    ensures InStep(p, v + Stride(pt, v), end)
  {
    if !InBlock(pt, v) && v + 1 < end && (v + 1) % 512 != 0 {
      assert (v + 1) / 512 == v / 512;
    }
    if InBlock(pt, v) && AllBlocks(pt, v, end) { assert AllBlocks(p, v + 512, end); }
  }

  /** What the write-fault path relies on: one page in, its leaf's address and
      size out. */
  lemma AccessOne(pt: PT, slot: map<nat, Slot>, v: nat, ap: nat)
    requires Good(pt, slot) && v < PAGES && View(pt, v) != None
    ensures Access(pt, v, v + 1, ap, 0, 0) ==
      (Apply(pt, SetAp(v, ap)), View(pt, if InBlock(pt, v) then 512 * (v / 512) else v).value.pa,
        Stride(pt, v) * PAGE_SIZE)
  {
    var _, _ := AccessStep(pt, v, v + 1, ap, 0, 0);
  }

  /** Pages behind the loop are never touched again, except through a block. */
  lemma {:induction false} AccessBehind(pt: PT, slot: map<nat, Slot>, v: nat, end: nat, ap: nat, pa: nat, size: nat,
      u: nat)
    requires Good(pt, slot) && end <= PAGES && u < PAGES && u < v && !InBlock(pt, u)
    ensures View(Access(pt, v, end, ap, pa, size).0, u) == View(pt, u)
    decreases if v < end then end - v else 0
  {
    if v < end {
      if View(pt, v) != None {
        var pa', size' := AccessStep(pt, v, end, ap, pa, size);
        SetApView(pt, slot, v, ap);
        assert u / 512 == v / 512 ==> InBlock(pt, u) == InBlock(pt, v);
        AccessBehind(Apply(pt, SetAp(v, ap)), slot, v + Stride(pt, v), end, ap, pa', size', u);
      } else {
        var w := SkipStep(pt, v, end, ap, pa, size);
        AccessBehind(pt, slot, w, end, ap, pa, size, u);
      }
    }
  }

  lemma SkipStep(pt: PT, v: nat, end: nat, ap: nat, pa: nat, size: nat) returns (w: nat)
    requires v < end && v < PAGES && View(pt, v) == None
    ensures w > v && Access(pt, v, end, ap, pa, size) == Access(pt, w, end, ap, pa, size)
  {
    assert v / 512 / 512 % 512 == v / 512 / 512;
    var l1 := Entry(pt, pt.dir, v / 512 / 512);
    w := if !l1.Valid() then v + 512 * 512 else if !Entry(pt, l1.pa, v / 512 % 512).Valid() then v + 512 else v + 1;
  }

  /** Out of step, the walk leaves a page of the range as it was. */
  lemma {:induction false} AccessMisses(pt: PT, slot: map<nat, Slot>, v: nat, end: nat, ap: nat, pa: nat, size: nat)
      returns (u: nat)
    requires Good(pt, slot) && end <= PAGES && Mapped(pt, v, end) && !InStep(pt, v, end)
    ensures v <= u < end && View(Access(pt, v, end, ap, pa, size).0, u) == View(pt, u)
    decreases end - v
  {
    var p, edge := Apply(pt, SetAp(v, ap)), 512 * (v / 512) + 512;
    BlockIsMapped(pt, v);
    var pa', size' := AccessStep(pt, v, end, ap, pa, size);
    SetApView(pt, slot, v, ap);
    assert edge / 512 == v / 512 + 1;
    if !InBlock(pt, edge) {
      u := edge;
      AccessBehind(p, slot, v + 512, end, ap, pa', size', u);
    } else if v + 512 >= end {
      u := edge;
    } else {
      StaysOut(pt, p, v, end);
      u := AccessMisses(p, slot, v + 512, end, ap, pa', size');
    }
  }

  lemma StaysOut(pt: PT, p: PT, v: nat, end: nat)
    requires v + 512 < end <= PAGES && !InStep(pt, v, end) && InBlock(pt, 512 * (v / 512) + 512)
    requires forall u :: 0 <= u < PAGES ==> InBlock(p, u) == InBlock(pt, u)
    ensures !InStep(p, v + 512, end)
  {
    var w := v + 512;
    assert w / 512 == v / 512 + 1 && w % 512 == v % 512;
    SameChunk(pt, 512 * (v / 512) + 512, w);
    if !AllBlocks(pt, v, end) {
      var x :| v <= x < end && !InBlock(pt, x);
      assert x / 512 != v / 512 && x / 512 != w / 512;
      assert !InBlock(p, x);
    }
  }

  lemma SameChunk(pt: PT, u: nat, w: nat)
    requires u / 512 == w / 512
    ensures InBlock(pt, u) == InBlock(pt, w)
  {
  }

  /** Where no page of a mapped range has the permission yet, every one gets it if
      and only if the walk keeps in step with the blocks. */
  lemma {:induction false} AccessIff(pt: PT, slot: map<nat, Slot>, v: nat, end: nat, ap: nat)
    requires Good(pt, slot) && end <= PAGES && Mapped(pt, v, end)
    requires forall u :: v <= u < end ==> Permitted(View(pt, u), ap) != View(pt, u)
    ensures InStep(pt, v, end) <==>
      forall u :: v <= u < end ==> View(Access(pt, v, end, ap, 0, 0).0, u) == Permitted(View(pt, u), ap)
  {
    if InStep(pt, v, end) {
      AccessCovers(pt, slot, v, end, ap, 0, 0);
    } else {
      var u := AccessMisses(pt, slot, v, end, ap, 0, 0);
      assert Permitted(View(pt, u), ap) != View(pt, u);
    }
  }

  lemma BlockIsMapped(pt: PT, v: nat)
    requires InBlock(pt, v)
    ensures View(pt, v) != None
  {
  }
}
