/** `PageTable` as the object the hypervisor updates in place, each method proved
    against the functions whose laws the other modules state. */
module Stage2Table {
  import opened Arith
  import opened Descriptors
  import PT = PageTable
  import opened AddressSpace
  import opened Ranges
  import opened AccessPermission

  class Table {
    const directory: nat
    var pages: seq<nat>
    var mem: map<nat, seq<Word>>
    var free: seq<nat>

    /** A zeroed directory, and the heap's free frames. */
    constructor (dir: nat, mem: map<nat, seq<Word>>, free: seq<nat>)
      requires Fresh(PT.PT(dir, [], mem, free))
      ensures State() == PT.PT(dir, [], mem, free) && Valid() && Space(State()) == map[]
    {
      this.directory, this.pages, this.mem, this.free := dir, [], mem, free;
      new;
      FreshGood(State());
    }

    function State(): PT.PT
      reads this
    {
      PT.PT(directory, pages, mem, free)
    }

    function Read(f: nat, x: nat): Word
      reads this
    {
      PT.Entry(State(), f, x)
    }

    method Write(f: nat, x: nat, w: Word)
      modifies this`mem
      ensures State() == PT.Put(old(State()), f, x, w)
    {
      if f in mem && x < |mem[f]| {
        mem := mem[f := mem[f][x := w]];
      }
    }

    /** `mem_page_alloc` followed by the push onto `pages`. */
    method TakeFrame() returns (ok: bool, f: nat)
      modifies this`mem, this`pages, this`free
      ensures ok == (old(free) != [])
      ensures ok ==> f == old(free)[0] && State() == PT.Grab(old(State()))
      ensures !ok ==> State() == old(State())
    {
      ok, f := free != [], 0;
      if ok {
        f := free[0];
        free := free[1..];
        mem := mem[f := PT.Zeros()];
        pages := pages + [f];
      }
    }

    /** `pages.retain(|pf| pf.pa != f)`, which drops the frame. */
    method DropFrame(f: nat)
      modifies this`pages, this`free
      ensures State() == PT.Release(old(State()), f)
    {
      if f in pages { free := free + [f]; }
      var kept, i := [], |pages|;
      while i > 0
        invariant 0 <= i <= |pages|
        invariant pages == old(pages)
        invariant kept == PT.Without(pages[i..], f)
      {
        i := i - 1;
        assert pages[i..] == [pages[i]] + pages[i + 1..];
        if pages[i] != f { kept := [pages[i]] + kept; }
      }
      assert pages[0..] == pages;
      pages := kept;
    }

    method EmptyPage(f: nat) returns (empty: bool)
      ensures empty == PT.Empty(State(), f)
    {
      for x := 0 to PT.ENTRIES
        invariant forall y :: 0 <= y < x ==> PT.Entry(State(), f, y) == ZERO
      {
        if Read(f, x) != ZERO { return false; }
      }
      return true;
    }

    /** Every table is reachable by one path and owned; no table is hollow. */
    ghost predicate Valid()
      reads this
    {
      exists slot :: Good(State(), slot)
    }

    /** The first step of `map` and `map_2mb`. */
    method NeedL2(i: nat) returns (ok: bool, l1: Word)
      requires Valid() && i < PT.ENTRIES
      modifies this`mem, this`pages, this`free
      ensures State() == PT.EnsureL2(old(State()), i)
      ensures l1 == PT.Entry(State(), directory, i) && ok == l1.Valid()
      ensures ok ==> l1.pa in mem && |mem[l1.pa]| == PT.ENTRIES && l1.pa != directory
    {
      ghost var slot :| Good(State(), slot);
      l1 := Read(directory, i);
      assert PT.L1Ok(State(), slot, i, l1);
      ok := true;
      if !l1.Valid() {
        var f;
        ok, f := TakeFrame();
        if ok {
          assert f in old(free);
          l1 := Word(f, 0, TABLE);
          Write(directory, i, l1);
        }
      }
    }

    /** The second step of `map`. */
    method NeedL3(i: nat, j: nat, l1: Word) returns (ok: bool, l2: Word)
      requires i < PT.ENTRIES && j < PT.ENTRIES && l1.Valid() && l1 == PT.Entry(State(), directory, i)
      requires l1.pa in mem && |mem[l1.pa]| == PT.ENTRIES && l1.pa != directory
      requires forall x :: 0 <= x < |free| ==> free[x] != directory && free[x] != l1.pa
      modifies this`mem, this`pages, this`free
      ensures State() == PT.EnsureL3(old(State()), i, j)
      ensures l1 == PT.Entry(State(), directory, i)
      ensures l2 == PT.Entry(State(), l1.pa, j) && ok == l2.Valid()
    {
      l2 := Read(l1.pa, j);
      ok := true;
      if !l2.Valid() {
        var f;
        ok, f := TakeFrame();
        if ok {
          l2 := Word(f, 0, TABLE);
          Write(l1.pa, j, l2);
        }
      }
    }

    method Map(v: nat, pa: nat, attrs: nat)
      requires Valid() && Legal(State(), MapP(v, pa, attrs))
      modifies this`mem, this`pages, this`free
      ensures Valid() && State() == Apply(old(State()), MapP(v, pa, attrs))
    {
      ghost var s0 := State();
      ghost var slot :| Good(s0, slot);
      ghost var slot' := MapPRefines(s0, slot, MapP(v, pa, attrs));
      var i, j, k := v / 512 / 512, v / 512 % 512, v % 512;
      var ok, l1 := NeedL2(i);
      if !ok { return; }
      FreeApart(s0, slot, i);
      var l2;
      ok, l2 := NeedL3(i, j, l1);
      if !ok { return; }
      if !Read(l2.pa, k).Valid() {
        Write(l2.pa, k, Word(pa, attrs, TABLE));
      }
    }

    method Map2Mb(b: nat, pa: nat, attrs: nat)
      requires Valid() && b < BLOCKS
      modifies this`mem, this`pages, this`free
      ensures Valid() && State() == Apply(old(State()), MapB(b, pa, attrs))
    {
      ghost var slot :| Good(State(), slot);
      ghost var slot' := MapBRefines(State(), slot, MapB(b, pa, attrs));
      var ok, l1 := NeedL2(b / 512);
      if ok && !Read(l1.pa, b % 512).Valid() {
        Write(l1.pa, b % 512, Word(pa, attrs, BLOCK));
      }
    }

    /** The level-2 table at i, given back once empty. */
    method Prune(i: nat, l1: Word)
      requires l1 == PT.Entry(State(), directory, i)
      modifies this`mem, this`pages, this`free
      ensures State() == PT.PruneL2(old(State()), i)
    {
      var empty := EmptyPage(l1.pa);
      if empty {
        Write(directory, i, ZERO);
        DropFrame(l1.pa);
      }
    }

    method Unmap(v: nat)
      requires Valid() && Legal(State(), UnmapP(v))
      modifies this`mem, this`pages, this`free
      ensures Valid() && State() == Apply(old(State()), UnmapP(v))
    {
      ghost var s0 := State();
      ghost var slot :| Good(s0, slot);
      ghost var slot' := UnmapPRefines(s0, slot, UnmapP(v));
      var i, j, k := v / 512 / 512, v / 512 % 512, v % 512;
      var l1 := Read(directory, i);
      if !l1.Valid() { return; }
      var l2 := Read(l1.pa, j);
      if !l2.Valid() || !Read(l2.pa, k).Valid() { return; }
      Write(l2.pa, k, ZERO);
      var empty := EmptyPage(l2.pa);
      if empty {
        Write(l1.pa, j, ZERO);
        DropFrame(l2.pa);
        StillThere(s0, slot, i, j, k);
        Prune(i, l1);
      }
    }

    method Unmap2Mb(b: nat)
      requires Valid() && b < BLOCKS
      modifies this`mem, this`pages, this`free
      ensures Valid() && State() == Apply(old(State()), UnmapB(b))
    {
      ghost var s0 := State();
      ghost var slot :| Good(s0, slot);
      ghost var slot' := UnmapBRefines(s0, slot, UnmapB(b));
      var i, j := b / 512, b % 512;
      var l1 := Read(directory, i);
      if l1.Valid() && Read(l1.pa, j).Valid() {
        assert PT.L1Ok(s0, slot, i, l1);
        Write(l1.pa, j, ZERO);
        Prune(i, l1);
      }
    }

    method MapRange4K(v: nat, n: nat, pa: nat, attrs: nat)
      requires Valid() && v + n <= PAGES && NoBlocks(State(), v, n)
      modifies this`mem, this`pages, this`free
      ensures Valid() && State() == Run(old(State()), MapOps(v, n, pa, attrs))
    {
      ghost var s0 := State();
      ghost var slot :| Good(s0, slot);
      for i := 0 to n
        invariant Valid() && State() == Run(s0, MapOps(v, i, pa, attrs))
      {
        ghost var now := State();
        var u, p := v + i, pa + i * PAGE_SIZE;
        NextLegal(s0, slot, v, i, n, pa, attrs);
        assert Run(s0, MapOps(v, i + 1, pa, attrs)) == Apply(now, MapP(u, p, attrs)) by {
          RunSnoc(s0, MapOps(v, i, pa, attrs), MapP(u, p, attrs));
        }
        Map(u, p, attrs);
      }
    }

    method MapRange2Mb(b: nat, n: nat, pa: nat, attrs: nat)
      requires Valid() && b + n <= BLOCKS
      modifies this`mem, this`pages, this`free
      ensures Valid() && State() == Run(old(State()), MapBlockOps(b, n, pa, attrs))
    {
      ghost var s0 := State();
      for i := 0 to n
        invariant Valid() && State() == Run(s0, MapBlockOps(b, i, pa, attrs))
      {
        ghost var now := State();
        var c, p := b + i, pa + i * BLOCK_SIZE;
        assert Run(s0, MapBlockOps(b, i + 1, pa, attrs)) == Apply(now, MapB(c, p, attrs)) by {
          MapBlockSnoc(s0, b, i, pa, attrs);
        }
        Map2Mb(c, p, attrs);
      }
    }

    method UnmapRange4K(v: nat, n: nat)
      requires Valid() && v + n <= PAGES && NoBlocks(State(), v, n)
      modifies this`mem, this`pages, this`free
      ensures Valid() && State() == Run(old(State()), UnmapOps(v, n))
    {
      ghost var s0 := State();
      ghost var slot :| Good(s0, slot);
      for i := 0 to n
        invariant Valid() && State() == Run(s0, UnmapOps(v, i))
      {
        NextUnmapLegal(s0, slot, v, i, n);
        ghost var now := State();
        var u := v + i;
        assert Run(s0, UnmapOps(v, i + 1)) == Apply(now, UnmapP(u)) by {
          RunSnoc(s0, UnmapOps(v, i), UnmapP(u));
        }
        Unmap(u);
      }
    }

    method UnmapRange2Mb(b: nat, n: nat)
      requires Valid() && b + n <= BLOCKS
      modifies this`mem, this`pages, this`free
      ensures Valid() && State() == Run(old(State()), UnmapBlockOps(b, n))
    {
      ghost var s0 := State();
      for i := 0 to n
        invariant Valid() && State() == Run(s0, UnmapBlockOps(b, i))
      {
        ghost var now := State();
        var c := b + i;
        assert Run(s0, UnmapBlockOps(b, i + 1)) == Apply(now, UnmapB(c)) by {
          RunSnoc(s0, UnmapBlockOps(b, i), UnmapB(c));
        }
        Unmap2Mb(c);
      }
    }

    /** `pt_map_range`; 4 KB calls must not land inside a block. */
    method PtMapRange(ipa: nat, len: nat, pa: nat, attrs: nat, block: bool)
      requires Valid() && FirstPage(ipa) + PageCount(len) <= PAGES
      requires !(ipa % BLOCK_SIZE == 0 && len % BLOCK_SIZE == 0 && pa % BLOCK_SIZE == 0 && block) ==>
        NoBlocks(State(), FirstPage(ipa), PageCount(len))
      modifies this`mem, this`pages, this`free
      ensures Valid() && State() == Run(old(State()), MapRangeOps(ipa, len, pa, attrs, block))
    {
      if ipa % BLOCK_SIZE == 0 && len % BLOCK_SIZE == 0 && pa % BLOCK_SIZE == 0 && block {
        AlignedRange(ipa, len);
        MapRange2Mb(ipa / BLOCK_SIZE, RoundUp(len, BLOCK_SIZE) / BLOCK_SIZE, pa, attrs);
      } else {
        MapRange4K(FirstPage(ipa), PageCount(len), pa, attrs);
      }
    }

    method PtUnmapRange(ipa: nat, len: nat, block: bool)
      requires Valid() && FirstPage(ipa) + PageCount(len) <= PAGES
      requires !(ipa % BLOCK_SIZE == 0 && len % BLOCK_SIZE == 0 && block) ==>
        NoBlocks(State(), FirstPage(ipa), PageCount(len))
      modifies this`mem, this`pages, this`free
      ensures Valid() && State() == Run(old(State()), UnmapRangeOps(ipa, len, block))
    {
      if ipa % BLOCK_SIZE == 0 && len % BLOCK_SIZE == 0 && block {
        AlignedRange(ipa, len);
        UnmapRange2Mb(ipa / BLOCK_SIZE, RoundUp(len, BLOCK_SIZE) / BLOCK_SIZE);
      } else {
        UnmapRange4K(FirstPage(ipa), PageCount(len));
      }
    }

    /** `access_permission` over the pages from `start` up to `end`. */
    method SetAccess(start: nat, end: nat, ap: nat) returns (pa: nat, size: nat)
      modifies this`mem
      ensures (State(), pa, size) == Access(old(State()), start, end, ap, 0, 0)
    {
      var v := start;
      pa, size := 0, 0;
      while v < end
        invariant Access(State(), v, end, ap, pa, size) == Access(old(State()), start, end, ap, 0, 0)
        decreases end - v
      {
        var i, j, k := v / 512 / 512 % 512, v / 512 % 512, v % 512;
        var l1 := Read(directory, i);
        if !l1.Valid() {
          v := v + 512 * 512;
          continue;
        }
        var l2 := Read(l1.pa, j);
        if !l2.Valid() {
          v := v + 512;
          continue;
        } else if l2.kind == BLOCK {
          Write(l1.pa, j, l2.(attrs := WithAp(l2.attrs, ap)));
          v, pa, size := v + 512, l2.pa, size + 0x20_0000;
          continue;
        }
        var l3 := Read(l2.pa, k);
        if l3.Valid() {
          Write(l2.pa, k, l3.(attrs := WithAp(l3.attrs, ap)));
          pa, size := l3.pa, size + 0x1000;
        }
        v := v + 1;
      }
    }
  }

  lemma MapBlockSnoc(pt: PT.PT, b: nat, i: nat, pa: nat, attrs: nat)
    ensures Run(pt, MapBlockOps(b, i + 1, pa, attrs))
         == Apply(Run(pt, MapBlockOps(b, i, pa, attrs)), MapB(b + i, pa + i * BLOCK_SIZE, attrs))
  {
    RunSnoc(pt, MapBlockOps(b, i, pa, attrs), MapB(b + i, pa + i * BLOCK_SIZE, attrs));
  }

  /** A table frame in use is not among the free ones. */
  lemma FreeApart(pt: PT.PT, slot: map<nat, PT.Slot>, i: nat)
    requires Good(pt, slot) && i < PT.ENTRIES
    ensures var a := PT.EnsureL2(pt, i); var l1 := PT.Entry(a, a.dir, i);
      l1.Valid() ==> forall x :: 0 <= x < |a.free| ==> a.free[x] != a.dir && a.free[x] != l1.pa
  {
    var slot' := PT.EnsureL2Ok(pt, slot, i);
    var a := PT.EnsureL2(pt, i);
    assert PT.L1Ok(a, slot', i, PT.Entry(a, a.dir, i));
  }

  /** Clearing below the directory leaves its entry in place. */
  lemma StillThere(pt: PT.PT, slot: map<nat, PT.Slot>, i: nat, j: nat, k: nat)
    requires Good(pt, slot) && i < PT.ENTRIES && j < PT.ENTRIES && k < PT.ENTRIES
    requires PT.Entry(pt, pt.dir, i).Valid() && PT.Entry(pt, PT.Entry(pt, pt.dir, i).pa, j).Valid()
      && !PT.HasBlock(pt, i, j)
    ensures var l1 := PT.Entry(pt, pt.dir, i); var l2 := PT.Entry(pt, l1.pa, j);
      PT.Entry(PT.Release(PT.Put(PT.Put(pt, l2.pa, k, ZERO), l1.pa, j, ZERO), l2.pa), pt.dir, i) == l1
  {
    var l1 := PT.Entry(pt, pt.dir, i);
    assert PT.L1Ok(pt, slot, i, l1);
    assert PT.L2Ok(pt, slot, i, j, PT.Entry(pt, l1.pa, j));
  }

  lemma {:induction false} NextLegal(pt: PT.PT, slot: map<nat, PT.Slot>, v: nat, i: nat, n: nat, pa: nat, attrs: nat)
    requires Good(pt, slot) && i < n && v + n <= PAGES && NoBlocks(pt, v, n)
    ensures Legal(Run(pt, MapOps(v, i, pa, attrs)), MapP(v + i, pa + i * PAGE_SIZE, attrs))
  {
    assert NoBlocks(pt, v, i);
    var _ := MapRangeBlocks(pt, slot, v, i, pa, attrs);
    assert !InBlock(pt, v + i);
  }

  lemma {:induction false} NextUnmapLegal(pt: PT.PT, slot: map<nat, PT.Slot>, v: nat, i: nat, n: nat)
    requires Good(pt, slot) && i < n && v + n <= PAGES && NoBlocks(pt, v, n)
    ensures Legal(Run(pt, UnmapOps(v, i)), UnmapP(v + i))
  {
    assert NoBlocks(pt, v, i);
    var _ := UnmapRangeView(pt, slot, v, i);
    assert !InBlock(pt, v + i);
  }
}
