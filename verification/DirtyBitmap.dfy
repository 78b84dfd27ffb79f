/** The dirty bitmap of a guest and the numbering of its pages: the bitmap as
    64-bit words updated in place, and the two code paths that turn a physical
    address into a bit. */
module DirtyBitmap {
  import opened Wrappers

  /** A machine word as its 64 bits. */
  type Word = w: seq<bool> | |w| == 64 witness seq(64, _ => false)

  function AllBits(b: bool): Word { seq(64, _ => b) }

  function Ones(bits: seq<bool>): nat {
    if bits == [] then 0 else Ones(bits[..|bits| - 1]) + if bits[|bits| - 1] then 1 else 0
  }

  /** The words one after the other. */
  function Flat(words: seq<Word>): (r: seq<bool>)
    ensures |r| == 64 * |words|
  {
    if words == [] then [] else Flat(words[..|words| - 1]) + words[|words| - 1]
  }

  lemma {:induction false} FlatAt(words: seq<Word>, i: nat)
    requires i < 64 * |words|
    ensures Flat(words)[i] == words[i / 64][i % 64]
  {
    var n := |words| - 1;
    if i < 64 * n {
      FlatAt(words[..n], i);
    } else {
      assert i / 64 == n && i % 64 == i - 64 * n;
    }
  }

  lemma {:induction false} OnesSplit(a: seq<bool>, b: seq<bool>)
    ensures Ones(a + b) == Ones(a) + Ones(b)
  {
    if b == [] {
      assert a + b == a;
    } else {
      assert (a + b)[..|a + b| - 1] == a + b[..|b| - 1];
      OnesSplit(a, b[..|b| - 1]);
    }
  }

  /** Adding up ones counts the set bits. */
  lemma {:induction false} OnesCount(bits: seq<bool>)
    ensures Ones(bits) == |set i: nat | i < |bits| && bits[i]|
  {
    if bits != [] {
      var n := |bits| - 1;
      OnesCount(bits[..n]);
      var before, all := set i: nat | i < n && bits[..n][i], set i: nat | i < |bits| && bits[i];
      assert all == if bits[n] then before + {n} else before;
    }
  }

  /** A word-aligned range holds a bit exactly if it holds the bit's word. */
  lemma WordAligned(lo: nat, hi: nat, j: nat)
    requires lo % 64 == 0 && hi % 64 == 0
    ensures lo <= j < hi <==> lo <= 64 * (j / 64) < hi
  {
  }

  lemma WordRun(i: nat, n: nat)
    ensures i % 64 == 0 && (i + n) % 64 == 0 <==> i % 64 == 0 && n % 64 == 0
  {
  }

  class FlexBitmap {
    const len: nat
    var words: seq<Word>

    ghost predicate Valid()
      reads this
    {
      |words| == (len + 63) / 64
    }

    ghost function Bits(): seq<bool>
      reads this
    {
      Flat(words)
    }

    constructor (len: nat)
      ensures Valid() && this.len == len && forall i :: 0 <= i < 64 * |words| ==> !Bits()[i]
    {
      this.len := len;
      words := seq((len + 63) / 64, _ => AllBits(false));
      new;
      forall i | 0 <= i < 64 * |words| ensures !Bits()[i] { FlatAt(words, i); }
    }

    /** `init_dirty` (b true) and `clear` (b false). */
    method Fill(b: bool)
      requires Valid()
      modifies this
      ensures Valid() && |words| == |old(words)| && forall i :: 0 <= i < 64 * |words| ==> Bits()[i] == b
    {
      for k := 0 to |words|
        invariant |words| == |old(words)|
        invariant forall j :: 0 <= j < k ==> words[j] == AllBits(b)
      {
        words := words[k := AllBits(b)];
      }
      forall i | 0 <= i < 64 * |words| ensures Bits()[i] == b { FlatAt(words, i); }
    }

    /** `get`: fails where the code panics, which is not at len itself but past it
        or past the last word. */
    method Get(i: nat) returns (ok: bool, b: bool)
      requires Valid()
      ensures ok <==> i <= len && i < 64 * |words|
      ensures ok ==> b == Bits()[i]
    {
      ok, b := i <= len && i / 64 < |words|, false;
      if ok {
        FlatAt(words, i);
        b := words[i / 64][i % 64];
      }
    }

    method Set(i: nat, b: bool) returns (ok: bool)
      requires Valid()
      modifies this
      ensures Valid() && (ok <==> i <= len && i < 64 * |words|)
      ensures ok ==> Bits() == old(Bits())[i := b]
      ensures !ok ==> words == old(words)
    {
      ok := i <= len && i / 64 < |words|;
      if ok {
        ghost var before := words;
        words := words[i / 64 := words[i / 64][i % 64 := b]];
        forall j | 0 <= j < 64 * |words| ensures Bits()[j] == old(Bits())[i := b][j] {
          FlatAt(words, j);
          FlatAt(before, j);
        }
        assert Bits() == old(Bits())[i := b];
      }
    }

    /** `set_bits`: one bit, or a run of whole words. */
    method SetBits(i: nat, n: nat, b: bool) returns (ok: bool)
      requires Valid()
      modifies this
      ensures Valid() && |words| == |old(words)|
      ensures ok <==> i + n <= len && (if n == 1 then i < 64 * |words| else i % 64 == 0 && (i + n) % 64 == 0)
      ensures forall j :: 0 <= j < 64 * |words| ==> Bits()[j] == if ok && i <= j < i + n then b else old(Bits())[j]
    {
      if i + n > len { return false; }
      if n == 1 {
        ok := Set(i, b);
        return;
      }
      if i % 64 != 0 || (i + n) % 64 != 0 { return false; }
      ghost var before := words;
      var head := i;
      while head < i + n
        invariant i <= head <= i + n && head % 64 == 0
        invariant |words| == |before|
        invariant forall k :: 0 <= k < |words| ==> words[k] == if i <= 64 * k < head then AllBits(b) else before[k]
      {
        words := words[head / 64 := AllBits(b)];
        head := head + 64;
      }
      forall j | 0 <= j < 64 * |words| ensures Bits()[j] == if i <= j < i + n then b else old(Bits())[j] {
        FlatAt(words, j);
        FlatAt(before, j);
        WordAligned(i, i + n, j);
      }
      ok := true;
    }

    /** `sum`: how many bits are set, also counting those past len in the last word. */
    method Sum() returns (s: nat)
      requires Valid()
      ensures s == |set i: nat | i < |Bits()| && Bits()[i]|
    {
      s := 0;
      for k := 0 to |words|
        invariant s == Ones(Flat(words[..k]))
      {
        assert words[..k + 1][..k] == words[..k];
        OnesSplit(Flat(words[..k]), words[k]);
        s := s + Ones(words[k]);
      }
      assert words[..|words|] == words;
      OnesCount(Bits());
    }
  }

  // -------------------------------------------------------------- page numbering

  const PAGE_SIZE := 4096

  /** A region of a guest's memory: where it starts, how long it is, and how far
      from there the guest sees it. */
  datatype Region = Region(start: nat, length: nat, offset: int)

  predicate Holds(r: Region, pa: nat) { r.start <= pa < r.start + r.length }

  predicate Inside(rs: seq<Region>, pa: nat) { exists k :: 0 <= k < |rs| && Holds(rs[k], pa) }

  /** Pages in the first i regions. */
  function PagesBefore(rs: seq<Region>, i: nat): nat
    requires i <= |rs|
  {
    if i == 0 then 0 else PagesBefore(rs, i - 1) + rs[i - 1].length / PAGE_SIZE
  }

  /** Region i is the first that holds pa. */
  ghost predicate InRegion(rs: seq<Region>, i: nat, pa: nat) {
    i < |rs| && Holds(rs[i], pa) && forall k :: 0 <= k < i ==> !Holds(rs[k], pa)
  }

  /** Bit b stands for the page of pa. */
  ghost predicate Numbers(rs: seq<Region>, pa: nat, b: nat) {
    exists i: nat :: InRegion(rs, i, pa) && b == PagesBefore(rs, i) + (pa - rs[i].start) / PAGE_SIZE
  }

  /** The loop of the write-fault handler; fails where it panics. */
  method FaultBit(rs: seq<Region>, pa: nat) returns (r: Option<nat>)
    ensures r.Some? ==> Numbers(rs, pa, r.value)
    ensures r.None? <==> !Inside(rs, pa)
  {
    var bit := 0;
    for i := 0 to |rs|
      invariant bit == PagesBefore(rs, i)
      invariant forall k :: 0 <= k < i ==> !Holds(rs[k], pa)
    {
      var start := rs[i].start;
      var end := start + rs[i].length;
      if pa >= start && pa < end {
        assert InRegion(rs, i, pa);
        return Some(bit + (pa - start) / PAGE_SIZE);
      }
      bit := bit + rs[i].length / PAGE_SIZE;
    }
    return None;
  }

  predicate Aligned(rs: seq<Region>) {
    forall k :: 0 <= k < |rs| ==> rs[k].start % PAGE_SIZE == 0 && rs[k].length % PAGE_SIZE == 0
  }

  /** The bitmap of a guest: regions of whole pages, a bit for each page. */
  predicate SizedFor(rs: seq<Region>, len: nat) { Aligned(rs) && len == PagesBefore(rs, |rs|) }

  lemma {:induction false} NumberSmall(rs: seq<Region>, pa: nat, b: nat)
    requires Aligned(rs) && Numbers(rs, pa, b)
    ensures b < PagesBefore(rs, |rs|)
  {
    NumberingInjective(rs, pa, b, pa, b);
  }

  /** The loop of `vm_if_set_mem_map_bit`, with the bit it sets. */
  method DeviceMark(rs: seq<Region>, pa: nat, map_: FlexBitmap) returns (ok: bool, ghost bit: nat)
    requires map_.Valid()
    modifies map_
    ensures map_.Valid()
    ensures ok ==> Numbers(rs, pa, bit) && bit < |old(map_.Bits())| && map_.Bits() == old(map_.Bits())[bit := true]
    ensures !ok ==> map_.words == old(map_.words)
    ensures SizedFor(rs, map_.len) ==> (ok <==> Inside(rs, pa))
    ensures !Inside(rs, pa) ==> !ok
  {
    bit := 0;
    var b := 0;
    for i := 0 to |rs|
      invariant b == PagesBefore(rs, i) && map_.Valid() && map_.words == old(map_.words)
      invariant forall k :: 0 <= k < i ==> !Holds(rs[k], pa)
    {
      if pa >= rs[i].start && pa < rs[i].start + rs[i].length {
        b := b + (pa - rs[i].start) / PAGE_SIZE;
        assert InRegion(rs, i, pa);
        bit := b;
        if SizedFor(rs, map_.len) { NumberSmall(rs, pa, b); }
        ok := map_.Set(b, true);
        return;
      }
      b := b + rs[i].length / PAGE_SIZE;
    }
    ok := false;
  }

  lemma {:induction false} PagesBeforeGrows(rs: seq<Region>, i: nat, j: nat)
    requires i <= j <= |rs|
    ensures PagesBefore(rs, i) <= PagesBefore(rs, j)
  {
    if i < j { PagesBeforeGrows(rs, i, j - 1); }
  }

  lemma BitInRegion(rs: seq<Region>, i: nat, pa: nat)
    requires Aligned(rs) && i < |rs| && Holds(rs[i], pa)
    ensures PagesBefore(rs, i) <= PagesBefore(rs, i) + (pa - rs[i].start) / PAGE_SIZE < PagesBefore(rs, i + 1)
  {
    var l := rs[i].length;
    assert l == l / PAGE_SIZE * PAGE_SIZE;
  }

  lemma {:induction false} RegionsOrdered(rs: seq<Region>, pa: nat, i: nat, pa': nat, i': nat)
    requires Aligned(rs) && i < i' < |rs| && Holds(rs[i], pa) && Holds(rs[i'], pa')
    ensures PagesBefore(rs, i) + (pa - rs[i].start) / PAGE_SIZE < PagesBefore(rs, i') + (pa' - rs[i'].start) / PAGE_SIZE
  {
    BitInRegion(rs, i, pa);
    BitInRegion(rs, i', pa');
    PagesBeforeGrows(rs, i + 1, i');
  }

  lemma {:induction false} NumbersDiffer(rs: seq<Region>, i: nat, pa: nat, i': nat, pa': nat)
    requires Aligned(rs) && InRegion(rs, i, pa) && InRegion(rs, i', pa')
    ensures PagesBefore(rs, i) + (pa - rs[i].start) / PAGE_SIZE
      == PagesBefore(rs, i') + (pa' - rs[i'].start) / PAGE_SIZE
      <==> pa / PAGE_SIZE == pa' / PAGE_SIZE
  {
    if i < i' {
      RegionsOrdered(rs, pa, i, pa', i');
      DifferentPages(rs[i], pa, pa');
    } else if i' < i {
      RegionsOrdered(rs, pa', i', pa, i);
      DifferentPages(rs[i'], pa', pa);
    } else {
      SamePage(rs[i], pa, pa');
    }
  }

  /** The numbering gives each page one number, below the number of pages, and no
      two pages the same: the fault path and the device path agree on it. */
  lemma {:induction false} NumberingInjective(rs: seq<Region>, pa: nat, b: nat, pa': nat, b': nat)
    requires Aligned(rs) && Numbers(rs, pa, b) && Numbers(rs, pa', b')
    ensures b < PagesBefore(rs, |rs|)
    ensures b == b' <==> pa / PAGE_SIZE == pa' / PAGE_SIZE
  {
    var i: nat :| InRegion(rs, i, pa) && b == PagesBefore(rs, i) + (pa - rs[i].start) / PAGE_SIZE;
    var i': nat :| InRegion(rs, i', pa') && b' == PagesBefore(rs, i') + (pa' - rs[i'].start) / PAGE_SIZE;
    BitInRegion(rs, i, pa);
    PagesBeforeGrows(rs, i + 1, |rs|);
    NumbersDiffer(rs, i, pa, i', pa');
  }

  lemma SamePage(r: Region, pa: nat, pa': nat)
    requires r.start % PAGE_SIZE == 0 && Holds(r, pa) && Holds(r, pa')
    ensures (pa - r.start) / PAGE_SIZE == (pa' - r.start) / PAGE_SIZE <==> pa / PAGE_SIZE == pa' / PAGE_SIZE
  {
  }

  /** An address outside an aligned region is on a page outside it. */
  lemma DifferentPages(r: Region, pa: nat, pa': nat)
    requires r.start % PAGE_SIZE == 0 && r.length % PAGE_SIZE == 0 && Holds(r, pa) && !Holds(r, pa')
    ensures pa / PAGE_SIZE != pa' / PAGE_SIZE
  {
  }

  // ---------------------------------------------------------- the snapshot's frame

  /** `vm_if_mem_map_page_num`: the frames that the manager's copy of a bitmap of this
      many words gets, rounded down. */
  function CopyFrames(words: nat): nat { 8 * words / PAGE_SIZE }

  /** How many bits of the bitmap those frames hold. */
  function CopyBits(words: nat): nat { 8 * PAGE_SIZE * CopyFrames(words) }

  /** The copy holds the whole bitmap exactly when its words fill whole frames, which
      is when the guest's memory, rounded up to whole words, is a multiple of 128 MB. */
  lemma SnapshotFitsIff(m: FlexBitmap)
    requires m.Valid()
    ensures |m.Bits()| <= CopyBits(|m.words|) <==> (m.len + 63) % 0x8000 < 64
  {
    WordsFill(m.len + 63);
  }

  lemma WordsFill(x: nat)
    ensures 64 * (x / 64) <= CopyBits(x / 64) <==> x % 0x8000 < 64
  {
    var w := x / 64;
    assert x / 0x8000 == w / 512 && x % 0x8000 == 64 * (w % 512) + x % 64;
    assert CopyFrames(w) == w / 512;
  }
}
