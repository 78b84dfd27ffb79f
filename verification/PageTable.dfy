/** Stage-2 translation tables of a guest: a three-level radix tree in physical
    frames, built on demand by `map`, pruned by `unmap`, with 2 MB blocks at
    level 2.  Frames come from and return to the heap's list of free frames. */
module PageTable {
  import opened Wrappers
  import opened Descriptors
  import opened Seqs

  const ENTRIES := 512

  /** Where a table frame hangs in the tree: below directory entry i, or below
      entry j of the level-2 table at i. */
  datatype Slot = L2At(i: nat) | L3At(i: nat, j: nat)

  /** `dir` is the directory frame, `pages` the frames the table owns, `mem` the
      physical frames as 512 descriptors each, `free` the heap's free frames. */
  datatype PT = PT(dir: nat, pages: seq<nat>, mem: map<nat, seq<Word>>, free: seq<nat>)

  /** What a translation yields for one page: output address and attributes. */
  datatype Leaf = Leaf(pa: nat, attrs: nat)

  function Zeros(): (s: seq<Word>)
    ensures |s| == ENTRIES && forall x :: 0 <= x < ENTRIES ==> s[x] == ZERO
  {
    seq(ENTRIES, _ => ZERO)
  }

  // -------------------------------------------------------------- memory access

  /** Descriptor x of frame f; memory outside the modelled frames reads as zero. */
  function Entry(pt: PT, f: nat, x: nat): Word {
    if f in pt.mem && x < |pt.mem[f]| then pt.mem[f][x] else ZERO
  }

  function Put(pt: PT, f: nat, x: nat, w: Word): PT {
    if f in pt.mem && x < |pt.mem[f]| then pt.(mem := pt.mem[f := pt.mem[f][x := w]]) else pt
  }

  /** Whether all 512 descriptors of frame f are zero. */
  predicate Empty(pt: PT, f: nat) {
    forall x :: 0 <= x < ENTRIES ==> Entry(pt, f, x) == ZERO
  }

  /** Takes the first free frame, zeroed, into `pages`. */
  function Grab(pt: PT): PT
    requires pt.free != []
  {
    pt.(pages := pt.pages + [pt.free[0]], mem := pt.mem[pt.free[0] := Zeros()], free := pt.free[1..])
  }

  function Without(s: seq<nat>, f: nat): (r: seq<nat>)
    ensures forall x :: x in r <==> x in s && x != f
  {
    if s == [] then [] else
    if s[0] == f then Without(s[1..], f) else [s[0]] + Without(s[1..], f)
  }

  /** Drops frame f from `pages`; the heap gets it back. */
  function Release(pt: PT, f: nat): PT {
    pt.(pages := Without(pt.pages, f), free := if f in pt.pages then pt.free + [f] else pt.free)
  }

  // ---------------------------------------------------------------- invariant

  ghost predicate Frames(pt: PT) {
    && Distinct(pt.pages) && Distinct(pt.free)
    && pt.dir !in pt.pages && pt.dir !in pt.free
    && (forall f :: f in pt.pages ==> f !in pt.free)
    && pt.dir in pt.mem && |pt.mem[pt.dir]| == ENTRIES
    && (forall f :: f in pt.pages ==> f in pt.mem && |pt.mem[f]| == ENTRIES)
  }

  /** A level-3 entry is empty or a page descriptor. */
  predicate L3Ok(w: Word) {
    w == ZERO || w.kind == TABLE
  }

  ghost predicate L2Ok(pt: PT, slot: map<nat, Slot>, i: nat, j: nat, w: Word) {
    || w == ZERO
    || w.kind == BLOCK
    || (w.kind == TABLE && w.pa in pt.pages && w.pa in slot && slot[w.pa] == L3At(i, j)
        && forall k {:trigger L3Ok(Entry(pt, w.pa, k))} :: 0 <= k < ENTRIES ==> L3Ok(Entry(pt, w.pa, k)))
  }

  ghost predicate L1Ok(pt: PT, slot: map<nat, Slot>, i: nat, w: Word) {
    || w == ZERO
    || (w.kind == TABLE && w.pa in pt.pages && w.pa in slot && slot[w.pa] == L2At(i)
        && forall j {:trigger L2Ok(pt, slot, i, j, Entry(pt, w.pa, j))} ::
          0 <= j < ENTRIES ==> L2Ok(pt, slot, i, j, Entry(pt, w.pa, j)))
  }

  /** Every table reachable from the directory is owned and hangs at the one
      slot `slot` records for it, so no frame is reached by two paths. */
  ghost predicate WF(pt: PT, slot: map<nat, Slot>) {
    && Frames(pt) && (forall f :: f in slot ==> f in pt.pages)
    && forall i {:trigger L1Ok(pt, slot, i, Entry(pt, pt.dir, i))} ::
      0 <= i < ENTRIES ==> L1Ok(pt, slot, i, Entry(pt, pt.dir, i))
  }

  /** Frame f is linked into the tree at slot s. */
  ghost predicate Linked(pt: PT, f: nat, s: Slot) {
    match s
    case L2At(i) => i < ENTRIES && Entry(pt, pt.dir, i).Valid() && Entry(pt, pt.dir, i).pa == f
    case L3At(i, j) =>
      && i < ENTRIES && j < ENTRIES && Entry(pt, pt.dir, i).Valid()
      && var w := Entry(pt, Entry(pt, pt.dir, i).pa, j); w.kind == TABLE && w.pa == f
  }

  /** `slot` records nothing but linked tables: with WF, its keys are exactly the
      tables reachable from the directory. */
  ghost predicate Exact(pt: PT, slot: map<nat, Slot>) {
    forall f {:trigger Linked(pt, f, slot[f])} :: f in slot ==> Linked(pt, f, slot[f])
  }

  /** Frames that are owned and no longer reachable. */
  ghost function Leaked(pt: PT, slot: map<nat, Slot>): set<nat> {
    set f | f in pt.pages && f !in slot
  }

  ghost predicate Inv(pt: PT, slot: map<nat, Slot>) {
    WF(pt, slot) && Exact(pt, slot)
  }

  /** Some path from the directory leads to table f. */
  ghost predicate Reachable(pt: PT, f: nat) { exists s: Slot :: Linked(pt, f, s) }

  /** `slot` records exactly the reachable tables. */
  lemma SlotsAreReachable(pt: PT, slot: map<nat, Slot>, f: nat)
    requires Inv(pt, slot)
    ensures f in slot <==> Reachable(pt, f)
    ensures Reachable(pt, f) ==> f in pt.pages
  {
    if f in slot { assert Linked(pt, f, slot[f]); }
    forall s: Slot | Linked(pt, f, s) ensures f in slot && f in pt.pages {
      assert L1Ok(pt, slot, s.i, Entry(pt, pt.dir, s.i));
      if s.L3At? { assert L2Ok(pt, slot, s.i, s.j, Entry(pt, Entry(pt, pt.dir, s.i).pa, s.j)); }
    }
  }

  /** From p to q: a frame that is no longer owned is all zero; one that was not
      owned before either is as it was, unless it was owned in between. */
  ghost predicate Tidy(p: PT, q: PT) {
    q.dir == p.dir &&
    forall f {:trigger Empty(q, f)} {:trigger SameFrame(p, q, f)} ::
      f !in q.pages && f != p.dir ==> Empty(q, f) || (f !in p.pages && SameFrame(p, q, f))
  }

  ghost predicate SameFrame(p: PT, q: PT, f: nat) { forall x :: Entry(q, f, x) == Entry(p, f, x) }

  lemma SameEmpty(q: PT, r: PT, f: nat)
    requires Empty(q, f) && SameFrame(q, r, f)
    ensures Empty(r, f)
  {
    forall x | 0 <= x < ENTRIES ensures Entry(r, f, x) == ZERO { assert Entry(q, f, x) == ZERO; }
  }

  lemma TidyTrans(p: PT, q: PT, r: PT)
    requires Tidy(p, q) && Tidy(q, r)
    ensures Tidy(p, r)
  {
    forall f | f !in r.pages && f != p.dir ensures Empty(r, f) || (f !in p.pages && SameFrame(p, r, f)) {
      assert Empty(r, f) || (f !in q.pages && SameFrame(q, r, f));
      if f !in q.pages && SameFrame(q, r, f) {
        assert Empty(q, f) || (f !in p.pages && SameFrame(p, q, f));
        if Empty(q, f) { SameEmpty(q, r, f); }
      }
    }
  }

  /** Writing an owned table or the directory. */
  lemma TidyPut(p: PT, c: nat, x: nat, w: Word)
    requires c == p.dir || c in p.pages
    ensures Tidy(p, Put(p, c, x, w))
  {
    var q := Put(p, c, x, w);
    forall f | f !in q.pages && f != p.dir ensures SameFrame(p, q, f) {}
  }

  lemma TidyGrab(p: PT)
    requires p.free != []
    ensures Tidy(p, Grab(p))
  {
    var q := Grab(p);
    forall f | f !in q.pages && f != p.dir ensures f !in p.pages && SameFrame(p, q, f) {
      assert p.free[0] in q.pages;
    }
  }

  /** Giving back a table that is all zero. */
  lemma TidyRelease(p: PT, t: nat)
    requires Empty(p, t)
    ensures Tidy(p, Release(p, t))
  {
    var q := Release(p, t);
    forall f | f !in q.pages && f != p.dir ensures Empty(q, f) || (f !in p.pages && SameFrame(p, q, f)) {
      if f == t { forall x | 0 <= x < ENTRIES ensures Entry(q, f, x) == ZERO { assert Entry(p, f, x) == ZERO; } }
    }
  }

  /** Every table given back from pt to q is all zero, and nothing points to it. */
  ghost predicate Released(pt: PT, q: PT) {
    forall f {:trigger Empty(q, f)} {:trigger Reachable(q, f)} :: f in pt.pages && f !in q.pages ==>
      Empty(q, f) && !Reachable(q, f)
  }

  lemma TidyReleases(pt: PT, q: PT, slot': map<nat, Slot>)
    requires Tidy(pt, q) && Inv(q, slot') && pt.dir !in pt.pages
    ensures Released(pt, q)
  {
    forall f | f in pt.pages && f !in q.pages ensures Empty(q, f) && !Reachable(q, f) {
      assert Empty(q, f) || (f !in pt.pages && SameFrame(pt, q, f));
      SlotsAreReachable(q, slot', f);
    }
  }

  // --------------------------------------------------------------- translation

  /** The walk the MMU makes for directory, level-2 and level-3 indices i, j, k. */
  function Walk(pt: PT, i: nat, j: nat, k: nat): Option<Leaf> {
    var l1 := Entry(pt, pt.dir, i);
    if !l1.Valid() then None else
    var l2 := Entry(pt, l1.pa, j);
    if !l2.Valid() then None
    else if l2.kind == BLOCK then Some(Leaf(l2.pa + k * PAGE_SIZE, l2.attrs)) else
    var l3 := Entry(pt, l2.pa, k);
    if !l3.Valid() then None else Some(Leaf(l3.pa, l3.attrs))
  }

  predicate HasBlock(pt: PT, i: nat, j: nat) {
    Entry(pt, pt.dir, i).Valid() && Entry(pt, Entry(pt, pt.dir, i).pa, j).kind == BLOCK
  }

  predicate HasTable(pt: PT, i: nat, j: nat) {
    Entry(pt, pt.dir, i).Valid() && Entry(pt, Entry(pt, pt.dir, i).pa, j).kind == TABLE
  }

  /** What a and b hold below level-2 entry (i, j) cannot be told apart. */
  ghost predicate SameBelow(a: PT, b: PT, i: nat, j: nat) {
    && HasTable(b, i, j) == HasTable(a, i, j)
    && HasBlock(b, i, j) == HasBlock(a, i, j)
    && forall k :: 0 <= k < ENTRIES ==> Walk(b, i, j, k) == Walk(a, i, j, k)
  }

  ghost predicate SameSpace(a: PT, b: PT) {
    forall x, y :: 0 <= x < ENTRIES && 0 <= y < ENTRIES ==> SameBelow(a, b, x, y)
  }

  ghost predicate SameBut(a: PT, b: PT, i: nat, j: nat) {
    forall x, y :: 0 <= x < ENTRIES && 0 <= y < ENTRIES && (x, y) != (i, j) ==> SameBelow(a, b, x, y)
  }

  /** The walks of b are those of a except at one page, where they yield r. */
  ghost predicate PageSet(a: PT, b: PT, i: nat, j: nat, k: nat, r: Option<Leaf>) {
    && SameBut(a, b, i, j)
    && forall z :: 0 <= z < ENTRIES ==> Walk(b, i, j, z) == if z == k then r else Walk(a, i, j, z)
  }

  /** Page z of a 2 MB block. */
  function Nth(r: Option<Leaf>, z: nat): Option<Leaf> {
    if r == None then None else Some(Leaf(r.value.pa + z * PAGE_SIZE, r.value.attrs))
  }

  /** The walks of b are those of a except below (i, j), where they are block r. */
  ghost predicate BlockSet(a: PT, b: PT, i: nat, j: nat, r: Option<Leaf>) {
    SameBut(a, b, i, j) && forall z :: 0 <= z < ENTRIES ==> Walk(b, i, j, z) == Nth(r, z)
  }

  // ---------------------------------------------------------------- operations

  /** Links a fresh level-2 table at directory entry i unless one is there. */
  function EnsureL2(pt: PT, i: nat): PT {
    if Entry(pt, pt.dir, i).Valid() || pt.free == [] then pt else
    Put(Grab(pt), pt.dir, i, Word(pt.free[0], 0, TABLE))
  }

  function EnsureL3(pt: PT, i: nat, j: nat): PT {
    var t := Entry(pt, pt.dir, i).pa;
    if Entry(pt, t, j).Valid() || pt.free == [] then pt else
    Put(Grab(pt), t, j, Word(pt.free[0], 0, TABLE))
  }

  /** The tables on the path to (i, j), as far as the free frames allow. */
  function EnsurePath(pt: PT, i: nat, j: nat): PT {
    var a := EnsureL2(pt, i);
    if Entry(a, a.dir, i).Valid() then EnsureL3(a, i, j) else a
  }

  /** `map`: a 4 KB page.  An entry that is already there is left alone, and a
      failed frame allocation leaves the page unmapped. */
  function MapPage(pt: PT, i: nat, j: nat, k: nat, pa: nat, attrs: nat): PT {
    var b := EnsurePath(pt, i, j);
    var l1 := Entry(b, b.dir, i);
    if !l1.Valid() then b else
    var l2 := Entry(b, l1.pa, j);
    if !l2.Valid() || Entry(b, l2.pa, k).Valid() then b else Put(b, l2.pa, k, Word(pa, attrs, TABLE))
  }

  /** `map_2mb`. */
  function MapBlock(pt: PT, i: nat, j: nat, pa: nat, attrs: nat): PT {
    var a := EnsureL2(pt, i);
    var l1 := Entry(a, a.dir, i);
    if !l1.Valid() || Entry(a, l1.pa, j).Valid() then a else Put(a, l1.pa, j, Word(pa, attrs, BLOCK))
  }

  /** Unlinks and releases the level-2 table at i if nothing is left in it. */
  function PruneL2(pt: PT, i: nat): PT {
    var t := Entry(pt, pt.dir, i).pa;
    if Empty(pt, t) then Release(Put(pt, pt.dir, i, ZERO), t) else pt
  }

  /** `unmap`. */
  function UnmapPage(pt: PT, i: nat, j: nat, k: nat): PT {
    var l1 := Entry(pt, pt.dir, i);
    if !l1.Valid() then pt else
    var l2 := Entry(pt, l1.pa, j);
    if !l2.Valid() || !Entry(pt, l2.pa, k).Valid() then pt else
    var a := Put(pt, l2.pa, k, ZERO);
    if !Empty(a, l2.pa) then a else PruneL2(Release(Put(a, l1.pa, j, ZERO), l2.pa), i)
  }

  /** `unmap_2mb`: clears the level-2 entry whether it is a block or a table. */
  function UnmapBlock(pt: PT, i: nat, j: nat): PT {
    var l1 := Entry(pt, pt.dir, i);
    if !l1.Valid() || !Entry(pt, l1.pa, j).Valid() then pt else PruneL2(Put(pt, l1.pa, j, ZERO), i)
  }

  /** Whether the free frames cover the tables a page at (i, j) still needs. */
  predicate Granted(pt: PT, i: nat, j: nat) {
    var l1 := Entry(pt, pt.dir, i);
    if !l1.Valid() then |pt.free| >= 2 else Entry(pt, l1.pa, j).Valid() || |pt.free| >= 1
  }

  ghost predicate Conserves(a: PT, b: PT) {
    b.dir == a.dir && multiset(b.pages) + multiset(b.free) == multiset(a.pages) + multiset(a.free)
  }

  // ------------------------------------------------------------- frame lemmas

  /** q differs from pt at most in frame c and in frames pt does not own. */
  ghost predicate AgreeBut(pt: PT, q: PT, c: nat) {
    && q.dir == pt.dir
    && (forall f :: f in pt.pages ==> f in q.pages)
    && forall g, x :: (g == pt.dir || g in pt.pages) && g != c ==> Entry(q, g, x) == Entry(pt, g, x)
  }

  ghost predicate Kept(slot: map<nat, Slot>, slot': map<nat, Slot>, f: nat)
    requires f in slot
  {
    f in slot' && slot'[f] == slot[f]
  }

  /** A change confined to frame c leaves the subtree of a level-2 entry alone
      when that entry is unchanged and c does not hang at (i, j). */
  lemma KeepsL2(pt: PT, q: PT, slot: map<nat, Slot>, slot': map<nat, Slot>, c: nat, i: nat, j: nat)
    requires WF(pt, slot) && AgreeBut(pt, q, c)
    requires forall f :: f in slot && slot[f] == L3At(i, j) ==> Kept(slot, slot', f)
    requires i < ENTRIES && j < ENTRIES && Entry(pt, pt.dir, i).Valid()
    requires Entry(q, q.dir, i) == Entry(pt, pt.dir, i)
    requires var t := Entry(pt, pt.dir, i).pa; Entry(q, t, j) == Entry(pt, t, j)
    requires c in slot ==> slot[c] != L3At(i, j)
    ensures L2Ok(q, slot', i, j, Entry(q, Entry(pt, pt.dir, i).pa, j))
    ensures SameBelow(pt, q, i, j)
  {
    assert L1Ok(pt, slot, i, Entry(pt, pt.dir, i));
    assert L2Ok(pt, slot, i, j, Entry(pt, Entry(pt, pt.dir, i).pa, j));
  }

  /** The same for a whole directory entry. */
  lemma KeepsL1(pt: PT, q: PT, slot: map<nat, Slot>, slot': map<nat, Slot>, c: nat, i: nat)
    requires WF(pt, slot) && AgreeBut(pt, q, c)
    requires forall f :: f in slot && slot[f].i == i ==> Kept(slot, slot', f)
    requires i < ENTRIES && Entry(q, q.dir, i) == Entry(pt, pt.dir, i)
    requires c in slot ==> slot[c].i != i
    ensures L1Ok(q, slot', i, Entry(q, q.dir, i))
    ensures forall j :: 0 <= j < ENTRIES ==> SameBelow(pt, q, i, j)
  {
    var w := Entry(pt, pt.dir, i);
    assert L1Ok(pt, slot, i, w);
    if w.Valid() {
      forall j | 0 <= j < ENTRIES
        ensures L2Ok(q, slot', i, j, Entry(q, w.pa, j)) && SameBelow(pt, q, i, j)
      {
        KeepsL2(pt, q, slot, slot', c, i, j);
      }
    }
  }

  lemma GrabOk(pt: PT, slot: map<nat, Slot>)
    requires WF(pt, slot) && pt.free != []
    ensures Conserves(pt, Grab(pt)) && WF(Grab(pt), slot)
    ensures AgreeBut(pt, Grab(pt), pt.free[0]) && pt.free[0] !in pt.pages
  {
    var q := Grab(pt);
    var f := pt.free[0];
    assert pt.free == [f] + pt.free[1..];
    assert f !in pt.free[1..];
    assert f in pt.free && f !in pt.pages;
    assert forall g :: g in q.pages <==> g in pt.pages || g == f;
    forall i | 0 <= i < ENTRIES ensures L1Ok(q, slot, i, Entry(q, q.dir, i)) {
      KeepsL1(pt, q, slot, slot, f, i);
    }
  }

  /** Level-3 contents do not matter to who is linked where. */
  lemma PutL3Exact(pt: PT, slot: map<nat, Slot>, i: nat, j: nat, k: nat, w: Word)
    requires WF(pt, slot) && Exact(pt, slot) && i < ENTRIES && j < ENTRIES
    requires Entry(pt, pt.dir, i).Valid() && Entry(pt, Entry(pt, pt.dir, i).pa, j).kind == TABLE
    ensures Exact(Put(pt, Entry(pt, Entry(pt, pt.dir, i).pa, j).pa, k, w), slot)
  {
    assert L1Ok(pt, slot, i, Entry(pt, pt.dir, i));
    assert L2Ok(pt, slot, i, j, Entry(pt, Entry(pt, pt.dir, i).pa, j));
    var q := Put(pt, Entry(pt, Entry(pt, pt.dir, i).pa, j).pa, k, w);
    forall g | g in slot ensures Linked(q, g, slot[g]) {
      assert Linked(pt, g, slot[g]);
      assert L1Ok(pt, slot, slot[g].i, Entry(pt, pt.dir, slot[g].i));
    }
  }

  /** Writing descriptor w into a level-3 table changes exactly one page. */
  lemma PutL3(pt: PT, slot: map<nat, Slot>, i: nat, j: nat, k: nat, w: Word)
    requires WF(pt, slot) && i < ENTRIES && j < ENTRIES && k < ENTRIES && L3Ok(w) && HasTable(pt, i, j)
    ensures var t := Entry(pt, pt.dir, i).pa; var f := Entry(pt, t, j).pa; var q := Put(pt, f, k, w);
      && WF(q, slot) && Conserves(pt, q) && q.pages == pt.pages && q.free == pt.free
      && (Exact(pt, slot) ==> Exact(q, slot))
      && Entry(q, q.dir, i) == Entry(pt, pt.dir, i) && Entry(q, t, j) == Entry(pt, t, j)
      && PageSet(pt, q, i, j, k, if w.Valid() then Some(Leaf(w.pa, w.attrs)) else None)
  {
    var t := Entry(pt, pt.dir, i).pa;
    assert L1Ok(pt, slot, i, Entry(pt, pt.dir, i));
    assert L2Ok(pt, slot, i, j, Entry(pt, t, j));
    var f := Entry(pt, t, j).pa;
    var q := Put(pt, f, k, w);
    if Exact(pt, slot) { PutL3Exact(pt, slot, i, j, k, w); }
    assert Frames(q) && AgreeBut(pt, q, f);
    forall x | 0 <= x < ENTRIES && x != i
      ensures L1Ok(q, slot, x, Entry(q, q.dir, x))
      ensures forall y :: 0 <= y < ENTRIES ==> SameBelow(pt, q, x, y)
    {
      KeepsL1(pt, q, slot, slot, f, x);
    }
    forall y | 0 <= y < ENTRIES && y != j
      ensures L2Ok(q, slot, i, y, Entry(q, t, y)) && SameBelow(pt, q, i, y)
    {
      KeepsL2(pt, q, slot, slot, f, i, y);
    }
    forall z | 0 <= z < ENTRIES ensures L3Ok(Entry(q, f, z)) {
      assert L3Ok(Entry(pt, f, z));
    }
  }

  /** Rewriting entry j of the level-2 table at i keeps the invariant when the
      new entry is sound, and touches nothing outside (i, j). */
  lemma PutL2(pt: PT, slot: map<nat, Slot>, slot': map<nat, Slot>, i: nat, j: nat, w: Word)
    requires WF(pt, slot) && i < ENTRIES && j < ENTRIES && Entry(pt, pt.dir, i).Valid()
    requires forall f :: f in slot && slot[f] != L3At(i, j) ==> Kept(slot, slot', f)
    requires forall f :: f in slot' ==> f in pt.pages
    requires L2Ok(Put(pt, Entry(pt, pt.dir, i).pa, j, w), slot', i, j, w)
    ensures var t := Entry(pt, pt.dir, i).pa; var q := Put(pt, t, j, w);
      && WF(q, slot') && Conserves(pt, q) && SameBut(pt, q, i, j)
      && Entry(q, q.dir, i) == Entry(pt, pt.dir, i) && Entry(q, t, j) == w
  {
    var t := Entry(pt, pt.dir, i).pa;
    assert L1Ok(pt, slot, i, Entry(pt, pt.dir, i));
    var q := Put(pt, t, j, w);
    assert Frames(q) && AgreeBut(pt, q, t);
    forall x | 0 <= x < ENTRIES && x != i
      ensures L1Ok(q, slot', x, Entry(q, q.dir, x))
      ensures forall y :: 0 <= y < ENTRIES ==> SameBelow(pt, q, x, y)
    {
      KeepsL1(pt, q, slot, slot', t, x);
    }
    forall y | 0 <= y < ENTRIES && y != j
      ensures L2Ok(q, slot', i, y, Entry(q, t, y)) && SameBelow(pt, q, i, y)
    {
      KeepsL2(pt, q, slot, slot', t, i, y);
    }
  }

  /** The same for a directory entry. */
  lemma PutL1(pt: PT, slot: map<nat, Slot>, slot': map<nat, Slot>, i: nat, w: Word)
    requires WF(pt, slot) && i < ENTRIES
    requires forall f :: f in slot && slot[f].i != i ==> Kept(slot, slot', f)
    requires forall f :: f in slot' ==> f in pt.pages
    requires L1Ok(Put(pt, pt.dir, i, w), slot', i, w)
    ensures var q := Put(pt, pt.dir, i, w);
      && WF(q, slot') && Conserves(pt, q)
      && forall x, y :: 0 <= x < ENTRIES && 0 <= y < ENTRIES && x != i ==> SameBelow(pt, q, x, y)
  {
    var q := Put(pt, pt.dir, i, w);
    assert Frames(q);
    forall x | 0 <= x < ENTRIES && x != i
      ensures L1Ok(q, slot', x, Entry(q, q.dir, x))
      ensures forall y :: 0 <= y < ENTRIES ==> SameBelow(pt, q, x, y)
    {
      KeepsL1(pt, q, slot, slot', pt.dir, x);
    }
  }

  // -------------------------------------------------------- the operations' laws

  /** Linking a fresh frame leaks nothing. */
  lemma LinkL2Exact(pt: PT, slot: map<nat, Slot>, i: nat)
    requires WF(pt, slot) && Exact(pt, slot)
    requires i < ENTRIES && !Entry(pt, pt.dir, i).Valid() && pt.free != []
    ensures Exact(EnsureL2(pt, i), slot[pt.free[0] := L2At(i)])
  {
    var q := EnsureL2(pt, i);
    var f := pt.free[0];
    forall g | g in slot ensures Linked(q, g, slot[g]) {
      assert Linked(pt, g, slot[g]);
      assert g != f && f in pt.free;
      assert L1Ok(pt, slot, slot[g].i, Entry(pt, pt.dir, slot[g].i));
    }
  }

  lemma LinkL3Exact(pt: PT, slot: map<nat, Slot>, i: nat, j: nat)
    requires WF(pt, slot) && Exact(pt, slot)
    requires i < ENTRIES && j < ENTRIES && Entry(pt, pt.dir, i).Valid()
    requires !Entry(pt, Entry(pt, pt.dir, i).pa, j).Valid() && pt.free != []
    ensures Exact(EnsureL3(pt, i, j), slot[pt.free[0] := L3At(i, j)])
  {
    var q := EnsureL3(pt, i, j);
    var f := pt.free[0];
    assert L1Ok(pt, slot, i, Entry(pt, pt.dir, i));
    forall g | g in slot ensures Linked(q, g, slot[g]) {
      assert Linked(pt, g, slot[g]);
      assert g != f && f in pt.free;
      assert L1Ok(pt, slot, slot[g].i, Entry(pt, pt.dir, slot[g].i));
    }
  }

  /** From pt to q the owned and free frames together stay the same, and so do
      the unreachable ones. */
  ghost predicate Sound(pt: PT, slot: map<nat, Slot>, q: PT, slot': map<nat, Slot>) {
    Inv(q, slot') && Conserves(pt, q) && Leaked(q, slot') == Leaked(pt, slot)
  }

  lemma EnsureL2Ok(pt: PT, slot: map<nat, Slot>, i: nat) returns (slot': map<nat, Slot>)
    requires Inv(pt, slot) && i < ENTRIES
    ensures var q := EnsureL2(pt, i);
      && Sound(pt, slot, q, slot') && SameSpace(pt, q)
      && (Entry(q, q.dir, i).Valid() <==> Entry(pt, pt.dir, i).Valid() || pt.free != [])
      && (!Entry(pt, pt.dir, i).Valid() && pt.free != [] ==> |q.free| == |pt.free| - 1)
  {
    slot' := slot;
    if !Entry(pt, pt.dir, i).Valid() && pt.free != [] {
      GrabOk(pt, slot);
      var f := pt.free[0];
      var g := Grab(pt);
      slot' := slot[f := L2At(i)];
      LinkL2Exact(pt, slot, i);
      var q := EnsureL2(pt, i);
      PutL1(g, slot, slot', i, Word(f, 0, TABLE));
      forall x, y | 0 <= x < ENTRIES && 0 <= y < ENTRIES ensures SameBelow(pt, q, x, y) {
        if x != i {
          KeepsL1(pt, g, slot, slot, f, x);
          assert SameBelow(pt, g, x, y) && SameBelow(g, q, x, y);
        }
      }
    }
  }

  lemma EnsureL3Ok(pt: PT, slot: map<nat, Slot>, i: nat, j: nat) returns (slot': map<nat, Slot>)
    requires Inv(pt, slot) && i < ENTRIES && j < ENTRIES && Entry(pt, pt.dir, i).Valid()
    ensures var q := EnsureL3(pt, i, j); var t := Entry(pt, pt.dir, i).pa;
      && Sound(pt, slot, q, slot') && SameBut(pt, q, i, j)
      && (forall k :: 0 <= k < ENTRIES ==> Walk(q, i, j, k) == Walk(pt, i, j, k))
      && Entry(q, q.dir, i) == Entry(pt, pt.dir, i)
      && (Entry(q, t, j).Valid() <==> Entry(pt, t, j).Valid() || pt.free != [])
      && (Entry(q, t, j).kind == BLOCK <==> Entry(pt, t, j).kind == BLOCK)
  {
    slot' := slot;
    var t := Entry(pt, pt.dir, i).pa;
    if !Entry(pt, t, j).Valid() && pt.free != [] {
      GrabOk(pt, slot);
      var f := pt.free[0];
      var g := Grab(pt);
      slot' := slot[f := L3At(i, j)];
      LinkL3Exact(pt, slot, i, j);
      var q := EnsureL3(pt, i, j);
      assert L1Ok(pt, slot, i, Entry(pt, pt.dir, i));
      PutL2(g, slot, slot', i, j, Word(f, 0, TABLE));
      forall x, y | 0 <= x < ENTRIES && 0 <= y < ENTRIES && (x, y) != (i, j) ensures SameBelow(pt, q, x, y) {
        KeepsL1(pt, g, slot, slot, f, x);
        assert SameBelow(pt, g, x, y) && SameBelow(g, q, x, y);
      }
    }
  }

  /** A valid level-2 entry is a block or a table. */
  lemma L2IsTable(pt: PT, slot: map<nat, Slot>, i: nat, j: nat)
    requires WF(pt, slot) && i < ENTRIES && j < ENTRIES && Entry(pt, pt.dir, i).Valid()
    ensures var l2 := Entry(pt, Entry(pt, pt.dir, i).pa, j); l2.Valid() ==> l2.kind == BLOCK || l2.kind == TABLE
  {
    assert L1Ok(pt, slot, i, Entry(pt, pt.dir, i));
    assert L2Ok(pt, slot, i, j, Entry(pt, Entry(pt, pt.dir, i).pa, j));
  }

  lemma EnsurePathOk(pt: PT, slot: map<nat, Slot>, i: nat, j: nat) returns (slot': map<nat, Slot>)
    requires Inv(pt, slot) && i < ENTRIES && j < ENTRIES && !HasBlock(pt, i, j)
    ensures var q := EnsurePath(pt, i, j);
      && Sound(pt, slot, q, slot') && SameBut(pt, q, i, j)
      && (forall k :: 0 <= k < ENTRIES ==> Walk(q, i, j, k) == Walk(pt, i, j, k))
      && (Granted(pt, i, j) <==> HasTable(q, i, j)) && !HasBlock(q, i, j)
  {
    slot' := EnsureL2Ok(pt, slot, i);
    var a := EnsureL2(pt, i);
    assert SameBelow(pt, a, i, j);
    if Entry(a, a.dir, i).Valid() {
      var slot2 := slot';
      slot' := EnsureL3Ok(a, slot2, i, j);
      var q := EnsureL3(a, i, j);
      L2IsTable(q, slot', i, j);
      forall x, y | 0 <= x < ENTRIES && 0 <= y < ENTRIES && (x, y) != (i, j) ensures SameBelow(pt, q, x, y) {
        assert SameBelow(pt, a, x, y) && SameBelow(a, q, x, y);
      }
    }
  }

  /** `map` gives the page its translation exactly when it had none and the
      frames sufficed; no other page is touched and no existing entry changes. */
  lemma MapPageOk(pt: PT, slot: map<nat, Slot>, i: nat, j: nat, k: nat, pa: nat, attrs: nat)
      returns (slot': map<nat, Slot>)
    requires Inv(pt, slot) && i < ENTRIES && j < ENTRIES && k < ENTRIES && !HasBlock(pt, i, j)
    ensures var q := MapPage(pt, i, j, k, pa, attrs);
      && Sound(pt, slot, q, slot')
      && PageSet(pt, q, i, j, k,
           if Walk(pt, i, j, k) == None && Granted(pt, i, j) then Some(Leaf(pa, attrs)) else Walk(pt, i, j, k))
      && (Granted(pt, i, j) <==> HasTable(q, i, j)) && !HasBlock(q, i, j)
  {
    slot' := EnsurePathOk(pt, slot, i, j);
    var b := EnsurePath(pt, i, j);
    var q := MapPage(pt, i, j, k, pa, attrs);
    assert Walk(b, i, j, k) == Walk(pt, i, j, k);
    if HasTable(b, i, j) {
      PutL3(b, slot', i, j, k, Word(pa, attrs, TABLE));
      forall x, y | 0 <= x < ENTRIES && 0 <= y < ENTRIES && (x, y) != (i, j) ensures SameBelow(pt, q, x, y) {
        assert SameBelow(pt, b, x, y) && (q == b || SameBelow(b, q, x, y));
      }
    } else if Entry(b, b.dir, i).Valid() {
      L2IsTable(b, slot', i, j);
    }
  }

  /** Replacing a level-2 entry by one that is no table keeps every other link. */
  lemma PutL2Exact(pt: PT, slot: map<nat, Slot>, i: nat, j: nat, w: Word)
    requires WF(pt, slot) && Exact(pt, slot) && i < ENTRIES && j < ENTRIES && Entry(pt, pt.dir, i).Valid()
    requires w.kind != TABLE
    ensures var t := Entry(pt, pt.dir, i).pa; var l2 := Entry(pt, t, j);
      Exact(Put(pt, t, j, w), if l2.kind == TABLE then slot - {l2.pa} else slot)
  {
    var t := Entry(pt, pt.dir, i).pa;
    var l2 := Entry(pt, t, j);
    var q := Put(pt, t, j, w);
    assert L1Ok(pt, slot, i, Entry(pt, pt.dir, i));
    assert L2Ok(pt, slot, i, j, l2);
    forall g | g in slot && (l2.kind == TABLE ==> g != l2.pa) ensures Linked(q, g, slot[g]) {
      assert Linked(pt, g, slot[g]);
      assert L1Ok(pt, slot, slot[g].i, Entry(pt, pt.dir, slot[g].i));
    }
  }

  /** Writing a block descriptor over a level-2 entry that is no table. */
  lemma PutBlock(pt: PT, slot: map<nat, Slot>, i: nat, j: nat, w: Word)
    requires Inv(pt, slot) && i < ENTRIES && j < ENTRIES && w.kind == BLOCK
    requires Entry(pt, pt.dir, i).Valid() && !HasTable(pt, i, j)
    ensures var q := Put(pt, Entry(pt, pt.dir, i).pa, j, w);
      && Sound(pt, slot, q, slot) && BlockSet(pt, q, i, j, Some(Leaf(w.pa, w.attrs)))
      && HasBlock(q, i, j) && Entry(q, q.dir, i) == Entry(pt, pt.dir, i)
  {
    PutL2(pt, slot, slot, i, j, w);
    PutL2Exact(pt, slot, i, j, w);
  }

  /** Whether `map_2mb` can take effect at (i, j). */
  predicate BlockGranted(pt: PT, i: nat, j: nat) {
    !HasBlock(pt, i, j) && !HasTable(pt, i, j) && (Entry(pt, pt.dir, i).Valid() || pt.free != [])
  }

  /** `map_2mb` fills all 512 pages below (i, j) with consecutive addresses
      exactly when the entry was absent and the frames sufficed. */
  lemma MapBlockOk(pt: PT, slot: map<nat, Slot>, i: nat, j: nat, pa: nat, attrs: nat) returns (slot': map<nat, Slot>)
    requires Inv(pt, slot) && i < ENTRIES && j < ENTRIES
    ensures var q := MapBlock(pt, i, j, pa, attrs);
      && Sound(pt, slot, q, slot')
      && (if BlockGranted(pt, i, j) then BlockSet(pt, q, i, j, Some(Leaf(pa, attrs))) && HasBlock(q, i, j)
          else SameSpace(pt, q))
  {
    slot' := EnsureL2Ok(pt, slot, i);
    var a := EnsureL2(pt, i);
    var q := MapBlock(pt, i, j, pa, attrs);
    var l1 := Entry(a, a.dir, i);
    assert SameBelow(pt, a, i, j);
    if l1.Valid() {
      L2IsTable(a, slot', i, j);
      if !Entry(a, l1.pa, j).Valid() {
        PutBlock(a, slot', i, j, Word(pa, attrs, BLOCK));
        forall x, y | 0 <= x < ENTRIES && 0 <= y < ENTRIES && (x, y) != (i, j) ensures SameBelow(pt, q, x, y) {
          assert SameBelow(pt, a, x, y) && SameBelow(a, q, x, y);
        }
      }
    }
  }

  lemma {:induction false} WithoutOnce(s: seq<nat>, f: nat)
    requires Distinct(s)
    ensures Distinct(Without(s, f))
    ensures f in s ==> multiset(Without(s, f)) + multiset{f} == multiset(s)
  {
    if s != [] {
      assert s == [s[0]] + s[1..];
      assert s[0] !in s[1..];
      WithoutOnce(s[1..], f);
      if s[0] == f { WithoutNone(s[1..], f); }
    }
  }

  lemma {:induction false} WithoutNone(s: seq<nat>, f: nat)
    requires f !in s
    ensures Without(s, f) == s
  {
    if s != [] { WithoutNone(s[1..], f); }
  }

  lemma ReleaseFrames(pt: PT, f: nat)
    requires Frames(pt) && f in pt.pages
    ensures Frames(Release(pt, f)) && Conserves(pt, Release(pt, f))
  {
    WithoutOnce(pt.pages, f);
  }

  lemma ReleaseL1Ok(pt: PT, slot: map<nat, Slot>, f: nat, i: nat)
    requires WF(pt, slot) && f !in slot && i < ENTRIES
    ensures L1Ok(Release(pt, f), slot, i, Entry(Release(pt, f), pt.dir, i))
  {
    var q := Release(pt, f);
    var w := Entry(pt, pt.dir, i);
    assert L1Ok(pt, slot, i, w);
    if w.Valid() {
      forall j | 0 <= j < ENTRIES ensures L2Ok(q, slot, i, j, Entry(q, w.pa, j)) {
        assert L2Ok(pt, slot, i, j, Entry(pt, w.pa, j));
        assert forall k :: Entry(q, Entry(pt, w.pa, j).pa, k) == Entry(pt, Entry(pt, w.pa, j).pa, k);
      }
    }
  }

  /** Walks and links depend on the directory and on memory only. */
  lemma SameMemory(a: PT, b: PT, slot: map<nat, Slot>)
    requires a.dir == b.dir && a.mem == b.mem
    ensures SameSpace(a, b) && (Exact(a, slot) ==> Exact(b, slot))
  {
    assert forall f, x :: Entry(a, f, x) == Entry(b, f, x);
    forall g | g in slot && Exact(a, slot) ensures Linked(b, g, slot[g]) {
      assert Linked(a, g, slot[g]);
    }
  }

  /** A frame that nothing points to can be given back: no walk sees it. */
  lemma ReleaseOk(pt: PT, slot: map<nat, Slot>, f: nat)
    requires Inv(pt, slot) && f in pt.pages && f !in slot
    ensures var q := Release(pt, f);
      && Inv(q, slot) && Conserves(pt, q) && SameSpace(pt, q)
      && Leaked(q, slot) == Leaked(pt, slot) - {f}
  {
    var q := Release(pt, f);
    ReleaseFrames(pt, f);
    forall i | 0 <= i < ENTRIES ensures L1Ok(q, slot, i, Entry(q, q.dir, i)) {
      ReleaseL1Ok(pt, slot, f, i);
    }
    SameMemory(pt, q, slot);
  }

  /** Taking an empty level-2 table off the directory changes no walk. */
  lemma UnlinkL2(pt: PT, slot: map<nat, Slot>, i: nat)
    requires Inv(pt, slot) && i < ENTRIES && Entry(pt, pt.dir, i).Valid()
    requires Empty(pt, Entry(pt, pt.dir, i).pa)
    ensures var q := Put(pt, pt.dir, i, ZERO);
      Inv(q, slot - {Entry(pt, pt.dir, i).pa}) && SameSpace(pt, q) && q.pages == pt.pages
  {
    var t := Entry(pt, pt.dir, i).pa;
    var q := Put(pt, pt.dir, i, ZERO);
    assert L1Ok(pt, slot, i, Entry(pt, pt.dir, i));
    PutL1(pt, slot, slot - {t}, i, ZERO);
    forall g | g in slot && g != t ensures Linked(q, g, slot[g]) {
      assert Linked(pt, g, slot[g]);
    }
  }

  /** A level-2 table goes back to the heap exactly when its last entry is gone. */
  lemma PruneL2Ok(pt: PT, slot: map<nat, Slot>, i: nat) returns (slot': map<nat, Slot>)
    requires Inv(pt, slot) && i < ENTRIES && Entry(pt, pt.dir, i).Valid()
    ensures Sound(pt, slot, PruneL2(pt, i), slot') && SameSpace(pt, PruneL2(pt, i))
  {
    slot' := slot;
    var t := Entry(pt, pt.dir, i).pa;
    if Empty(pt, t) {
      assert L1Ok(pt, slot, i, Entry(pt, pt.dir, i));
      slot' := slot - {t};
      var a := Put(pt, pt.dir, i, ZERO);
      var q := PruneL2(pt, i);
      UnlinkL2(pt, slot, i);
      ReleaseOk(a, slot', t);
      forall x, y | 0 <= x < ENTRIES && 0 <= y < ENTRIES ensures SameBelow(pt, q, x, y) {
        assert SameBelow(pt, a, x, y) && SameBelow(a, q, x, y);
      }
    }
  }

  /** Clearing a level-2 entry unmaps everything below it; a table that hung
      there is no longer reachable. */
  lemma ClearL2(pt: PT, slot: map<nat, Slot>, i: nat, j: nat) returns (slot': map<nat, Slot>)
    requires Inv(pt, slot) && i < ENTRIES && j < ENTRIES && Entry(pt, pt.dir, i).Valid()
    ensures var t := Entry(pt, pt.dir, i).pa; var l2 := Entry(pt, t, j); var q := Put(pt, t, j, ZERO);
      && slot' == (if l2.kind == TABLE then slot - {l2.pa} else slot)
      && (l2.kind == TABLE ==> l2.pa in pt.pages && l2.pa in slot)
      && Inv(q, slot') && Conserves(pt, q) && q.pages == pt.pages
      && BlockSet(pt, q, i, j, None) && !HasTable(q, i, j) && !HasBlock(q, i, j)
      && Entry(q, q.dir, i) == Entry(pt, pt.dir, i)
  {
    var t := Entry(pt, pt.dir, i).pa;
    var l2 := Entry(pt, t, j);
    assert L1Ok(pt, slot, i, Entry(pt, pt.dir, i));
    assert L2Ok(pt, slot, i, j, l2);
    slot' := if l2.kind == TABLE then slot - {l2.pa} else slot;
    PutL2(pt, slot, slot', i, j, ZERO);
    PutL2Exact(pt, slot, i, j, ZERO);
  }

  /** An empty level-3 table goes back to the heap, and its parent after it if
      that is now empty too; no walk changes. */
  lemma PruneL3Ok(pt: PT, slot: map<nat, Slot>, i: nat, j: nat) returns (slot': map<nat, Slot>)
    requires Inv(pt, slot) && i < ENTRIES && j < ENTRIES && HasTable(pt, i, j)
    requires Empty(pt, Entry(pt, Entry(pt, pt.dir, i).pa, j).pa)
    ensures var t := Entry(pt, pt.dir, i).pa; var f := Entry(pt, t, j).pa;
      var q := PruneL2(Release(Put(pt, t, j, ZERO), f), i);
      Sound(pt, slot, q, slot') && BlockSet(pt, q, i, j, None) && !HasTable(q, i, j) && !HasBlock(q, i, j)
  {
    var t := Entry(pt, pt.dir, i).pa;
    var f := Entry(pt, t, j).pa;
    var a := Put(pt, t, j, ZERO);
    var slot1 := ClearL2(pt, slot, i, j);
    ReleaseOk(a, slot1, f);
    var b := Release(a, f);
    assert Entry(b, b.dir, i) == Entry(a, a.dir, i);
    slot' := PruneL2Ok(b, slot1, i);
    var q := PruneL2(b, i);
    forall x, y | 0 <= x < ENTRIES && 0 <= y < ENTRIES ensures SameBelow(a, q, x, y) {
      assert SameBelow(a, b, x, y) && SameBelow(b, q, x, y);
    }
    forall x, y | 0 <= x < ENTRIES && 0 <= y < ENTRIES && (x, y) != (i, j) ensures SameBelow(pt, q, x, y) {
      assert SameBelow(pt, a, x, y) && SameBelow(a, q, x, y);
    }
    assert SameBelow(a, q, i, j);
  }

  lemma EnsureL2Tidy(pt: PT, i: nat)
    ensures Tidy(pt, EnsureL2(pt, i))
  {
    if !Entry(pt, pt.dir, i).Valid() && pt.free != [] {
      TidyGrab(pt);
      TidyPut(Grab(pt), pt.dir, i, Word(pt.free[0], 0, TABLE));
      TidyTrans(pt, Grab(pt), EnsureL2(pt, i));
    }
  }

  lemma EnsureL3Tidy(pt: PT, slot: map<nat, Slot>, i: nat, j: nat)
    requires Inv(pt, slot) && i < ENTRIES && Entry(pt, pt.dir, i).Valid()
    ensures Tidy(pt, EnsureL3(pt, i, j))
  {
    var t := Entry(pt, pt.dir, i).pa;
    assert L1Ok(pt, slot, i, Entry(pt, pt.dir, i));
    if !Entry(pt, t, j).Valid() && pt.free != [] {
      TidyGrab(pt);
      TidyPut(Grab(pt), t, j, Word(pt.free[0], 0, TABLE));
      TidyTrans(pt, Grab(pt), EnsureL3(pt, i, j));
    }
  }

  lemma EnsurePathTidy(pt: PT, slot: map<nat, Slot>, i: nat, j: nat)
    requires Inv(pt, slot) && i < ENTRIES
    ensures Tidy(pt, EnsurePath(pt, i, j))
  {
    var a := EnsureL2(pt, i);
    var slot1 := EnsureL2Ok(pt, slot, i);
    EnsureL2Tidy(pt, i);
    if Entry(a, a.dir, i).Valid() {
      EnsureL3Tidy(a, slot1, i, j);
      TidyTrans(pt, a, EnsureL3(a, i, j));
    }
  }

  /** `map` gives nothing back. */
  lemma MapPageTidy(pt: PT, slot: map<nat, Slot>, i: nat, j: nat, k: nat, pa: nat, attrs: nat)
    requires Inv(pt, slot) && i < ENTRIES && j < ENTRIES && k < ENTRIES && !HasBlock(pt, i, j)
    ensures Tidy(pt, MapPage(pt, i, j, k, pa, attrs))
  {
    var b, q := EnsurePath(pt, i, j), MapPage(pt, i, j, k, pa, attrs);
    var slot1 := EnsurePathOk(pt, slot, i, j);
    EnsurePathTidy(pt, slot, i, j);
    var l1 := Entry(b, b.dir, i);
    if l1.Valid() && Entry(b, l1.pa, j).Valid() {
      var l2 := Entry(b, l1.pa, j);
      L2IsTable(b, slot1, i, j);
      assert L1Ok(b, slot1, i, l1);
      assert L2Ok(b, slot1, i, j, l2);
      TidyPut(b, l2.pa, k, Word(pa, attrs, TABLE));
      TidyTrans(pt, b, Put(b, l2.pa, k, Word(pa, attrs, TABLE)));
    }
  }

  lemma MapBlockTidy(pt: PT, slot: map<nat, Slot>, i: nat, j: nat, pa: nat, attrs: nat)
    requires Inv(pt, slot) && i < ENTRIES && j < ENTRIES
    ensures Tidy(pt, MapBlock(pt, i, j, pa, attrs))
  {
    var a := EnsureL2(pt, i);
    var slot1 := EnsureL2Ok(pt, slot, i);
    EnsureL2Tidy(pt, i);
    var l1 := Entry(a, a.dir, i);
    if l1.Valid() {
      assert L1Ok(a, slot1, i, l1);
      TidyPut(a, l1.pa, j, Word(pa, attrs, BLOCK));
      TidyTrans(pt, a, Put(a, l1.pa, j, Word(pa, attrs, BLOCK)));
    }
  }

  lemma PruneL2Tidy(pt: PT, slot: map<nat, Slot>, i: nat)
    requires Inv(pt, slot) && i < ENTRIES && Entry(pt, pt.dir, i).Valid()
    ensures Tidy(pt, PruneL2(pt, i))
  {
    var t := Entry(pt, pt.dir, i).pa;
    assert L1Ok(pt, slot, i, Entry(pt, pt.dir, i));
    if Empty(pt, t) {
      var a := Put(pt, pt.dir, i, ZERO);
      TidyPut(pt, pt.dir, i, ZERO);
      assert SameFrame(pt, a, t);
      SameEmpty(pt, a, t);
      TidyRelease(a, t);
      TidyTrans(pt, a, Release(a, t));
    }
  }

  lemma PruneL3Tidy(pt: PT, slot: map<nat, Slot>, i: nat, j: nat)
    requires Inv(pt, slot) && i < ENTRIES && j < ENTRIES && HasTable(pt, i, j)
    requires Empty(pt, Entry(pt, Entry(pt, pt.dir, i).pa, j).pa)
    ensures var t := Entry(pt, pt.dir, i).pa; var f := Entry(pt, t, j).pa;
      Tidy(pt, PruneL2(Release(Put(pt, t, j, ZERO), f), i))
  {
    var t := Entry(pt, pt.dir, i).pa;
    var f := Entry(pt, t, j).pa;
    var a := Put(pt, t, j, ZERO);
    assert L1Ok(pt, slot, i, Entry(pt, pt.dir, i));
    assert L2Ok(pt, slot, i, j, Entry(pt, t, j));
    var slot1 := ClearL2(pt, slot, i, j);
    ReleaseOk(a, slot1, f);
    var b := Release(a, f);
    TidyPut(pt, t, j, ZERO);
    assert SameFrame(pt, a, f);
    SameEmpty(pt, a, f);
    TidyRelease(a, f);
    TidyTrans(pt, a, b);
    assert Entry(b, b.dir, i) == Entry(a, a.dir, i);
    PruneL2Tidy(b, slot1, i);
    TidyTrans(pt, b, PruneL2(b, i));
  }

  lemma UnmapPageTidy(pt: PT, slot: map<nat, Slot>, i: nat, j: nat, k: nat)
    requires Inv(pt, slot) && i < ENTRIES && j < ENTRIES && k < ENTRIES && !HasBlock(pt, i, j)
    ensures Tidy(pt, UnmapPage(pt, i, j, k))
  {
    var l1 := Entry(pt, pt.dir, i);
    if l1.Valid() && Entry(pt, l1.pa, j).Valid() {
      var l2 := Entry(pt, l1.pa, j);
      L2IsTable(pt, slot, i, j);
      assert L1Ok(pt, slot, i, l1);
      assert L2Ok(pt, slot, i, j, l2);
      PutL3(pt, slot, i, j, k, ZERO);
      var a := Put(pt, l2.pa, k, ZERO);
      TidyPut(pt, l2.pa, k, ZERO);
      if Entry(pt, l2.pa, k).Valid() && Empty(a, l2.pa) {
        PruneL3Tidy(a, slot, i, j);
        TidyTrans(pt, a, UnmapPage(pt, i, j, k));
      }
    }
  }

  lemma UnmapBlockTidy(pt: PT, slot: map<nat, Slot>, i: nat, j: nat)
    requires Inv(pt, slot) && i < ENTRIES && j < ENTRIES
    ensures Tidy(pt, UnmapBlock(pt, i, j))
  {
    var l1 := Entry(pt, pt.dir, i);
    if l1.Valid() && Entry(pt, l1.pa, j).Valid() {
      assert L1Ok(pt, slot, i, l1);
      var slot1 := ClearL2(pt, slot, i, j);
      var a := Put(pt, l1.pa, j, ZERO);
      TidyPut(pt, l1.pa, j, ZERO);
      PruneL2Tidy(a, slot1, i);
      TidyTrans(pt, a, PruneL2(a, i));
    }
  }

  /** `unmap` removes exactly one page's translation, and leaves no level-3
      table there that maps nothing. */
  lemma UnmapPageOk(pt: PT, slot: map<nat, Slot>, i: nat, j: nat, k: nat) returns (slot': map<nat, Slot>)
    requires Inv(pt, slot) && i < ENTRIES && j < ENTRIES && k < ENTRIES && !HasBlock(pt, i, j)
    ensures var q := UnmapPage(pt, i, j, k);
      && Sound(pt, slot, q, slot') && PageSet(pt, q, i, j, k, None) && !HasBlock(q, i, j)
      && (HasTable(q, i, j) ==> SameBelow(pt, q, i, j) || exists z :: 0 <= z < ENTRIES && Walk(q, i, j, z) != None)
    ensures Released(pt, UnmapPage(pt, i, j, k))
  {
    slot' := UnmapPageWalks(pt, slot, i, j, k);
    UnmapPageTidy(pt, slot, i, j, k);
    TidyReleases(pt, UnmapPage(pt, i, j, k), slot');
  }

  lemma UnmapPageWalks(pt: PT, slot: map<nat, Slot>, i: nat, j: nat, k: nat) returns (slot': map<nat, Slot>)
    requires Inv(pt, slot) && i < ENTRIES && j < ENTRIES && k < ENTRIES && !HasBlock(pt, i, j)
    ensures var q := UnmapPage(pt, i, j, k);
      && Sound(pt, slot, q, slot') && PageSet(pt, q, i, j, k, None) && !HasBlock(q, i, j)
      && (HasTable(q, i, j) ==> SameBelow(pt, q, i, j) || exists z :: 0 <= z < ENTRIES && Walk(q, i, j, z) != None)
  {
    slot' := slot;
    var q := UnmapPage(pt, i, j, k);
    if Entry(pt, pt.dir, i).Valid() {
      L2IsTable(pt, slot, i, j);
      var l2 := Entry(pt, Entry(pt, pt.dir, i).pa, j);
      if l2.Valid() && Entry(pt, l2.pa, k).Valid() {
        PutL3(pt, slot, i, j, k, ZERO);
        var a := Put(pt, l2.pa, k, ZERO);
        if Empty(a, l2.pa) {
          slot' := PruneL3Ok(a, slot, i, j);
          forall x, y | 0 <= x < ENTRIES && 0 <= y < ENTRIES && (x, y) != (i, j) ensures SameBelow(pt, q, x, y) {
            assert SameBelow(pt, a, x, y) && SameBelow(a, q, x, y);
          }
        } else {
          NotEmpty(a, slot, i, j);
        }
      }
    }
  }

  /** A level-3 table that is not all zero maps some page. */
  lemma NotEmpty(pt: PT, slot: map<nat, Slot>, i: nat, j: nat)
    requires WF(pt, slot) && i < ENTRIES && j < ENTRIES && HasTable(pt, i, j)
    requires !Empty(pt, Entry(pt, Entry(pt, pt.dir, i).pa, j).pa)
    ensures exists z :: 0 <= z < ENTRIES && Walk(pt, i, j, z) != None
  {
    assert L1Ok(pt, slot, i, Entry(pt, pt.dir, i));
    assert L2Ok(pt, slot, i, j, Entry(pt, Entry(pt, pt.dir, i).pa, j));
    var f := Entry(pt, Entry(pt, pt.dir, i).pa, j).pa;
    var z :| 0 <= z < ENTRIES && Entry(pt, f, z) != ZERO;
    assert L3Ok(Entry(pt, f, z));
    assert Walk(pt, i, j, z) != None;
  }

  /** `unmap_2mb` removes exactly the 512 pages below (i, j); when a table hung
      there, its frame stays in `pages` without being reachable. */
  lemma UnmapBlockOk(pt: PT, slot: map<nat, Slot>, i: nat, j: nat) returns (slot': map<nat, Slot>)
    requires Inv(pt, slot) && i < ENTRIES && j < ENTRIES
    ensures var q := UnmapBlock(pt, i, j);
      && Inv(q, slot') && Conserves(pt, q) && BlockSet(pt, q, i, j, None)
      && !HasTable(q, i, j) && !HasBlock(q, i, j)
      && Leaked(q, slot') == Leaked(pt, slot) +
           if HasTable(pt, i, j) then {Entry(pt, Entry(pt, pt.dir, i).pa, j).pa} else {}
    ensures Released(pt, UnmapBlock(pt, i, j))
  {
    slot' := UnmapBlockWalks(pt, slot, i, j);
    UnmapBlockTidy(pt, slot, i, j);
    TidyReleases(pt, UnmapBlock(pt, i, j), slot');
  }

  lemma UnmapBlockWalks(pt: PT, slot: map<nat, Slot>, i: nat, j: nat) returns (slot': map<nat, Slot>)
    requires Inv(pt, slot) && i < ENTRIES && j < ENTRIES
    ensures var q := UnmapBlock(pt, i, j);
      && Inv(q, slot') && Conserves(pt, q) && BlockSet(pt, q, i, j, None)
      && !HasTable(q, i, j) && !HasBlock(q, i, j)
      && Leaked(q, slot') == Leaked(pt, slot) +
           if HasTable(pt, i, j) then {Entry(pt, Entry(pt, pt.dir, i).pa, j).pa} else {}
  {
    slot' := slot;
    var q := UnmapBlock(pt, i, j);
    if Entry(pt, pt.dir, i).Valid() {
      L2IsTable(pt, slot, i, j);
      var t := Entry(pt, pt.dir, i).pa;
      if Entry(pt, t, j).Valid() {
        var slot1 := ClearL2(pt, slot, i, j);
        var a := Put(pt, t, j, ZERO);
        assert Leaked(a, slot1) == Leaked(pt, slot) + if HasTable(pt, i, j) then {Entry(pt, t, j).pa} else {};
        slot' := PruneL2Ok(a, slot1, i);
        forall x, y | 0 <= x < ENTRIES && 0 <= y < ENTRIES && (x, y) != (i, j) ensures SameBelow(pt, q, x, y) {
          assert SameBelow(pt, a, x, y) && SameBelow(a, q, x, y);
        }
        assert SameBelow(a, q, i, j);
      }
    }
  }
}
