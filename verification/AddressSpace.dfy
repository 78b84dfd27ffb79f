/** The guest-physical address space a stage-2 table implements: a partial
    function from page numbers to leaves, the effect of every call on it, and
    the range operations built from single calls. */
module AddressSpace {
  import opened Wrappers
  import opened Descriptors
  import opened PageTable

  const PAGES := 0x800_0000       // 2^39 bytes of IPA in 4 KB pages
  const BLOCKS := 0x4_0000        // the same in 2 MB blocks

  /** Indices of the three levels, as the code extracts them from an address. */
  function Lvl1Idx(ipa: nat): nat { ipa / 0x4000_0000 % 512 }
  function Lvl2Idx(ipa: nat): nat { ipa / 0x20_0000 % 512 }
  function Lvl3Idx(ipa: nat): nat { ipa / 0x1000 % 512 }

  /** The translation of page v; v / 512 is its 2 MB block. */
  function View(pt: PT, v: nat): Option<Leaf> {
    Walk(pt, v / 512 / 512, v / 512 % 512, v % 512)
  }

  /** The address-level indices name page ipa / 4096 below 2^39. */
  lemma IndexSplit(ipa: nat)
    requires ipa < 0x80_0000_0000
    ensures ipa / 4096 < PAGES
    ensures Lvl1Idx(ipa) == ipa / 4096 / 512 / 512
    ensures Lvl2Idx(ipa) == ipa / 4096 / 512 % 512
    ensures Lvl3Idx(ipa) == ipa / 4096 % 512
  {
  }

  /** No level-3 table is linked without mapping some page. */
  ghost predicate NoHollow(pt: PT) {
    forall i, j :: 0 <= i < ENTRIES && 0 <= j < ENTRIES && HasTable(pt, i, j) ==> Busy(pt, i, j)
  }

  ghost predicate Busy(pt: PT, i: nat, j: nat) {
    exists z :: 0 <= z < ENTRIES && Walk(pt, i, j, z) != None
  }

  ghost predicate Good(pt: PT, slot: map<nat, Slot>) {
    Inv(pt, slot) && NoHollow(pt)
  }

  // ------------------------------------------------------------------ operations

  datatype Op =
    | MapP(v: nat, pa: nat, attrs: nat)   // map
    | UnmapP(v: nat)                      // unmap
    | MapB(b: nat, pa: nat, attrs: nat)   // map_2mb
    | UnmapB(b: nat)                      // unmap_2mb
    | SetAp(v: nat, ap: nat)              // one iteration of access_permission

  predicate InRange(op: Op) {
    match op
    case MapP(v, _, _) => v < PAGES
    case UnmapP(v) => v < PAGES
    case MapB(b, _, _) => b < BLOCKS
    case UnmapB(b) => b < BLOCKS
    case SetAp(v, ap) => v < PAGES
  }

  predicate InBlock(pt: PT, v: nat) { HasBlock(pt, v / 512 / 512, v / 512 % 512) }

  /** The caller's side: a 4 KB call never lands inside a 2 MB block. */
  predicate Legal(pt: PT, op: Op) {
    InRange(op) && (op.MapP? || op.UnmapP? ==> !InBlock(pt, op.v))
  }

  /** Rewrites the permission of the leaf at page v, if there is one. */
  function SetPageAp(pt: PT, i: nat, j: nat, k: nat, ap: nat): PT {
    var l1 := Entry(pt, pt.dir, i);
    if !l1.Valid() then pt else
    var l2 := Entry(pt, l1.pa, j);
    if !l2.Valid() then pt
    else if l2.kind == BLOCK then Put(pt, l1.pa, j, l2.(attrs := WithAp(l2.attrs, ap))) else
    var l3 := Entry(pt, l2.pa, k);
    if !l3.Valid() then pt else Put(pt, l2.pa, k, l3.(attrs := WithAp(l3.attrs, ap)))
  }

  function Apply(pt: PT, op: Op): PT {
    match op
    case MapP(v, pa, attrs) => MapPage(pt, v / 512 / 512, v / 512 % 512, v % 512, pa, attrs)
    case UnmapP(v) => UnmapPage(pt, v / 512 / 512, v / 512 % 512, v % 512)
    case MapB(b, pa, attrs) => MapBlock(pt, b / 512, b % 512, pa, attrs)
    case UnmapB(b) => UnmapBlock(pt, b / 512, b % 512)
    case SetAp(v, ap) => SetPageAp(pt, v / 512 / 512, v / 512 % 512, v % 512, ap)
  }

  // ---------------------------------------------------------------- the abstract

  /** What the caller cannot see in the translations: whether the heap could
      supply the tables, and whether a page lies in a 2 MB block. */
  datatype Hidden = Hidden(frames: bool, block: bool)

  function Hide(pt: PT, op: Op): Hidden {
    match op
    case MapP(v, _, _) => Hidden(Granted(pt, v / 512 / 512, v / 512 % 512), false)
    case MapB(b, _, _) => Hidden(Entry(pt, pt.dir, b / 512).Valid() || pt.free != [], true)
    case SetAp(v, _) => Hidden(true, InBlock(pt, v))
    case _ => Hidden(true, false)
  }

  ghost function Space(pt: PT): map<nat, Leaf> {
    map v | 0 <= v < PAGES && View(pt, v) != None :: View(pt, v).value
  }

  predicate Within(b: nat, v: nat) { v / 512 == b }

  function Permit(l: Leaf, ap: nat): Leaf { l.(attrs := WithAp(l.attrs, ap)) }

  function Permitted(r: Option<Leaf>, ap: nat): Option<Leaf> {
    if r == None then None else Some(Permit(r.value, ap))
  }

  /** The same call on a partial function from page numbers to leaves. */
  ghost function Abstract(m: map<nat, Leaf>, op: Op, h: Hidden): map<nat, Leaf> {
    match op
    case MapP(v, pa, attrs) => if v in m || !h.frames then m else m[v := Leaf(pa, attrs)]
    case UnmapP(v) => m - {v}
    case MapB(b, pa, attrs) =>
      if !h.frames || exists v :: v in m && Within(b, v) then m else
      m + map v: nat | 512 * b <= v < 512 * b + 512 && Within(b, v) :: Leaf(pa + v % 512 * PAGE_SIZE, attrs)
    case UnmapB(b) => map v | v in m && !Within(b, v) :: m[v]
    case SetAp(v, ap) =>
      map u | u in m :: if u == v || (h.block && u / 512 == v / 512) then Permit(m[u], ap) else m[u]
  }

  // ------------------------------------------------------------ one call refines

  lemma PageSetView(a: PT, b: PT, v: nat, r: Option<Leaf>)
    requires v < PAGES && PageSet(a, b, v / 512 / 512, v / 512 % 512, v % 512, r)
    ensures forall u :: 0 <= u < PAGES ==> View(b, u) == if u == v then r else View(a, u)
  {
    forall u | 0 <= u < PAGES ensures View(b, u) == if u == v then r else View(a, u) {
      assert (u / 512 / 512, u / 512 % 512) != (v / 512 / 512, v / 512 % 512) ==>
        SameBelow(a, b, u / 512 / 512, u / 512 % 512);
    }
  }

  lemma BlockSetView(a: PT, b: PT, n: nat, r: Option<Leaf>)
    requires n < BLOCKS && BlockSet(a, b, n / 512, n % 512, r)
    ensures forall u :: 0 <= u < PAGES ==> View(b, u) == if u / 512 == n then Nth(r, u % 512) else View(a, u)
  {
    forall u | 0 <= u < PAGES ensures View(b, u) == if u / 512 == n then Nth(r, u % 512) else View(a, u) {
      assert (u / 512 / 512, u / 512 % 512) != (n / 512, n % 512) ==> SameBelow(a, b, u / 512 / 512, u / 512 % 512);
    }
  }

  lemma SameSpaceView(a: PT, b: PT)
    requires SameSpace(a, b)
    ensures forall u :: 0 <= u < PAGES ==> View(b, u) == View(a, u)
  {
    forall u | 0 <= u < PAGES ensures View(b, u) == View(a, u) {
      assert SameBelow(a, b, u / 512 / 512, u / 512 % 512);
    }
  }

  /** Permission changes keep the output address and the granularity. */
  lemma SetPageApOk(pt: PT, slot: map<nat, Slot>, i: nat, j: nat, k: nat, ap: nat)
    requires Inv(pt, slot) && i < ENTRIES && j < ENTRIES && k < ENTRIES
    ensures var q := SetPageAp(pt, i, j, k, ap);
      && Sound(pt, slot, q, slot) && SameBut(pt, q, i, j)
      && HasTable(q, i, j) == HasTable(pt, i, j) && HasBlock(q, i, j) == HasBlock(pt, i, j)
      && (forall z :: 0 <= z < ENTRIES ==>
            Walk(q, i, j, z) == if z == k || HasBlock(pt, i, j) then Permitted(Walk(pt, i, j, z), ap)
              else Walk(pt, i, j, z))
  {
    if Entry(pt, pt.dir, i).Valid() {
      var l2 := Entry(pt, Entry(pt, pt.dir, i).pa, j);
      L2IsTable(pt, slot, i, j);
      if l2.kind == BLOCK {
        PutBlock(pt, slot, i, j, l2.(attrs := WithAp(l2.attrs, ap)));
      } else if l2.Valid() && Entry(pt, l2.pa, k).Valid() {
        PageEntry(pt, slot, i, j, k);
        PutL3(pt, slot, i, j, k, Entry(pt, l2.pa, k).(attrs := WithAp(Entry(pt, l2.pa, k).attrs, ap)));
      }
    }
  }

  lemma PageEntry(pt: PT, slot: map<nat, Slot>, i: nat, j: nat, k: nat)
    requires Inv(pt, slot) && i < ENTRIES && j < ENTRIES && k < ENTRIES && HasTable(pt, i, j)
    ensures L3Ok(Entry(pt, Entry(pt, Entry(pt, pt.dir, i).pa, j).pa, k))
  {
    assert L1Ok(pt, slot, i, Entry(pt, pt.dir, i));
    assert L2Ok(pt, slot, i, j, Entry(pt, Entry(pt, pt.dir, i).pa, j));
  }

  /** Tables away from (i, j) stay busy. */
  lemma StaysBusy(a: PT, b: PT, i: nat, j: nat)
    requires NoHollow(a) && SameBut(a, b, i, j) && (HasTable(b, i, j) ==> Busy(b, i, j))
    ensures NoHollow(b)
  {
    forall x, y | 0 <= x < ENTRIES && 0 <= y < ENTRIES && HasTable(b, x, y) ensures Busy(b, x, y) {
      if (x, y) != (i, j) {
        assert SameBelow(a, b, x, y);
        var z :| 0 <= z < ENTRIES && Walk(a, x, y, z) != None;
        assert Walk(b, x, y, z) != None;
      }
    }
  }

  /** Frames that `Apply` makes unreachable while still owning them. */
  ghost function Orphans(pt: PT, op: Op): set<nat> {
    if op.UnmapB? && HasTable(pt, op.b / 512, op.b % 512)
    then {Entry(pt, Entry(pt, pt.dir, op.b / 512).pa, op.b % 512).pa} else {}
  }

  ghost predicate Refines(pt: PT, slot: map<nat, Slot>, op: Op, slot': map<nat, Slot>) {
    var q := Apply(pt, op);
    && Good(q, slot') && Conserves(pt, q)
    && Leaked(q, slot') == Leaked(pt, slot) + Orphans(pt, op)
    && Space(q) == Abstract(Space(pt), op, Hide(pt, op))
  }

  /** Two translations with the same domain and leaves are the same space. */
  lemma SpaceIs(pt: PT, m: map<nat, Leaf>)
    requires forall v :: v in m ==> v < PAGES
    requires forall v :: 0 <= v < PAGES ==> View(pt, v) == if v in m then Some(m[v]) else None
    ensures Space(pt) == m
  {
  }

  lemma MapPSpace(pt: PT, q: PT, op: Op)
    requires op.MapP? && op.v < PAGES
    requires forall u :: 0 <= u < PAGES ==>
      View(q, u) == if u == op.v && View(pt, u) == None && Hide(pt, op).frames then Some(Leaf(op.pa, op.attrs))
        else View(pt, u)
    ensures Space(q) == Abstract(Space(pt), op, Hide(pt, op))
  {
    SpaceIs(q, Abstract(Space(pt), op, Hide(pt, op)));
  }

  lemma MapPRefines(pt: PT, slot: map<nat, Slot>, op: Op) returns (slot': map<nat, Slot>)
    requires Good(pt, slot) && Legal(pt, op) && op.MapP?
    ensures Refines(pt, slot, op, slot')
  {
    var i, j, k := op.v / 512 / 512, op.v / 512 % 512, op.v % 512;
    slot' := MapPageOk(pt, slot, i, j, k, op.pa, op.attrs);
    var q := Apply(pt, op);
    assert NoHollow(q) by {
      if HasTable(q, i, j) {
        assert Walk(q, i, j, k) != None;
        assert Busy(q, i, j);
      }
      StaysBusy(pt, q, i, j);
    }
    PageSetView(pt, q, op.v,
      if Walk(pt, i, j, k) == None && Granted(pt, i, j) then Some(Leaf(op.pa, op.attrs)) else Walk(pt, i, j, k));
    MapPSpace(pt, q, op);
  }

  lemma UnmapPRefines(pt: PT, slot: map<nat, Slot>, op: Op) returns (slot': map<nat, Slot>)
    requires Good(pt, slot) && Legal(pt, op) && op.UnmapP?
    ensures Refines(pt, slot, op, slot')
  {
    var i, j, k := op.v / 512 / 512, op.v / 512 % 512, op.v % 512;
    slot' := UnmapPageOk(pt, slot, i, j, k);
    var q := Apply(pt, op);
    assert NoHollow(q) by {
      if HasTable(q, i, j) && SameBelow(pt, q, i, j) {
        var z :| 0 <= z < ENTRIES && Walk(pt, i, j, z) != None;
        assert Walk(q, i, j, z) != None;
      }
      StaysBusy(pt, q, i, j);
    }
    PageSetView(pt, q, op.v, None);
    SpaceIs(q, Abstract(Space(pt), op, Hide(pt, op)));
  }

  lemma MapBSpace(pt: PT, q: PT, op: Op)
    requires op.MapB? && op.b < BLOCKS && Hide(pt, op).frames
    requires forall u :: 0 <= u < PAGES && Within(op.b, u) ==> View(pt, u) == None
    requires forall u :: 0 <= u < PAGES ==>
      View(q, u) == if Within(op.b, u) then Nth(Some(Leaf(op.pa, op.attrs)), u % 512) else View(pt, u)
    ensures Space(q) == Abstract(Space(pt), op, Hide(pt, op))
  {
    SpaceIs(q, Abstract(Space(pt), op, Hide(pt, op)));
  }

  lemma MapBRefines(pt: PT, slot: map<nat, Slot>, op: Op) returns (slot': map<nat, Slot>)
    requires Good(pt, slot) && Legal(pt, op) && op.MapB?
    ensures Refines(pt, slot, op, slot')
  {
    var i, j := op.b / 512, op.b % 512;
    slot' := MapBlockOk(pt, slot, i, j, op.pa, op.attrs);
    var q := Apply(pt, op);
    if BlockGranted(pt, i, j) {
      StaysBusy(pt, q, i, j);
      L2Vacant(pt, slot, op.b);
      BlockSetView(pt, q, op.b, Some(Leaf(op.pa, op.attrs)));
      MapBSpace(pt, q, op);
    } else {
      BlockRefused(pt, q, op);
    }
  }

  lemma BlockRefused(pt: PT, q: PT, op: Op)
    requires NoHollow(pt) && SameSpace(pt, q) && op.MapB? && op.b < BLOCKS
    requires !BlockGranted(pt, op.b / 512, op.b % 512)
    ensures NoHollow(q) && Space(q) == Abstract(Space(pt), op, Hide(pt, op))
  {
    SameSpaceView(pt, q);
    SpaceIs(q, Space(pt));
    SameSpaceBusy(pt, q);
    if Hide(pt, op).frames {
      BlockOccupied(pt, op.b);
    }
  }

  lemma SameSpaceBusy(a: PT, b: PT)
    requires NoHollow(a) && SameSpace(a, b)
    ensures NoHollow(b)
  {
    assert SameBelow(a, b, 0, 0);
    if HasTable(b, 0, 0) {
      var z :| 0 <= z < ENTRIES && Walk(a, 0, 0, z) != None;
      assert Walk(b, 0, 0, z) != None;
    }
    StaysBusy(a, b, 0, 0);
  }

  lemma L2Vacant(pt: PT, slot: map<nat, Slot>, b: nat)
    requires Inv(pt, slot) && b < BLOCKS && !HasBlock(pt, b / 512, b % 512) && !HasTable(pt, b / 512, b % 512)
    ensures forall u :: 0 <= u < PAGES && Within(b, u) ==> View(pt, u) == None
  {
    if Entry(pt, pt.dir, b / 512).Valid() {
      L2IsTable(pt, slot, b / 512, b % 512);
    }
  }

  /** A level-2 entry in use shows in the translations. */
  lemma BlockOccupied(pt: PT, b: nat)
    requires NoHollow(pt) && b < BLOCKS && (HasBlock(pt, b / 512, b % 512) || HasTable(pt, b / 512, b % 512))
    ensures exists v :: v in Space(pt) && Within(b, v)
  {
    var z :| 0 <= z < ENTRIES && Walk(pt, b / 512, b % 512, z) != None by {
      if HasBlock(pt, b / 512, b % 512) {
        assert Walk(pt, b / 512, b % 512, 0) != None;
      } else {
        assert Busy(pt, b / 512, b % 512);
      }
    }
    var v := 512 * b + z;
    assert v / 512 == b && v % 512 == z;
    assert v in Space(pt) && Within(b, v);
  }

  lemma UnmapBRefines(pt: PT, slot: map<nat, Slot>, op: Op) returns (slot': map<nat, Slot>)
    requires Good(pt, slot) && Legal(pt, op) && op.UnmapB?
    ensures Refines(pt, slot, op, slot')
  {
    var i, j := op.b / 512, op.b % 512;
    slot' := UnmapBlockOk(pt, slot, i, j);
    var q := Apply(pt, op);
    StaysBusy(pt, q, i, j);
    BlockSetView(pt, q, op.b, None);
    UnmapBSpace(pt, q, op);
  }

  lemma UnmapBSpace(pt: PT, q: PT, op: Op)
    requires op.UnmapB?
    requires forall u :: 0 <= u < PAGES ==> View(q, u) == if Within(op.b, u) then None else View(pt, u)
    ensures Space(q) == Abstract(Space(pt), op, Hide(pt, op))
  {
    SpaceIs(q, Abstract(Space(pt), op, Hide(pt, op)));
  }

  lemma SetApRefines(pt: PT, slot: map<nat, Slot>, op: Op)
    requires Good(pt, slot) && Legal(pt, op) && op.SetAp?
    ensures Refines(pt, slot, op, slot)
  {
    var i, j, k := op.v / 512 / 512, op.v / 512 % 512, op.v % 512;
    SetPageApOk(pt, slot, i, j, k, op.ap);
    var q := Apply(pt, op);
    assert NoHollow(q) by {
      if HasTable(q, i, j) {
        var z :| 0 <= z < ENTRIES && Walk(pt, i, j, z) != None;
        assert Walk(q, i, j, z) != None;
      }
      StaysBusy(pt, q, i, j);
    }
    forall u | 0 <= u < PAGES
      ensures View(q, u) == if u == op.v || (InBlock(pt, op.v) && u / 512 == op.v / 512)
                            then Permitted(View(pt, u), op.ap) else View(pt, u)
    {
      assert u / 512 != op.v / 512 ==> SameBelow(pt, q, u / 512 / 512, u / 512 % 512);
    }
    SetApSpace(pt, q, op);
  }

  lemma SetApSpace(pt: PT, q: PT, op: Op)
    requires op.SetAp?
    requires forall u :: 0 <= u < PAGES ==>
      View(q, u) == if u == op.v || (InBlock(pt, op.v) && u / 512 == op.v / 512) then Permitted(View(pt, u), op.ap)
        else View(pt, u)
    ensures Space(q) == Abstract(Space(pt), op, Hide(pt, op))
  {
    SpaceIs(q, Abstract(Space(pt), op, Hide(pt, op)));
  }

  /** Every call changes the translations exactly as the abstract call does. */
  lemma CallRefines(pt: PT, slot: map<nat, Slot>, op: Op) returns (slot': map<nat, Slot>)
    requires Good(pt, slot) && Legal(pt, op)
    ensures Refines(pt, slot, op, slot')
  {
    match op
    case MapP(_, _, _) => slot' := MapPRefines(pt, slot, op);
    case UnmapP(_) => slot' := UnmapPRefines(pt, slot, op);
    case MapB(_, _, _) => slot' := MapBRefines(pt, slot, op);
    case UnmapB(_) => slot' := UnmapBRefines(pt, slot, op);
    case SetAp(_, _) => slot' := slot; SetApRefines(pt, slot, op);
  }
}
