/** `fdt_setprop`: replace a property's value, or add the property with its name. */
module FdtSetProp {
  import opened Wrappers
  import opened FdtTokens
  import opened FdtNames
  import opened FdtBlob
  import opened FdtWalk
  import opened FdtEdit
  import opened FdtProps
  import opened Seqs

  // --------------------------------------------------------------------- strings

  /** Every property's name is in the strings block. */
  predicate Resolved(its: seq<Item>)
    decreases |its|
  {
    its == [] || ((its[0].Property? ==> its[0].pname.Some?) && Resolved(its[1..]))
  }

  lemma StringExtends(s: bytes, u: bytes, p: nat)
    requires StringFrom(s, p).Some?
    ensures StringFrom(s + u, p) == StringFrom(s, p)
  {
    var v, z := s + u, Nul(s, p, |s|);
    NulIsFirst(s, p, |s|);
    ConcatAt(s, u);
    KeptBefore(s, v, |s|, p, z);
    NulMoves(s, p, z, v, p, z);
    NulAt(v, p, |v|, z);
  }

  /** A string put behind the others changes no name. */
  lemma {:induction false} NamesExtend(ts: seq<Token>, s: bytes, u: bytes)
    requires Resolved(AllNamed(ts, s, 0))
    ensures AllNamed(ts, s + u, 0) == AllNamed(ts, s, 0)
    decreases |ts|
  {
    if ts != [] {
      var it, its := Named(ts[0], s, 0), AllNamed(ts[1..], s, 0);
      ConcatAt([it], its);
      NamesExtend(ts[1..], s, u);
      if ts[0].Prop? { StringExtends(s, u, Add32(ts[0].nameoff, 0)); }
    }
  }

  /** Bytes put behind the strings block, not yet part of it. */
  ghost function Behind(x: Image, u: bytes): (y: Image)
    requires x.Fits() && x.p + x.s + |u| <= x.e
    ensures y.Fits()
  {
    x.(b := Write(x.b, x.p + x.s, u))
  }

  lemma BehindOk(x: Image, u: bytes)
    requires x.Valid() && x.p + x.s + |u| <= x.e
    ensures Behind(x, u).Valid() && Behind(x, u).Items() == x.Items() && Behind(x, u).Strings() == x.Strings()
    ensures Tokens(Behind(x, u).b, x.i, x.j) == Tokens(x.b, x.i, x.j)
    ensures FrontKept(x, Behind(x, u), x.Count())
  {
    var y := Behind(x, u);
    Wrote(x.b, x.p + x.s, u);
    KeptBefore(x.b, y.b, x.p + x.s, x.i, x.j);
    TokensMove(x.b, x.i, x.j, y.b, x.i, x.j);
    KeptBefore(x.b, y.b, x.p + x.s, x.p, x.p + x.s);
    forall n: nat | n <= x.Count() ensures y.At(n) == x.At(n) { OffsetMoves(x.b, y.b, x.i, x.j, n); }
  }

  /** Then part of it. */
  ghost function WithString(x: Image, u: bytes): (y: Image)
    requires x.Fits() && x.p + x.s + |u| <= x.e
    ensures y.Fits()
  {
    Behind(x, u).(s := x.s + |u|)
  }

  lemma WithStringStrings(x: Image, u: bytes)
    requires x.Fits() && x.p + x.s + |u| <= x.e
    ensures WithString(x, u).Strings() == x.Strings() + u
  {
    var y := WithString(x, u);
    Wrote(x.b, x.p + x.s, u);
    KeptBefore(x.b, y.b, x.p + x.s, x.p, x.p + x.s);
    JoinSlices(y.b, x.p, x.p + x.s, x.p + x.s + |u|);
  }

  lemma WithStringOk(x: Image, u: bytes)
    requires x.Valid() && x.p + x.s + |u| <= x.e && Resolved(x.Items())
    ensures WithString(x, u).Valid() && WithString(x, u).Items() == x.Items()
    ensures Tokens(WithString(x, u).b, x.i, x.j) == Tokens(x.b, x.i, x.j)
    ensures FrontKept(x, WithString(x, u), x.Count())
  {
    BehindOk(x, u);
    WithStringStrings(x, u);
    NamesExtend(Tokens(x.b, x.i, x.j).value, x.Strings(), u);
    forall n: nat | n <= x.Count() ensures WithString(x, u).At(n) == x.At(n) { assert Behind(x, u).At(n) == x.At(n); }
  }

  /** `fdt_splice_string_`. */
  method SpliceString(f: Blob, len: nat) returns (err: int)
    requires State(f).Fits()
    modifies f, f.buf
    ensures f.buf == old(f.buf)
    ensures err == if old(f.offStrings + f.sizeStrings) + len > old(f.total) then NOSPACE else 0
    ensures State(f) == if err == 0 then old(State(f)).(s := old(f.sizeStrings) + len) else old(State(f))
  {
    err := Splice(f, f.offStrings + f.sizeStrings, 0, len);
    if err == 0 { f.sizeStrings := f.sizeStrings + len; }
  }

  /** `fdt_find_add_string_` of the read-write library. */
  method FindAddString(f: Blob, name: bytes) returns (err: int, at: nat, grown: bool)
    requires State(f).Fits() && CString(name)
    modifies f, f.buf
    ensures f.buf == old(f.buf)
    ensures grown == !Present(old(State(f).Strings()), name)
    ensures err == if old(f.offStrings + f.sizeStrings) + |NewString(name, grown)| > old(f.total) then NOSPACE else 0
    ensures err != 0 ==> State(f) == old(State(f))
    ensures err == 0 ==> State(f) == WithString(old(State(f)), NewString(name, grown))
    ensures err == 0 ==> at < f.sizeStrings && StringFrom(State(f).Strings(), at) == Some(name)
  {
    ghost var x := State(f);
    ghost var strs := x.Strings();
    var found, p := FindString(f.buf[f.offStrings..f.offStrings + f.sizeStrings], name);
    if found {
      StringHere(strs, p, name);
      return 0, p, false;
    }
    grown, at := true, f.sizeStrings;
    var end := f.offStrings + f.sizeStrings;
    err := SpliceString(f, |name| + 1);
    if err != 0 { return; }
    f.Store(end, name + [0]);
    WithStringStrings(x, name + [0]);
    BackName(strs, name);
  }

  lemma BackName(s: bytes, name: bytes)
    requires CString(name)
    ensures StringFrom(s + (name + [0]), |s|) == Some(name)
  {
    ConcatAt(s, name + [0]);
    StringHere(s + (name + [0]), |s|, name);
  }

  // ------------------------------------------------------------------- insertion

  /** One token put in front of token k. */
  lemma {:induction false} InsertOk(x: Image, y: Image, z: Image, k: nat, data: bytes, len: nat, t: Token)
    requires x.Valid() && k <= x.Count() && Spliced(x, y, x.At(k), 0, len) && Spells(data, len, t)
    requires x.At(k) + len <= y.j && z == y.(b := Write(y.b, x.At(k), data))
    ensures z.Valid() && z.Items() == x.Items()[..k] + [Named(t, x.Strings(), 0)] + x.Items()[k..] && FrontKept(x, z, k)
  {
    var o := x.At(k);
    Wrote(y.b, o, data);
    KeptAfter(y.b, z.b, o + |data|, o + len, y.p + y.s);
    assert Spliced(x, z, o, x.At(k) - o, len);
    EditOk(x, z, k, k, len, [t]);
  }

  /** The new property is the node's first. */
  function Inserted(its: seq<Item>, k: nat, name: bytes, val: bytes): seq<Item>
    requires k < |its|
  {
    its[..k + 1] + [Property(Some(name), val)] + its[k + 1..]
  }

  lemma PropInsertOk(x: Image, y: Image, z: Image, k: nat, data: bytes, at: nat, name: bytes, val: bytes)
    requires x.Valid() && k < x.Count() && Spliced(x, y, x.At(k + 1), 0, 12 + Align4(|val|))
    requires at < x.s && StringFrom(x.Strings(), at) == Some(name) && Spells(data, 12 + Align4(|val|), Prop(at, val))
    requires z == y.(b := Write(y.b, x.At(k + 1), data))
    ensures z.Valid() && z.Items() == Inserted(x.Items(), k, name, val) && FrontKept(x, z, k + 1)
  {
    InsertOk(x, y, z, k + 1, data, 12 + Align4(|val|), Prop(at, val));
  }

  /** Space for a property at o, and its bytes, once its name is in place. */
  method PlaceProperty(f: Blob, o: nat, at: nat, val: bytes, ghost name: bytes, ghost k: nat) returns (err: int)
    requires State(f).Valid() && k < State(f).Count() && o == State(f).At(k + 1) && |val| <= INT_MAX
    requires at < f.sizeStrings && StringFrom(State(f).Strings(), at) == Some(name)
    modifies f, f.buf
    ensures f.buf == old(f.buf)
    ensures err == if old(f.offStrings + f.sizeStrings) + (12 + Align4(|val|)) > old(f.total) then NOSPACE else 0
    ensures err != 0 ==> State(f) == old(State(f))
    ensures err == 0 ==> State(f).Valid() && State(f).Items() == Inserted(old(State(f).Items()), k, name, val)
    ensures err == 0 ==> FrontKept(old(State(f)), State(f), k + 1)
  {
    ghost var x := State(f);
    var data := PropertyBytes(at, val);
    err := SpliceStruct(f, o, 0, 12 + Align4(|val|));
    if err == 0 {
      ghost var y := State(f);
      f.Store(o, data);
      PropInsertOk(x, y, State(f), k, data, at, name, val);
    }
  }

  /** The same, with the string taken back when there is no space. */
  method PlaceOrRollBack(f: Blob, o: nat, at: nat, val: bytes, name: bytes, grown: bool, ghost x: Image, ghost k: nat)
      returns (err: int)
    requires x.Valid() && Resolved(x.Items()) && x.p + x.s + |NewString(name, grown)| <= x.e
    requires State(f) == WithString(x, NewString(name, grown))
    requires k < x.Count() && o == x.At(k + 1) && |val| <= INT_MAX
    requires at < f.sizeStrings && StringFrom(State(f).Strings(), at) == Some(name)
    modifies f, f.buf
    ensures f.buf == old(f.buf)
    ensures err == if x.p + x.s + |NewString(name, grown)| + (12 + Align4(|val|)) > x.e then NOSPACE else 0
    ensures err != 0 ==>
      State(f) == Behind(x, NewString(name, grown)) && State(f).Valid() && State(f).Items() == x.Items()
    ensures err == 0 ==> State(f).Valid() && State(f).Items() == Inserted(x.Items(), k, name, val)
    ensures FrontKept(x, State(f), k + 1)
  {
    ghost var u := NewString(name, grown);
    ghost var w := WithString(x, u);
    WithStringOk(x, u);
    FrontLess(x, w, x.Count(), k + 1);
    assert w.At(k + 1) == x.At(k + 1);
    err := PlaceProperty(f, o, at, val, name, k);
    if err != 0 {
      if grown { f.sizeStrings := f.sizeStrings - (|name| + 1); }
      BehindOk(x, u);
      FrontLess(x, State(f), x.Count(), k + 1);
    } else {
      FrontTrans(x, w, State(f), k + 1);
    }
  }

  /** `fdt_add_property_`. */
  method AddProperty(f: Blob, nodeoffset: nat, name: bytes, val: bytes, ghost k: nat) returns (err: int, grown: bool)
    requires Complete(f) && Cursor(f, nodeoffset, k) && k < |Items(f)| && Items(f)[k].Open?
    requires CString(name) && |val| <= INT_MAX && Resolved(Items(f))
    modifies f, f.buf
    ensures f.buf == old(f.buf)
    ensures grown == !Present(old(State(f).Strings()), name)
    ensures err
      == if old(f.offStrings + f.sizeStrings) + |NewString(name, grown)| + (12 + Align4(|val|)) > old(f.total)
        then NOSPACE else 0
    ensures Complete(f) && Items(f) == if err == 0 then Inserted(old(Items(f)), k, name, val) else old(Items(f))
    ensures err != 0 ==>
      f.sizeStruct == old(f.sizeStruct) && f.offStrings == old(f.offStrings) && f.sizeStrings == old(f.sizeStrings)
    ensures FrontKept(old(State(f)), State(f), k)
  {
    ghost var x := State(f);
    FrontRefl(x, k + 1);
    var next := CheckNodeOffset(f, nodeoffset, k);
    var at;
    err, at, grown := FindAddString(f, name);
    if err == 0 { err := PlaceOrRollBack(f, f.offStruct + next, at, val, name, grown, x, k); }
    FrontLess(x, State(f), k + 1, k);
  }

  /** What a node's lookup finds. */
  function Lookup(its: seq<Item>, k: nat, name: bytes): Found {
    if k < |its| && its[k].Open? then Find(its, k + 1, name) else Broken
  }

  /** What setting the property makes of the items: the first property of that
      name has the new value, or a new one is the node's first. */
  function Set(its: seq<Item>, k: nat, name: bytes, val: bytes): seq<Item> {
    if Lookup(its, k, name).Here? then Replaced(its, Lookup(its, k, name).at, val)
    else if Lookup(its, k, name).Missing? then Inserted(its, k, name, val)
    else its
  }

  /** The buffer cannot take the new value: in place of the old one, or as a new
      property with, if need be, its name. */
  ghost predicate Short(x: Image, k: nat, name: bytes, val: bytes)
    requires x.Valid()
  {
    match Lookup(x.Items(), k, name)
    case Here(q) => q < |x.Items()| && x.Items()[q].Property?
      && x.p + x.s - Align4(|x.Items()[q].val|) + Align4(|val|) > x.e
    case Missing => x.p + x.s + |NewString(name, !Present(x.Strings(), name))| + (12 + Align4(|val|)) > x.e
    case _ => false
  }

  /** `fdt_setprop`. */
  method SetProp(f: Blob, nodeoffset: nat, name: bytes, val: bytes, ghost k: nat) returns (err: int)
    requires Complete(f) && Cursor(f, nodeoffset, k) && CString(name) && |val| <= INT_MAX && Resolved(Items(f))
    modifies f, f.buf
    ensures f.buf == old(f.buf) && Complete(f)
    ensures Items(f) == if err == 0 then Set(old(Items(f)), k, name, val) else old(Items(f))
    ensures err == 0 <==> !old(Lookup(Items(f), k, name)).Broken? && !old(Short(State(f), k, name, val))
    ensures err != 0 ==>
      f.sizeStruct == old(f.sizeStruct) && f.offStrings == old(f.offStrings) && f.sizeStrings == old(f.sizeStrings)
    ensures err != 0 && !old(Lookup(Items(f), k, name)).Broken? ==> err == NOSPACE
    ensures f.total == old(f.total) && f.offStruct == old(f.offStruct)
    ensures FrontKept(old(State(f)), State(f), k) && Cursor(f, nodeoffset, k)
  {
    ghost var its, x := Items(f), State(f);
    FrontRefl(x, k);
    var res := GetProperty(f, nodeoffset, name, k);
    if res >= 0 {
      err := ResizeProperty(f, res, val, Find(its, k + 1, name).at);
      FrontLess(x, State(f), Find(its, k + 1, name).at, k);
    } else if res == NOTFOUND {
      var grown;
      err, grown := AddProperty(f, nodeoffset, name, val, k);
    } else {
      err := res;
    }
    CursorKept(f, x, nodeoffset, k, k);
  }

  /** Setting a property and looking it up: the lookup finds it, with those bytes,
      and the names still resolve for the next call. */
  method SetAndGet(f: Blob, nodeoffset: nat, name: bytes, val: bytes, ghost k: nat) returns (err: int, res: int)
    requires Complete(f) && Cursor(f, nodeoffset, k) && CString(name) && |val| <= INT_MAX && Resolved(Items(f))
    modifies f, f.buf
    ensures f.buf == old(f.buf) && Complete(f) && Cursor(f, nodeoffset, k) && Resolved(Items(f))
    ensures err == 0 <==> !old(Lookup(Items(f), k, name)).Broken? && !old(Short(State(f), k, name, val))
    ensures err == 0 ==>
      var q := Lookup(Items(f), k, name); q.Here? && Cursor(f, res, q.at) && Items(f)[q.at] == Property(Some(name), val)
  {
    ghost var its := Items(f);
    err := SetProp(f, nodeoffset, name, val, k);
    SetResolved(its, k, name, val);
    if err == 0 { SetReadsBack(its, k, name, val); }
    res := GetProperty(f, nodeoffset, name, k);
  }

  /** The property then reads back as the value given. */
  lemma SetReadsBack(its: seq<Item>, k: nat, name: bytes, val: bytes)
    requires !Lookup(its, k, name).Broken?
    ensures var now := Set(its, k, name, val);
      Lookup(now, k, name).Here? && now[Lookup(now, k, name).at] == Property(Some(name), val)
  {
    var r, now := Lookup(its, k, name), Set(its, k, name, val);
    if r.Here? {
      assert now[k] == its[k];
      FindSame(its, now, k + 1, r.at, name);
    } else {
      assert now[k] == its[k] && now[k + 1] == Property(Some(name), val);
    }
  }

  lemma {:induction false} FindSame(its: seq<Item>, now: seq<Item>, k: nat, q: nat, name: bytes)
    requires k <= q < |its| == |now| && Find(its, k, name) == Here(q) && now[q].Property? && now[q].pname == Some(name)
    requires forall n :: 0 <= n < |its| && n != q ==> now[n] == its[n]
    ensures Find(now, k, name) == Here(q)
    decreases q - k
  {
    if k < q { FindSame(its, now, k + 1, q, name); }
  }

  /** Every other property of every node is where it was, with its name and value:
      the items but the one set are the old ones, in order. */
  lemma SetElsewhere(its: seq<Item>, k: nat, name: bytes, val: bytes)
    requires !Lookup(its, k, name).Broken?
    ensures var now, r := Set(its, k, name, val), Lookup(its, k, name);
      if r.Here? then now[..r.at] == its[..r.at] && now[r.at + 1..] == its[r.at + 1..]
      else |now| == |its| + 1 && now[..k + 1] == its[..k + 1] && now[k + 2..] == its[k + 1..]
  {
    var r := Lookup(its, k, name);
    var q := if r.Here? then r.at else k + 1;
    var a, c := its[..q], if r.Here? then its[q + 1..] else its[q..];
    ConcatAt(a + [Property(Some(name), val)], c);
    ConcatAt(a, [Property(Some(name), val)]);
    ConcatCut(a + [Property(Some(name), val)], c, |a|);
  }

  /** Names stay resolved, so calls can follow each other. */
  lemma {:induction false} SetResolved(its: seq<Item>, k: nat, name: bytes, val: bytes)
    requires Resolved(its)
    ensures Resolved(Set(its, k, name, val))
  {
    var r := Lookup(its, k, name);
    if !r.Broken? {
      var q := if r.Here? then r.at else k + 1;
      var c := if r.Here? then q + 1 else q;
      ResolvedParts(its, q);
      ResolvedParts(its, c);
      ResolvedConcat(its[..q], [Property(Some(name), val)]);
      ResolvedConcat(its[..q] + [Property(Some(name), val)], its[c..]);
    }
  }

  lemma {:induction false} ResolvedConcat(a: seq<Item>, b: seq<Item>)
    requires Resolved(a) && Resolved(b)
    ensures Resolved(a + b)
    decreases |a|
  {
    if a == [] {
      Units(b);
    } else {
      ConcatCut(a, b, 1);
      ResolvedConcat(a[1..], b);
    }
  }

  lemma {:induction false} ResolvedFirst(x: Item, a: seq<Item>)
    requires (x.Property? ==> x.pname.Some?) && Resolved(a)
    ensures Resolved([x] + a)
  {
    ConcatAt([x], a);
  }

  lemma {:induction false} ResolvedParts(its: seq<Item>, q: nat)
    requires Resolved(its) && q <= |its|
    ensures Resolved(its[..q]) && Resolved(its[q..])
    decreases |its|
  {
    Units(its);
    if q > 0 {
      ResolvedParts(its[1..], q - 1);
      HeadAndTail(its, 0, q - 1);
      Units(its[..q]);
      ResolvedFirst(its[0], its[1..][..q - 1]);
    }
  }
}
