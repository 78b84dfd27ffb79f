/** Properties of a finished blob: lookup by name, and `fdt_setprop`. */
module FdtProps {
  import opened Wrappers
  import opened FdtTokens
  import opened FdtNames
  import opened FdtBlob
  import opened FdtWalk
  import opened FdtEdit
  import opened FdtTree
  import opened Seqs

  // --------------------------------------------------------------------- lookup

  datatype Found = Here(at: nat) | Missing | Broken

  /** The first property of this name in the run of properties from k on; the run
      must end in a node's start or end. */
  function Find(its: seq<Item>, k: nat, name: bytes): (r: Found)
    requires k <= |its|
    ensures r.Here? ==> k <= r.at < |its| && its[r.at].Property? && its[r.at].pname == Some(name)
    decreases |its| - k
  {
    if k == |its| || its[k].Stop? then Broken
    else if its[k].Open? || its[k].Close? then Missing
    else if its[k].Property? && its[k].pname == Some(name) then Here(k)
    else Find(its, k + 1, name)
  }

  /** The next property from k on, whatever its name. */
  function FindAny(its: seq<Item>, k: nat): (r: Found)
    requires k <= |its|
    ensures r.Here? ==> k <= r.at < |its| && its[r.at].Property?
    decreases |its| - k
  {
    if k == |its| || its[k].Stop? then Broken
    else if its[k].Open? || its[k].Close? then Missing
    else if its[k].Property? then Here(k)
    else FindAny(its, k + 1)
  }

  /** An offset, or the error the lookup reports. */
  ghost predicate Reports(f: Blob, res: int, r: Found)
    requires Complete(f)
    reads f, f.buf
  {
    match r
    case Here(q) => Cursor(f, res, q)
    case Missing => res == -1
    case Broken => res == BADSTRUCTURE || res == TRUNCATED
  }

  /** `nextprop_`. */
  method NextProp(f: Blob, start: nat, ghost k: nat) returns (res: int)
    requires Complete(f) && Cursor(f, start, k)
    ensures Reports(f, res, FindAny(Items(f), k))
  {
    ghost var its, m := Items(f), k;
    var offset := start;
    while true
      invariant Cursor(f, offset, m) && k <= m <= |its| && FindAny(its, k) == FindAny(its, m)
      decreases |its| - m
    {
      var tag, next := ItemAt(f, offset, m);
      if tag == FDT_END { return if next >= 0 then BADSTRUCTURE else next; }
      if tag == FDT_PROP { return offset; }
      if tag != FDT_NOP { return NOTFOUND; }
      offset, m := next, m + 1;
    }
  }

  /** Looking by name is looking at each property in turn. */
  lemma {:induction false} FindByAny(its: seq<Item>, k: nat, name: bytes)
    requires k <= |its|
    ensures match FindAny(its, k)
      case Here(q) => Find(its, k, name) == if its[q].pname == Some(name) then Here(q) else Find(its, q + 1, name)
      case Missing => Find(its, k, name) == Missing
      case Broken => Find(its, k, name) == Broken
    decreases |its| - k
  {
    if k < |its| && its[k].Skip? { FindByAny(its, k + 1, name); }
  }

  /** `fdt_string_eq_` on the property at this offset. */
  method NameEq(f: Blob, offset: nat, name: bytes, ghost q: nat) returns (eq: bool)
    requires Complete(f) && Cursor(f, offset, q) && q < |Items(f)| && Items(f)[q].Property?
    ensures eq == (Items(f)[q].pname == Some(name))
  {
    ghost var b := f.buf[..];
    ItemTag(f, q);
    PropName(b, f.offStruct, f.Top(), f.offStrings, f.sizeStrings, q);
    var nameoff := Rd32(f.buf[..], f.offStruct + offset + 8);
    eq := StringFrom(f.buf[..][f.offStrings..f.offStrings + f.sizeStrings], nameoff) == Some(name);
  }

  lemma {:induction false} PropName(b: bytes, i: nat, j: nat, p: nat, s: nat, q: nat)
    requires i <= j <= |b| && p + s <= |b| && Tokens(b, i, j).Some? && q < |Tokens(b, i, j).value|
      && Tokens(b, i, j).value[q].Prop?
    ensures Offset(b, i, j, q) + 12 <= j
    ensures Said(b, i, j, p, s)[q].Property?
      && Said(b, i, j, p, s)[q].pname == StringFrom(b[p..p + s], Rd32(b, Offset(b, i, j, q) + 8))
  {
    PropInBlock(b, i, j, q);
    NamedSlice(Tokens(b, i, j).value, b[p..p + s], 0, q);
  }

  lemma PropInBlock(b: bytes, i: nat, j: nat, q: nat)
    requires i <= j <= |b| && Tokens(b, i, j).Some? && q < |Tokens(b, i, j).value| && Tokens(b, i, j).value[q].Prop?
    ensures var o, t := Offset(b, i, j, q), Tokens(b, i, j).value[q];
      o < j && Lexed(b, o, j) == Tok(t, 12 + |t.val|) && o + 12 + Align4(|t.val|) == Offset(b, i, j, q + 1) &&
      o + 12 + |t.val| <= j && t.nameoff == Rd32(b, o + 8) && |t.val| == Rd32(b, o + 4) && t.nameoff < WORD
  {
    var o := Offset(b, i, j, q);
    OffsetNext(b, i, j, q);
    Unseal(b, o, j, j);
    PropShape(b, o, j);
  }

  lemma PropShape(b: bytes, o: nat, j: nat)
    requires o <= j <= |b| && Lexed(b, o, j).Tok? && Lexed(b, o, j).t.Prop?
    ensures var p := Lexed(b, o, j);
      p.len == 12 + |p.t.val| && o + p.len <= j && Align4(p.len) == 12 + Align4(|p.t.val|) &&
      p.t.nameoff == Rd32(b, o + 8) && |p.t.val| == Rd32(b, o + 4) && p.t.nameoff < WORD && Rd32(b, o) == FDT_PROP
  {
    var n := |Lexed(b, o, j).t.val|;
    Rd32Bound(b, o + 8);
    Align4Add(8 + n);
    Align4Add(4 + n);
    Align4Add(n);
  }

  /** `fdt_next_property_offset`. */
  method NextProperty(f: Blob, offset: nat, ghost q: nat) returns (res: int)
    requires Complete(f) && Cursor(f, offset, q) && q < |Items(f)| && Items(f)[q].Property?
    ensures Reports(f, res, FindAny(Items(f), q + 1))
  {
    var tag, next := ItemAt(f, offset, q);
    res := NextProp(f, next, q + 1);
  }

  /** The loop of `fdt_get_property_namelen_`. */
  method Search(f: Blob, first: int, name: bytes, ghost k: nat) returns (res: int)
    requires Complete(f) && k <= |Items(f)| && Reports(f, first, FindAny(Items(f), k))
    ensures Reports(f, res, Find(Items(f), k, name))
  {
    ghost var its, m := Items(f), k;
    res := first;
    FindByAny(its, m, name);
    while res >= 0
      invariant m <= |its| && Reports(f, res, FindAny(its, m))
      invariant Find(its, k, name) == Find(its, m, name)
      decreases |its| - m
    {
      ghost var q := FindAny(its, m).at;
      var eq, next := SearchStep(f, res, name, m);
      if eq { return; }
      res, m := next, q + 1;
    }
    FindByAny(its, m, name);
  }

  method SearchStep(f: Blob, offset: nat, name: bytes, ghost m: nat) returns (eq: bool, next: int)
    requires Complete(f) && m <= |Items(f)| && FindAny(Items(f), m).Here? && Cursor(f, offset, FindAny(Items(f), m).at)
    ensures var its, q := Items(f), FindAny(Items(f), m).at;
      if eq then Find(its, m, name) == Here(q)
      else Find(its, m, name) == Find(its, q + 1, name) && Reports(f, next, FindAny(its, q + 1))
  {
    ghost var q := FindAny(Items(f), m).at;
    FindByAny(Items(f), m, name);
    eq := NameEq(f, offset, name, q);
    next := 0;
    if !eq { next := NextProperty(f, offset, q); }
  }

  /** `fdt_get_property`: the offset of the property, or an error. */
  method GetProperty(f: Blob, nodeoffset: nat, name: bytes, ghost k: nat) returns (res: int)
    requires Complete(f) && Cursor(f, nodeoffset, k)
    ensures if k < |Items(f)| && Items(f)[k].Open? then Reports(f, res, Find(Items(f), k + 1, name))
      else res == BADOFFSET
  {
    res := CheckNodeOffset(f, nodeoffset, k);
    if res < 0 { return; }
    res := NextProp(f, res, k + 1);
    res := Search(f, res, name, k + 1);
  }

  // ---------------------------------------------------------------- a new length

  /** The two stores that follow the splice: the length cell and the value. */
  ghost function Filled(b: bytes, o: nat, val: bytes): (c: bytes)
    requires o + 12 + |val| <= |b| && |val| < WORD
    ensures |c| == |b|
  {
    Write(Write(b, o + 4, U32(|val|)), o + 12, val)
  }

  lemma FilledAt(b: bytes, o: nat, val: bytes)
    requires o + 12 + |val| <= |b| && |val| < WORD
    ensures var c := Filled(b, o, val);
      c[..o + 4] == b[..o + 4] && c[o + 4..o + 8] == U32(|val|) && c[o + 8..o + 12] == b[o + 8..o + 12] &&
      c[o + 12..o + 12 + |val|] == val && c[o + 12 + |val|..] == b[o + 12 + |val|..]
  {
    var d := Write(b, o + 4, U32(|val|));
    var c := Filled(b, o, val);
    Wrote(b, o + 4, U32(|val|));
    Wrote(d, o + 12, val);
    KeptPrefix(d, c, o + 12, o + 4);
    KeptBefore(d, c, o + 12, o + 4, o + 8);
    KeptBefore(d, c, o + 12, o + 8, o + 12);
    KeptAfter(b, d, o + 8, o + 8, o + 12);
    Later(b, d, o + 8, o + 12 + |val|);
  }

  /** After them a property with its old name and the new value stands there. */
  lemma FilledToken(a: bytes, b: bytes, o: nat, nameoff: nat, val: bytes)
    requires o + 12 <= |a| && Rd32(a, o) == FDT_PROP && Rd32(a, o + 8) == nameoff && |val| < WORD
    requires o + 12 + Align4(|val|) <= |b| && b[..o + 12] == a[..o + 12]
    ensures Tokens(Filled(b, o, val), o, o + 12 + Align4(|val|)) == Some([Prop(nameoff, val)])
  {
    FilledCells(a, b, o, val);
    FilledLexed(Filled(b, o, val), o, o + 12 + Align4(|val|), nameoff, val);
  }

  lemma FilledCells(a: bytes, b: bytes, o: nat, val: bytes)
    requires |val| < WORD && o + 12 + |val| <= |b| && o + 12 <= |a| && b[..o + 12] == a[..o + 12]
    ensures var c := Filled(b, o, val);
      Rd32(c, o) == Rd32(a, o) && Rd32(c, o + 4) == |val| && Rd32(c, o + 8) == Rd32(a, o + 8)
        && c[o + 12..o + 12 + |val|] == val
  {
    var c := Filled(b, o, val);
    FilledAt(b, o, val);
    KeptBefore(a, b, o + 12, o, o + 4);
    KeptBefore(a, b, o + 12, o + 8, o + 12);
    KeptBefore(b, c, o + 4, o, o + 4);
    NumberMoves(a, o, o + 4, c, o, o + 4);
    NumberMoves(a, o + 8, o + 12, c, o + 8, o + 12);
    U32Reads(|val|, c, o + 4);
  }

  lemma {:induction false} FilledLexed(c: bytes, o: nat, n: nat, nameoff: nat, val: bytes)
    requires n == o + 12 + Align4(|val|) <= |c| && Rd32(c, o) == FDT_PROP && Rd32(c, o + 4) == |val|
      && Rd32(c, o + 8) == nameoff
    requires c[o + 12..o + 12 + |val|] == val
    ensures Tokens(c, o, n) == Some([Prop(nameoff, val)])
  {
    Align4Add(8 + |val|);
    Align4Add(4 + |val|);
    Align4Add(|val|);
    OneToken(c, o, n, Tok(Prop(nameoff, val), 12 + |val|));
  }

  /** A splice inside a token is a splice of the token. */
  lemma WholeToken(x: Image, y: Image, z: Image, o: nat, old': nat, new': nat, was: nat, now: nat, val: bytes)
    requires was == 12 + old' && now == 12 + new' && x.i <= o && |val| <= new' && |val| < WORD
      && Spliced(x, y, o + 12, old', new') && o + 12 + new' <= |y.b|
    requires z == y.(b := Filled(y.b, o, val))
    ensures Spliced(x, z, o, was, now)
  {
    FilledAt(y.b, o, val);
    KeptPrefix(x.b, y.b, o + 12, o);
    KeptPrefix(y.b, z.b, o + 4, o);
    KeptAfter(y.b, z.b, o + 12 + |val|, o + 12 + new', y.p + y.s);
  }

  /** The property at q with another value. */
  function Replaced(its: seq<Item>, q: nat, val: bytes): seq<Item>
    requires q < |its| && its[q].Property?
  {
    its[..q] + [Property(its[q].pname, val)] + its[q + 1..]
  }

  /** The property token t at q of x, at o; y is x spliced for the new value. */
  ghost predicate Resizing(x: Image, y: Image, q: nat, o: nat, t: Token, val: bytes) {
    x.Valid() && q < x.Count() && t == Tokens(x.b, x.i, x.j).value[q] && t.Prop? && o == x.At(q) && |val| < WORD &&
    Spliced(x, y, o + 12, Align4(|t.val|), Align4(|val|)) &&
    o + 12 + Align4(|val|) <= |y.b| && y.b[..o + 12 + Align4(|val|)] == x.b[..o + 12 + Align4(|val|)]
  }

  lemma {:induction false} ResizedToken(x: Image, y: Image, q: nat, o: nat, t: Token, val: bytes)
    requires Resizing(x, y, q, o, t, val)
    ensures Tokens(Filled(y.b, o, val), o, o + (12 + Align4(|val|))) == Some([Prop(t.nameoff, val)])
  {
    PropInBlock(x.b, x.i, x.j, q);
    PropShape(x.b, o, x.j);
    KeptPrefix(x.b, y.b, o + 12 + Align4(|val|), o + 12);
    FilledToken(x.b, y.b, o, t.nameoff, val);
  }

  lemma PropEnds(x: Image, q: nat)
    requires x.Valid() && q < x.Count() && Tokens(x.b, x.i, x.j).value[q].Prop?
    ensures x.At(q + 1) == x.At(q) + 12 + Align4(|Tokens(x.b, x.i, x.j).value[q].val|)
  {
    PropInBlock(x.b, x.i, x.j, q);
  }

  lemma ResizeOk(x: Image, y: Image, z: Image, q: nat, o: nat, t: Token, val: bytes)
    requires Resizing(x, y, q, o, t, val) && z == y.(b := Filled(y.b, o, val))
    ensures x.Items()[q].Property? && z.Valid() && z.Items() == Replaced(x.Items(), q, val) && FrontKept(x, z, q)
  {
    PropEnds(x, q);
    WholeToken(x, y, z, o, Align4(|t.val|), Align4(|val|), x.At(q + 1) - o, 12 + Align4(|val|), val);
    ResizedToken(x, y, q, o, t, val);
    EditOk(x, z, q, q + 1, 12 + Align4(|val|), [Prop(t.nameoff, val)]);
    ReplacedItems(x, q, t, val);
  }

  lemma ReplacedItems(x: Image, q: nat, t: Token, val: bytes)
    requires x.Valid() && q < x.Count() && t == Tokens(x.b, x.i, x.j).value[q] && t.Prop?
    ensures x.Items()[q].Property?
    ensures Replaced(x.Items(), q, val)
      == x.Items()[..q] + AllNamed([Prop(t.nameoff, val)], x.Strings(), 0) + x.Items()[q + 1..]
  {
    NamedSlice(Tokens(x.b, x.i, x.j).value, x.Strings(), 0, q);
  }

  /** The length cell of the property at this offset. */
  method PropLen(f: Blob, offset: nat, ghost q: nat) returns (len: nat)
    requires Complete(f) && Cursor(f, offset, q) && q < |Items(f)| && Items(f)[q].Property?
    ensures var ts := f.StructTokens().value; ts[q].Prop? && len == |ts[q].val| == |Items(f)[q].val|
    ensures f.offStruct + offset + 12 + Align4(len) <= f.Top()
  {
    ItemTag(f, q);
    PropCellsAt(State(f), q);
    len := Rd32(f.buf[..], f.offStruct + offset + 4);
  }

  lemma PropCellsAt(x: Image, q: nat)
    requires x.Valid() && q < x.Count() && Tokens(x.b, x.i, x.j).value[q].Prop?
    ensures var o, n := x.At(q), |Tokens(x.b, x.i, x.j).value[q].val|;
      o + 12 <= |x.b| && Rd32(x.b, o + 4) == n && o + 12 + Align4(n) <= x.j
    ensures x.Items()[q].Property? && x.Items()[q].val == Tokens(x.b, x.i, x.j).value[q].val
  {
    PropInBlock(x.b, x.i, x.j, q);
    NamedSlice(Tokens(x.b, x.i, x.j).value, x.Strings(), 0, q);
  }

  method Fill(f: Blob, o: nat, val: bytes)
    requires o + 12 + |val| <= f.buf.Length && |val| < WORD
    modifies f.buf
    ensures f.buf[..] == Filled(old(f.buf[..]), o, val)
  {
    f.Store(o + 4, U32(|val|));
    f.Store(o + 12, val);
  }

  /** The splice that makes the property's data area fit the value. */
  method MakeRoom(f: Blob, o: nat, oldlen: nat, val: bytes, ghost q: nat, ghost t: Token) returns (err: int)
    requires State(f).Valid() && q < State(f).Count() && o == State(f).At(q) && |val| <= INT_MAX
    requires t == f.StructTokens().value[q] && t.Prop? && oldlen == |t.val| && o + 12 + Align4(oldlen) <= f.Top()
    modifies f, f.buf
    ensures f.buf == old(f.buf) && f.offStruct == old(f.offStruct)
    ensures err == if old(f.offStrings + f.sizeStrings) - Align4(oldlen) + Align4(|val|) > old(f.total) then NOSPACE
      else 0
    ensures err != 0 ==> State(f) == old(State(f))
    ensures err == 0 ==> Resizing(old(State(f)), State(f), q, o, t, val)
  {
    err := SpliceStruct(f, o + 12, Align4(oldlen), Align4(|val|));
  }

  /** `fdt_resize_property_` and the copy of the value. */
  method ResizeProperty(f: Blob, offset: nat, val: bytes, ghost q: nat) returns (err: int)
    requires Complete(f) && Cursor(f, offset, q) && q < |Items(f)| && Items(f)[q].Property? && |val| <= INT_MAX
    modifies f, f.buf
    ensures f.buf == old(f.buf)
    ensures err == if old(f.offStrings + f.sizeStrings - Align4(|Items(f)[q].val|)) + Align4(|val|) > old(f.total)
      then NOSPACE else 0
    ensures err != 0 ==> State(f) == old(State(f))
    ensures err == 0 ==> Complete(f) && Items(f) == Replaced(old(Items(f)), q, val)
    ensures FrontKept(old(State(f)), State(f), q)
  {
    ghost var x, t := State(f), f.StructTokens().value[q];
    FrontRefl(x, q);
    var o := f.offStruct + offset;
    var oldlen := PropLen(f, offset, q);
    err := MakeRoom(f, o, oldlen, val, q, t);
    if err == 0 {
      ghost var y := State(f);
      Fill(f, o, val);
      ResizeOk(x, y, State(f), q, o, t, val);
    }
  }

  // --------------------------------------------------------------------- removal

  /** The property at this offset, cut out. */
  method CutProperty(f: Blob, offset: nat, ghost q: nat) returns (err: int)
    requires Complete(f) && Cursor(f, offset, q) && q < |Items(f)| && Items(f)[q].Property?
    modifies f, f.buf
    ensures f.buf == old(f.buf) && err == 0
    ensures Complete(f) && Items(f) == old(Items(f))[..q] + old(Items(f))[q + 1..]
    ensures FrontKept(old(State(f)), State(f), q)
  {
    ghost var x := State(f);
    var len := PropLen(f, offset, q);
    assert x.At(q) == f.offStruct + offset;
    err := SpliceStruct(f, f.offStruct + offset, 12 + Align4(len), 0);
    CutOk(x, State(f), q, len, f.offStruct + offset);
  }

  lemma {:induction false} CutOk(x: Image, y: Image, q: nat, len: nat, at: nat)
    requires x.Valid() && q < x.Count() && Tokens(x.b, x.i, x.j).value[q].Prop?
      && len == |Tokens(x.b, x.i, x.j).value[q].val|
    requires x.At(q) == at && Spliced(x, y, at, 12 + Align4(len), 0)
    ensures y.Valid() && y.Items() == x.Items()[..q] + x.Items()[q + 1..] && FrontKept(x, y, q)
  {
    PropEnds(x, q);
    RemoveOk(x, y, q, q + 1, at, 12 + Align4(len));
  }

  /** The same, overwritten with NOP tags. */
  method BlankProperty(f: Blob, offset: nat, ghost q: nat) returns (ghost n: nat)
    requires Complete(f) && Cursor(f, offset, q) && q < |Items(f)| && Items(f)[q].Property?
    modifies f.buf
    ensures Complete(f) && Items(f) == old(Items(f))[..q] + Skips(n) + old(Items(f))[q + 1..]
    ensures FrontKept(old(State(f)), State(f), q)
  {
    ghost var x := State(f);
    var len := PropLen(f, offset, q);
    PropEnds(x, q);
    Align12(len);
    n := (12 + Align4(len)) / 4;
    NopRegion(f, f.offStruct + offset, len + 12);
    NopOk(x, State(f), q, q + 1);
  }

  lemma Align12(n: nat)
    ensures Align4(n + 12) == 12 + Align4(n)
  {
    Align4Add(n);
    Align4Add(4 + n);
    Align4Add(8 + n);
  }

  /** `fdt_delprop`. */
  method DelProp(f: Blob, nodeoffset: nat, name: bytes, ghost k: nat) returns (err: int)
    requires Complete(f) && Cursor(f, nodeoffset, k) && k < |Items(f)| && Items(f)[k].Open?
    modifies f, f.buf
    ensures f.buf == old(f.buf) && Complete(f)
    ensures (err == 0) == old(Find(Items(f), k + 1, name)).Here?
    ensures err != 0 ==> State(f) == old(State(f))
    ensures err == 0 ==> Removed(old(Items(f)), Items(f), old(Find(Items(f), k + 1, name)).at, 0)
    ensures FrontKept(old(State(f)), State(f), k) && Cursor(f, nodeoffset, k)
  {
    ghost var q, x := Find(Items(f), k + 1, name), State(f);
    FrontRefl(x, k);
    var res := GetProperty(f, nodeoffset, name, k);
    if res < 0 { return res; }
    ghost var its := Items(f);
    err := CutProperty(f, res, q.at);
    Units(its[..q.at]);
    FrontLess(x, State(f), q.at, k);
    CursorKept(f, x, nodeoffset, k, k);
  }

  /** `fdt_nop_property`. */
  method NopProperty(f: Blob, nodeoffset: nat, name: bytes, ghost k: nat) returns (err: int, ghost n: nat)
    requires Complete(f) && Cursor(f, nodeoffset, k) && k < |Items(f)| && Items(f)[k].Open?
    modifies f.buf
    ensures Complete(f)
    ensures (err == 0) == old(Find(Items(f), k + 1, name)).Here?
    ensures err != 0 ==> State(f) == old(State(f))
    ensures err == 0 ==> Removed(old(Items(f)), Items(f), old(Find(Items(f), k + 1, name)).at, n)
    ensures FrontKept(old(State(f)), State(f), k) && Cursor(f, nodeoffset, k)
  {
    n := 0;
    ghost var q, x := Find(Items(f), k + 1, name), State(f);
    FrontRefl(x, k);
    var res := GetProperty(f, nodeoffset, name, k);
    if res < 0 { return res, n; }
    n := BlankProperty(f, res, q.at);
    FrontLess(x, State(f), q.at, k);
    CursorKept(f, x, nodeoffset, k, k);
    err := 0;
  }

  /** Item q is gone, n NOP tags in its place. */
  ghost predicate Removed(its: seq<Item>, now: seq<Item>, q: nat, n: nat) {
    q < |its| && now == its[..q] + Skips(n) + its[q + 1..]
  }

  /** Cut out or overwritten, the rest reads the same. */
  lemma {:induction false} RemovedSame(its: seq<Item>, a: seq<Item>, b: seq<Item>, q: nat, n: nat, m: nat)
    requires Removed(its, a, q, n) && Removed(its, b, q, m)
    ensures NoSkips(a) == NoSkips(b) == NoSkips(its[..q] + its[q + 1..])
  {
    RemovedReads(its, a, q, n);
    RemovedReads(its, b, q, m);
  }

  lemma {:induction false} RemovedReads(its: seq<Item>, a: seq<Item>, q: nat, n: nat)
    requires Removed(its, a, q, n)
    ensures NoSkips(a) == NoSkips(its[..q] + its[q + 1..])
  {
    NopsAreSkips(n, []);
    NoSkipsConcat(its[..q] + Skips(n), its[q + 1..]);
    NoSkipsConcat(its[..q], Skips(n));
    NoSkipsConcat(its[..q], its[q + 1..]);
    Units(NoSkips(its[..q]));
  }
}
