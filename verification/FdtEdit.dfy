/** Editing a finished blob: splices that move everything behind them, and NOP
    tags written in place. */
module FdtEdit {
  import opened Wrappers
  import opened FdtTokens
  import opened FdtNames
  import opened FdtBlob
  import opened FdtTree
  import opened FdtWalk
  import opened Seqs

  const NOSPACE := -3

  /** A finished blob: buffer b, structure block i..j, strings block p..p + s, in
      e bytes. */
  datatype Image = Image(b: bytes, i: nat, j: nat, p: nat, s: nat, e: nat) {
    ghost predicate Fits() { i <= j <= p && p + s <= e <= |b| <= INT_MAX }

    ghost predicate Valid() { Fits() && Tokens(b, i, j).Some? }

    ghost function Strings(): (r: bytes)
      requires Fits()
      ensures |r| == s
    {
      b[p..p + s]
    }

    ghost function Count(): nat
      requires Valid()
    {
      |Tokens(b, i, j).value|
    }

    /** Where the k-th token starts. */
    ghost function At(k: nat): (o: nat)
      requires Valid() && k <= Count()
      ensures i <= o <= j
    {
      Offset(b, i, j, k)
    }

    ghost function Items(): (r: seq<Item>)
      requires Valid()
      ensures |r| == Count()
    {
      Said(b, i, j, p, s)
    }
  }

  ghost function State(f: Blob): Image
    reads f, f.buf
  {
    Image(f.buf[..], f.offStruct, f.Top(), f.offStrings, f.sizeStrings, f.total)
  }

  /** The bytes at..at + old of x have become at..at + new of y; what was before
      is in place, what was behind has moved along. */
  ghost predicate Spliced(x: Image, y: Image, at: nat, old': nat, new': nat) {
    x.Fits() && y.Fits() && x.i <= at && at + old' <= x.j &&
    y.i == x.i && y.j == x.j - old' + new' && y.p == x.p - old' + new' && y.s == x.s && y.e == x.e && |y.b| == |x.b| &&
    x.b[..at] == y.b[..at] && y.b[at + new'..y.p + y.s] == x.b[at + old'..x.p + x.s]
  }

  /** Then the tokens around it are the same, and so are the strings. */
  lemma {:induction false} SplicedTokens(x: Image, y: Image, at: nat, old': nat, new': nat, mid: seq<Token>)
    requires Spliced(x, y, at, old', new') && Tokens(x.b, x.i, at).Some? && Tokens(x.b, at + old', x.j).Some?
    requires at + new' <= y.j && Tokens(y.b, at, at + new') == Some(mid)
    ensures Tokens(y.b, y.i, y.j) == Some(Tokens(x.b, x.i, at).value + mid + Tokens(x.b, at + old', x.j).value)
    ensures y.Strings() == x.Strings()
  {
    KeptBefore(x.b, y.b, at, x.i, at);
    TokensMove(x.b, x.i, at, y.b, x.i, at);
    TokensJoin(y.b, x.i, at, at + new');
    BehindMoved(x, y, at, old', new');
    TokensMove(x.b, at + old', x.j, y.b, at + new', y.j);
    TokensJoin(y.b, x.i, at + new', y.j);
  }

  lemma BehindMoved(x: Image, y: Image, at: nat, old': nat, new': nat)
    requires Spliced(x, y, at, old', new')
    ensures y.b[at + new'..y.j] == x.b[at + old'..x.j] && y.Strings() == x.Strings()
  {
    var len := x.p + x.s - (at + old');
    SubSlice(y.b, at + new', x.b, at + old', len, 0, x.j - (at + old'));
    SubSlice(y.b, at + new', x.b, at + old', len, x.p - (at + old'), len);
  }

  /** `fdt_splice_`: everything from at + old to the end of the strings moves to
      at + new. */
  method Splice(f: Blob, at: nat, old': nat, new': nat) returns (err: int)
    requires f.offStrings + f.sizeStrings <= f.total <= f.buf.Length
    modifies f.buf
    ensures var dsize := f.offStrings + f.sizeStrings;
      err == if at + old' > dsize then -4 else if dsize - old' + new' > f.total then -3 else 0
    ensures err != 0 ==> f.buf[..] == old(f.buf[..])
    ensures err == 0 ==>
      f.buf[..] == Write(old(f.buf[..]), at + new', old(f.buf[..])[at + old'..f.offStrings + f.sizeStrings])
  {
    var dsize := f.offStrings + f.sizeStrings;
    if at + old' > dsize || dsize + new' < old' { return BADOFFSET; }
    if dsize - old' + new' > f.total { return NOSPACE; }
    f.Move(at + new', at + old', dsize - (at + old'));
    err := 0;
  }

  lemma {:induction false} SplicedOk(x: Image, y: Image, at: nat, old': nat, new': nat)
    requires x.Fits() && x.i <= at && at + old' <= x.j && x.p + x.s - old' + new' <= x.e
    requires y
      == Image(Write(x.b, at + new', x.b[at + old'..x.p + x.s]), x.i, x.j - old' + new', x.p - old' + new', x.s, x.e)
    ensures Spliced(x, y, at, old', new') && y.b[..at + new'] == x.b[..at + new']
  {
    Wrote(x.b, at + new', x.b[at + old'..x.p + x.s]);
    KeptPrefix(x.b, y.b, at + new', at);
  }

  /** `fdt_splice_struct_`. */
  method SpliceStruct(f: Blob, at: nat, old': nat, new': nat) returns (err: int)
    requires State(f).Fits() && f.offStruct <= at && at + old' <= f.Top()
    modifies f, f.buf
    ensures f.buf == old(f.buf)
    ensures err == (if old(f.offStrings + f.sizeStrings) - old' + new' > old(f.total) then NOSPACE else 0)
    ensures err != 0 ==> State(f) == old(State(f))
    ensures err == 0 ==> Spliced(old(State(f)), State(f), at, old', new')
    ensures err == 0 ==> f.buf[..][..at + new'] == old(f.buf[..])[..at + new']
  {
    ghost var x := State(f);
    err := Splice(f, at, old', new');
    if err != 0 { return; }
    f.sizeStruct := f.sizeStruct + new' - old';
    f.offStrings := f.offStrings + new' - old';
    SplicedOk(x, State(f), at, old', new');
  }

  /** Up to token k both blobs have their tokens at the same offsets, in blobs of the
      same size whose structure blocks start at the same place. */
  ghost predicate FrontKept(x: Image, y: Image, k: nat) {
    x.Valid() && y.Valid() && k <= x.Count() && k <= y.Count() && y.i == x.i && y.e == x.e &&
    forall n: nat {:trigger y.At(n)} :: n <= k ==> y.At(n) == x.At(n)
  }

  lemma FrontRefl(x: Image, k: nat)
    requires x.Valid() && k <= x.Count()
    ensures FrontKept(x, x, k)
  {
  }

  lemma FrontLess(x: Image, y: Image, q: nat, k: nat)
    requires FrontKept(x, y, q) && k <= q
    ensures FrontKept(x, y, k)
  {
  }

  lemma FrontTrans(x: Image, y: Image, z: Image, k: nat)
    requires FrontKept(x, y, k) && FrontKept(y, z, k)
    ensures FrontKept(x, z, k)
  {
    forall n: nat | n <= k ensures z.At(n) == x.At(n) { assert z.At(n) == y.At(n) == x.At(n); }
  }

  /** So an offset in the front is still that of its token. */
  lemma CursorKept(f: Blob, x: Image, offset: int, n: nat, k: nat)
    requires Complete(f) && FrontKept(x, State(f), k) && n <= k && offset >= 0 && x.i + offset == x.At(n)
    ensures Cursor(f, offset, n)
  {
    assert State(f).At(n) == x.At(n);
  }

  /** What is cut at token k on both sides and equal before it. */
  lemma EditFront(x: Image, y: Image, k: nat)
    requires x.Valid() && y.Valid() && k <= x.Count() && y.i == x.i && y.e == x.e && |y.b| == |x.b|
    requires x.At(k) <= y.j && x.b[..x.At(k)] == y.b[..x.At(k)] && Tokens(y.b, x.At(k), y.j).Some?
    ensures FrontKept(x, y, k)
  {
    var o := x.At(k);
    TokensCut(x.b, x.i, x.j, k);
    KeptBefore(x.b, y.b, o, x.i, o);
    TokensMove(x.b, x.i, o, y.b, x.i, o);
    TokensJoin(y.b, x.i, o, y.j);
    forall n: nat | n <= k ensures y.At(n) == x.At(n) {
      OffsetFront(x.b, x.i, o, x.j, n);
      OffsetMoves(x.b, y.b, x.i, o, n);
      OffsetFront(y.b, x.i, o, y.j, n);
    }
  }

  /** Tokens k..m replaced by others: the items around them are what they were. */
  lemma EditOk(x: Image, y: Image, k: nat, m: nat, new': nat, mid: seq<Token>)
    requires x.Valid() && k <= m <= x.Count() && x.At(k) <= x.At(m) && Spliced(x, y, x.At(k), x.At(m) - x.At(k), new')
    requires x.At(k) + new' <= y.j && Tokens(y.b, x.At(k), x.At(k) + new') == Some(mid)
    ensures y.Valid() && y.Items() == x.Items()[..k] + AllNamed(mid, x.Strings(), 0) + x.Items()[m..]
    ensures FrontKept(x, y, k)
  {
    EditTokens(x, y, k, m, new', mid);
    EditNames(Tokens(x.b, x.i, x.j).value, mid, x.Strings(), k, m);
    EditBehind(x, y, k, m, new', mid);
    EditFront(x, y, k);
  }

  lemma EditBehind(x: Image, y: Image, k: nat, m: nat, new': nat, mid: seq<Token>)
    requires x.Valid() && k <= m <= x.Count() && x.At(k) <= x.At(m) && Spliced(x, y, x.At(k), x.At(m) - x.At(k), new')
    requires x.At(k) + new' <= y.j && Tokens(y.b, x.At(k), x.At(k) + new') == Some(mid)
    ensures Tokens(y.b, x.At(k), y.j).Some?
  {
    var at, old' := x.At(k), x.At(m) - x.At(k);
    TokensCut(x.b, x.i, x.j, m);
    BehindMoved(x, y, at, old', new');
    TokensMove(x.b, at + old', x.j, y.b, at + new', y.j);
    TokensJoin(y.b, at, at + new', y.j);
  }

  lemma EditTokens(x: Image, y: Image, k: nat, m: nat, new': nat, mid: seq<Token>)
    requires x.Valid() && k <= m <= x.Count() && x.At(k) <= x.At(m) && Spliced(x, y, x.At(k), x.At(m) - x.At(k), new')
    requires x.At(k) + new' <= y.j && Tokens(y.b, x.At(k), x.At(k) + new') == Some(mid)
    ensures Tokens(y.b, y.i, y.j) == Some(Tokens(x.b, x.i, x.j).value[..k] + mid + Tokens(x.b, x.i, x.j).value[m..])
    ensures y.Strings() == x.Strings()
  {
    var at, old' := x.At(k), x.At(m) - x.At(k);
    assert at + old' == x.At(m);
    TokensCut(x.b, x.i, x.j, k);
    TokensCut(x.b, x.i, x.j, m);
    SplicedTokens(x, y, at, old', new', mid);
  }

  lemma {:induction false} EditNames(ts: seq<Token>, mid: seq<Token>, strs: bytes, k: nat, m: nat)
    requires k <= m <= |ts|
    ensures AllNamed(ts[..k] + mid + ts[m..], strs, 0)
      == AllNamed(ts, strs, 0)[..k] + AllNamed(mid, strs, 0) + AllNamed(ts, strs, 0)[m..]
  {
    NamedConcat(ts[..k] + mid, ts[m..], strs, 0);
    NamedConcat(ts[..k], mid, strs, 0);
    NamedSlice(ts, strs, 0, k);
    NamedSlice(ts, strs, 0, m);
  }

  /** `fdt_del_node`. */
  method DelNode(f: Blob, nodeoffset: nat, ghost k: nat) returns (err: int)
    requires Complete(f) && Cursor(f, nodeoffset, k)
    modifies f, f.buf
    ensures f.buf == old(f.buf)
    ensures err == 0 <==> old(IsSubtree(Items(f), k))
    ensures err != 0 ==> State(f) == old(State(f))
    ensures err == 0 ==> Complete(f) && Items(f) == old(Items(f)[..k] + Items(f)[EndOf(Items(f), k)..])
    ensures FrontKept(old(State(f)), State(f), k)
  {
    ghost var x := State(f);
    FrontRefl(x, k);
    var end := NodeEndOffset(f, nodeoffset, k);
    if end < 0 { return end; }
    ghost var m := EndOf(Items(f), k);
    OffsetMono(x.b, x.i, x.j, k, m);
    assert x.At(k) == f.offStruct + nodeoffset && x.At(m) == f.offStruct + end;
    err := SpliceStruct(f, f.offStruct + nodeoffset, end - nodeoffset, 0);
    RemoveOk(x, State(f), k, m, f.offStruct + nodeoffset, end - nodeoffset);
  }

  lemma RemoveOk(x: Image, y: Image, k: nat, m: nat, at: nat, old': nat)
    requires x.Valid() && k <= m <= x.Count() && x.At(k) == at && x.At(m) == at + old' && Spliced(x, y, at, old', 0)
    ensures y.Valid() && y.Items() == x.Items()[..k] + x.Items()[m..] && FrontKept(x, y, k)
  {
    EditOk(x, y, k, m, 0, []);
    Units(x.Items()[..k]);
  }

  /** A node whose matching close is found. */
  ghost predicate IsSubtree(its: seq<Item>, k: nat) { k < |its| && its[k].Open? && Scan(its[k + 1..], 0).Some? }

  function Nops(n: nat): seq<Token> { if n == 0 then [] else Nops(n - 1) + [Nop] }

  function Skips(n: nat): seq<Item> { if n == 0 then [] else Skips(n - 1) + [Skip] }

  lemma {:induction false} NopsAreSkips(n: nat, strs: bytes)
    ensures AllNamed(Nops(n), strs, 0) == Skips(n) && AllSkips(Skips(n))
  {
    if n > 0 {
      NopsAreSkips(n - 1, strs);
      NamedConcat(Nops(n - 1), [Nop], strs, 0);
      NoSkipsConcat(Skips(n - 1), [Skip]);
    }
  }

  /** `fdt_nop_region_`. */
  method NopRegion(f: Blob, start: nat, len: nat)
    requires start + Align4(len) <= f.buf.Length
    modifies f.buf
    ensures f.buf[..][..start] == old(f.buf[..])[..start]
    ensures f.buf[..][start + Align4(len)..] == old(f.buf[..])[start + Align4(len)..]
    ensures Tokens(f.buf[..], start, start + Align4(len)) == Some(Nops(Align4(len) / 4))
  {
    TagSpells(FDT_NOP);
    Align4Formula(len);
    var p, n := start, 0;
    while p < start + len
      invariant p == start + 4 * n <= start + Align4(len)
      invariant Tokens(f.buf[..], start, p) == Some(Nops(n))
      invariant f.buf[..][..start] == old(f.buf[..])[..start] && f.buf[..][p..] == old(f.buf[..])[p..]
    {
      ghost var b := f.buf[..];
      f.Store(p, U32(FDT_NOP));
      NopStep(old(f.buf[..]), b, f.buf[..], start, p);
      p, n := p + 4, n + 1;
    }
  }

  lemma NopStep(a: bytes, b: bytes, c: bytes, start: nat, p: nat)
    requires start <= p && p + 4 <= |b| == |a| && c == Write(b, p, U32(FDT_NOP)) && Tokens(b, start, p).Some?
    requires Spells(U32(FDT_NOP), 4, Nop) && b[..start] == a[..start] && b[p..] == a[p..]
    ensures Tokens(c, start, p + 4) == Some(Tokens(b, start, p).value + [Nop])
    ensures c[..start] == a[..start] && c[p + 4..] == a[p + 4..]
  {
    Wrote(b, p, U32(FDT_NOP));
    Appended(b, c, start, p, p + 4, Nop);
    KeptPrefix(b, c, p, start);
    Later(b, a, p, p + 4);
  }

  /** NOP tags over tokens k to m. */
  method NopTokens(f: Blob, start: nat, end: nat, ghost k: nat, ghost m: nat) returns (ghost n: nat)
    requires Complete(f) && k <= m && Cursor(f, start, k) && Cursor(f, end, m)
    modifies f.buf
    ensures Complete(f) && Items(f) == old(Items(f)[..k]) + Skips(n) + old(Items(f)[m..])
    ensures FrontKept(old(State(f)), State(f), k)
  {
    ghost var x := State(f);
    SubtreeBytes(x, k, m);
    n := (end - start) / 4;
    NopRegion(f, f.offStruct + start, end - start);
    NopOk(x, State(f), k, m);
  }

  /** `fdt_nop_node`. */
  method NopNode(f: Blob, nodeoffset: nat, ghost k: nat) returns (err: int, ghost n: nat)
    requires Complete(f) && Cursor(f, nodeoffset, k)
    modifies f.buf
    ensures (err == 0) == old(IsSubtree(Items(f), k))
    ensures err != 0 ==> State(f) == old(State(f))
    ensures err == 0 ==> Complete(f) && Items(f) == old(Items(f)[..k]) + Skips(n) + old(Items(f)[EndOf(Items(f), k)..])
    ensures FrontKept(old(State(f)), State(f), k)
  {
    n := 0;
    FrontRefl(State(f), k);
    var end := NodeEndOffset(f, nodeoffset, k);
    if end < 0 { return end, n; }
    n := NopTokens(f, nodeoffset, end, k, EndOf(Items(f), k));
    err := 0;
  }

  // ------------------------------------------------------------------- on the tree

  /** `fdt_del_node` on a blob that describes a tree: it succeeds exactly at a node,
      and the blob then describes the tree without exactly that node. */
  method DelNodeOfTree(f: Blob, nodeoffset: nat, ghost k: nat, ghost es: seq<Elem>) returns (err: int)
    requires Complete(f) && Cursor(f, nodeoffset, k) && Describes(Items(f), es)
    modifies f, f.buf
    ensures f.buf == old(f.buf) && Complete(f)
    ensures err == 0 <==> k < |old(Items(f))| && old(Items(f))[k].Open?
    ensures err != 0 ==> State(f) == old(State(f))
    ensures err == 0 ==>
      var n := Opens(old(Items(f))[..k]); n < Opens(Flat(es)) && Describes(Items(f), At(es, n).without)
  {
    ghost var its := Items(f);
    if k < |its| && its[k].Open? {
      SubtreeGone(its, es, k, []);
      Units(its[..k]);
    }
    err := DelNode(f, nodeoffset, k);
  }

  /** `fdt_nop_node` on such a blob: the same tree, by NOP tags. */
  method NopNodeOfTree(f: Blob, nodeoffset: nat, ghost k: nat, ghost es: seq<Elem>) returns (err: int)
    requires Complete(f) && Cursor(f, nodeoffset, k) && Describes(Items(f), es)
    modifies f.buf
    ensures Complete(f)
    ensures err == 0 <==> k < |old(Items(f))| && old(Items(f))[k].Open?
    ensures err != 0 ==> State(f) == old(State(f))
    ensures err == 0 ==>
      var n := Opens(old(Items(f))[..k]); n < Opens(Flat(es)) && Describes(Items(f), At(es, n).without)
  {
    ghost var its := Items(f);
    if k < |its| && its[k].Open? { SubtreeGone(its, es, k, []); }
    ghost var n;
    err, n := NopNode(f, nodeoffset, k);
    if err == 0 {
      NopsAreSkips(n, []);
      SubtreeGone(its, es, k, Skips(n));
    }
  }

  lemma SubtreeBytes(x: Image, k: nat, m: nat)
    requires x.Valid() && k <= m <= x.Count()
    ensures x.At(k) <= x.At(m) && Align4(x.At(m) - x.At(k)) == x.At(m) - x.At(k)
  {
    OffsetMono(x.b, x.i, x.j, k, m);
    OffsetAligned(x.b, x.i, x.j, k);
    OffsetAligned(x.b, x.i, x.j, m);
    Align4Fits(x.At(m) - x.At(k));
  }

  lemma NopOk(x: Image, y: Image, k: nat, m: nat)
    requires x.Valid() && k <= m <= x.Count() && x.At(k) <= x.At(m) && |y.b| == |x.b| && y == x.(b := y.b)
    requires y.b[..x.At(k)] == x.b[..x.At(k)] && y.b[x.At(m)..] == x.b[x.At(m)..]
    requires Tokens(y.b, x.At(k), x.At(m)) == Some(Nops((x.At(m) - x.At(k)) / 4))
    ensures y.Valid() && y.Items() == x.Items()[..k] + Skips((x.At(m) - x.At(k)) / 4) + x.Items()[m..]
    ensures FrontKept(x, y, k)
  {
    var len := x.At(m) - x.At(k);
    KeptAfter(x.b, y.b, x.At(m), x.At(m), x.p + x.s);
    NopsAreSkips(len / 4, x.Strings());
    assert x.At(k) + len == x.At(m);
    EditOk(x, y, k, m, len, Nops(len / 4));
  }
}
