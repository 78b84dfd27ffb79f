/** Walking a finished blob by offsets: nodes, depths and the end of a subtree. */
module FdtWalk {
  import opened Wrappers
  import opened FdtTokens
  import opened FdtNames
  import opened FdtBlob
  import opened FdtTree
  import opened Seqs

  const NOTFOUND := -1
  const BADOFFSET := -4

  lemma {:induction false} NamedSlice(ts: seq<Token>, s: bytes, bias: nat, k: nat)
    requires k <= |ts|
    ensures AllNamed(ts, s, bias)[k..] == AllNamed(ts[k..], s, bias)
      && AllNamed(ts, s, bias)[..k] == AllNamed(ts[..k], s, bias)
    ensures k < |ts| ==> AllNamed(ts, s, bias)[k] == Named(ts[k], s, bias)
  {
    Whole(ts, k);
    NamedConcat(ts[..k], ts[k..], s, bias);
    ConcatAt(AllNamed(ts[..k], s, bias), AllNamed(ts[k..], s, bias));
  }

  /** The offset is that of the k-th token, or the end of the block. */
  ghost predicate Cursor(f: Blob, offset: int, k: nat)
    requires Complete(f)
    reads f, f.buf
  {
    offset >= 0 && k <= |f.StructTokens().value| && f.offStruct + offset == Offset(f.buf[..], f.offStruct, f.Top(), k)
  }

  /** `fdt_next_tag` at a token. */
  method Tag(f: Blob, offset: nat, ghost k: nat) returns (tag: nat, next: int)
    requires Complete(f) && Cursor(f, offset, k)
    ensures k < |Items(f)| ==> tag == TagOf(f.StructTokens().value[k]) && Cursor(f, next, k + 1)
    ensures k == |Items(f)| ==> tag == FDT_END && next == TRUNCATED
  {
    ghost var b, i, j := f.buf[..], f.offStruct, f.Top();
    OffsetAligned(b, i, j, k);
    if offset == f.sizeStruct {
      AtEnd(b, i, j, k);
      tag, next := f.NextTag(offset);
    } else {
      BeforeEnd(b, i, j, k);
      OffsetNext(b, i, j, k);
      tag, next := Walk(f, offset);
    }
  }

  lemma {:induction false} AtEnd(b: bytes, i: nat, j: nat, k: nat)
    requires i <= j <= |b| && Tokens(b, i, j).Some? && k <= |Tokens(b, i, j).value| && Offset(b, i, j, k) == j
    ensures k == |Tokens(b, i, j).value|
    decreases j - i
  {
    if k > 0 { AtEnd(b, i + Align4(TokenAt(b, i, j).len), j, k - 1); }
  }

  lemma {:induction false} BeforeEnd(b: bytes, i: nat, j: nat, k: nat)
    requires i <= j <= |b| && Tokens(b, i, j).Some? && k <= |Tokens(b, i, j).value| && Offset(b, i, j, k) < j
    ensures k < |Tokens(b, i, j).value|
    decreases j - i
  {
    if k > 0 { BeforeEnd(b, i + Align4(TokenAt(b, i, j).len), j, k - 1); }
  }

  /** The k-th item has the k-th token's tag. */
  lemma ItemTag(f: Blob, k: nat)
    requires Complete(f) && k < |Items(f)|
    ensures var t, it := f.StructTokens().value[k], Items(f)[k];
      it.Open? == t.Begin? && it.Close? == t.EndNode? && it.Property? == t.Prop? && it.Skip? == t.Nop?
        && it.Stop? == t.End?
  {
    NamedSlice(f.StructTokens().value, f.buf[..][f.offStrings..f.offStrings + f.sizeStrings], 0, k);
  }

  /** `fdt_next_tag`, in terms of items. */
  method ItemAt(f: Blob, offset: nat, ghost k: nat) returns (tag: nat, next: int)
    requires Complete(f) && Cursor(f, offset, k)
    ensures k < |Items(f)| ==> TagOfItem(Items(f)[k]) == tag && Cursor(f, next, k + 1)
    ensures k == |Items(f)| ==> tag == FDT_END && next == TRUNCATED
  {
    if k < |Items(f)| { ItemTag(f, k); }
    tag, next := Tag(f, offset, k);
  }

  function TagOfItem(it: Item): nat {
    match it
    case Open(_) => FDT_BEGIN_NODE
    case Close => FDT_END_NODE
    case Property(_, _) => FDT_PROP
    case Skip => FDT_NOP
    case Stop => FDT_END
  }

  /** Where the search for the matching close stands at item m, depth d. */
  ghost function Left(its: seq<Item>, m: nat, d: nat): Option<nat>
    requires m <= |its|
  {
    Scan(its[m..], d)
  }

  lemma LeftStep(its: seq<Item>, m: nat, d: nat)
    requires m < |its|
    ensures Left(its, m, d) ==
      if its[m].Stop? then None
      else if its[m].Open? then Plus(1, Left(its, m + 1, d + 1))
      else if its[m].Close? then if d == 0 then Some(1) else Plus(1, Left(its, m + 1, d - 1))
      else Plus(1, Left(its, m + 1, d))
  {
    assert its[m..][0] == its[m] && its[m..][1..] == its[m + 1..];
  }

  /** `fdt_check_node_offset_`. */
  method CheckNodeOffset(f: Blob, offset: nat, ghost k: nat) returns (next: int)
    requires Complete(f) && Cursor(f, offset, k)
    ensures if k < |Items(f)| && Items(f)[k].Open? then Cursor(f, next, k + 1) else next == BADOFFSET
  {
    var tag;
    tag, next := ItemAt(f, offset, k);
    if tag != FDT_BEGIN_NODE { next := BADOFFSET; }
  }

  /** `fdt_next_node`, with the depth: on to the next node opened, or past the
      close that ends the walk. */
  method NextNode(f: Blob, offset: nat, depth: nat, ghost k: nat) returns (res: int, d: int, ghost m: nat)
    requires Complete(f) && Cursor(f, offset, k)
    ensures !(k < |Items(f)| && Items(f)[k].Open?) ==> res == BADOFFSET
    ensures k < |Items(f)| && Items(f)[k].Open? && res < 0 ==> Left(Items(f), k + 1, depth).None?
    ensures res >= 0 ==> k < m <= |Items(f)| && Items(f)[k].Open? && Cursor(f, res, m)
    ensures res >= 0 && d < 0 ==> Left(Items(f), k + 1, depth) == Some(m - (k + 1))
    ensures res >= 0 && d >= 0 ==> m < |Items(f)| && Items(f)[m].Open?
    ensures res >= 0 && d >= 0 ==> Left(Items(f), k + 1, depth) == Plus(m - k, Left(Items(f), m + 1, d))
  {
    var next := CheckNodeOffset(f, offset, k);
    if next < 0 { return next, depth, k; }
    res, d, m := WalkOn(f, next, depth, k + 1);
  }

  method WalkOn(f: Blob, start: nat, depth: nat, ghost k: nat) returns (res: int, d: int, ghost m: nat)
    requires Complete(f) && Cursor(f, start, k)
    ensures res < 0 ==> Left(Items(f), k, depth).None?
    ensures res >= 0 ==> k <= m <= |Items(f)| && Cursor(f, res, m)
    ensures res >= 0 && d < 0 ==> Left(Items(f), k, depth) == Some(m - k)
    ensures res >= 0 && d >= 0 ==> m < |Items(f)| && Items(f)[m].Open?
    ensures res >= 0 && d >= 0 ==> Left(Items(f), k, depth) == Plus(m + 1 - k, Left(Items(f), m + 1, d))
  {
    ghost var its := Items(f);
    d, m := depth, k;
    var next: int := start;
    while true
      invariant k <= m <= |its| && d >= 0 && Cursor(f, next, m)
      invariant Left(its, k, depth) == Plus(m - k, Left(its, m, d))
      decreases |its| - m
    {
      res := next;
      var tag;
      tag, next := ItemAt(f, res, m);
      if tag == FDT_END {
        if m < |its| { LeftStep(its, m, d); }
        return if next >= 0 then NOTFOUND else next, d, m;
      }
      LeftStep(its, m, d);
      if tag == FDT_BEGIN_NODE { return res, d + 1, m; }
      if tag == FDT_END_NODE {
        d := d - 1;
        if d < 0 { return next, d, m + 1; }
      }
      m := m + 1;
    }
  }

  /** `fdt_node_end_offset_`: the end of exactly the node's own subtree. */
  method NodeEndOffset(f: Blob, offset: nat, ghost k: nat) returns (res: int)
    requires Complete(f) && Cursor(f, offset, k)
    ensures !(k < |Items(f)| && Items(f)[k].Open?) ==> res == BADOFFSET
    ensures k < |Items(f)| && Items(f)[k].Open? ==>
      match Left(Items(f), k + 1, 0)
      case None => res < 0
      case Some(n) => Cursor(f, res, k + 1 + n)
  {
    ghost var its, m := Items(f), k;
    var depth: int := 0;
    res := offset;
    while res >= 0 && depth >= 0
      invariant res >= 0 && depth >= 0 ==>
        k <= m <= |its| && Cursor(f, res, m) && (m == k || (m < |its| && its[m].Open?))
      invariant res >= 0 && depth >= 0 && k < |its| && its[k].Open? ==>
        Left(its, k + 1, 0) == Plus(m - k, Left(its, m + 1, depth))
      invariant res >= 0 && depth >= 0 && m == k ==> depth == 0
      invariant res >= 0 ==> m == k || (k < |its| && its[k].Open?)
      invariant res >= 0 && depth < 0 ==>
        k < |its| && its[k].Open? && k < m <= |its| && Cursor(f, res, m) && Left(its, k + 1, 0) == Some(m - (k + 1))
      invariant res < 0 && k < |its| && its[k].Open? ==> Left(its, k + 1, 0).None?
      invariant res < 0 && !(k < |its| && its[k].Open?) ==> res == BADOFFSET
      decreases if res >= 0 && depth >= 0 then |its| - m + 1 else 0
    {
      ghost var was := m;
      res, depth, m := NextNode(f, res, depth, m);
    }
  }
}
