/** Setting and removing a property, on the tree a blob describes. */
module FdtTreeProps {
  import opened Wrappers
  import opened FdtTokens
  import opened FdtNames
  import opened FdtBlob
  import opened FdtTree
  import opened FdtWalk
  import opened FdtEdit
  import opened FdtProps
  import opened FdtSetProp
  import opened Seqs

  // ------------------------------------------------------------- a node's properties

  /** The properties of a node come before its subnodes. */
  predicate HasAttr(b: seq<Elem>, name: bytes) {
    b != [] && b[0].Attr? && (b[0].pname == Some(name) || HasAttr(b[1..], name))
  }

  /** The first property of that name has the value. */
  function ReplaceAttr(b: seq<Elem>, name: bytes, val: bytes): seq<Elem> {
    if b == [] then [] else
    if b[0].Attr? && b[0].pname == Some(name) then [Attr(Some(name), val)] + b[1..]
    else [b[0]] + ReplaceAttr(b[1..], name, val)
  }

  /** The first property of that name is gone. */
  function CutAttr(b: seq<Elem>, name: bytes): seq<Elem> {
    if b == [] then [] else
    if b[0].Attr? && b[0].pname == Some(name) then b[1..] else [b[0]] + CutAttr(b[1..], name)
  }

  /** The property has the value, as the node's first where there was none. */
  function PutAttr(b: seq<Elem>, name: bytes, val: bytes): seq<Elem> {
    if HasAttr(b, name) then ReplaceAttr(b, name, val) else [Attr(Some(name), val)] + b
  }

  // ------------------------------------------------------------- a node's new contents

  /** The tree with the n-th node's contents replaced. */
  function Rebody(es: seq<Elem>, n: nat, b: seq<Elem>): seq<Elem>
    decreases es
  {
    if es == [] then [] else
    var m := Opens(FlatElem(es[0]));
    if n < m then [RebodyElem(es[0], n, b)] + es[1..] else [es[0]] + Rebody(es[1..], n - m, b)
  }

  function RebodyElem(e: Elem, n: nat, b: seq<Elem>): Elem
    decreases e
  {
    match e
    case Attr(_, _) => e
    case Node(name, body) => if n == 0 then Node(name, b) else Node(name, Rebody(body, n - 1, b))
  }

  /** Around the node everything is as it was. */
  ghost predicate Rebodied(its: seq<Item>, v: View, b: seq<Elem>) {
    its == v.before + FlatElem(Node(v.name, b)) + v.after
  }

  lemma {:induction false} RebodyOk(es: seq<Elem>, n: nat, b: seq<Elem>)
    requires n < Opens(Flat(es))
    ensures Rebodied(Flat(Rebody(es, n, b)), At(es, n), b)
    decreases es
  {
    var e, tail := es[0], es[1..];
    OpensConcat(FlatElem(e), Flat(tail));
    var m := Opens(FlatElem(e));
    if n < m {
      RebodyElemOk(e, n, b);
      var v := AtElem(e, n);
      FlatFirst(RebodyElem(e, n, b), tail);
      Regroup(v.before + FlatElem(Node(v.name, b)), v.after, Flat(tail));
    } else {
      RebodyOk(tail, n - m, b);
      var v := At(tail, n - m);
      FlatFirst(e, Rebody(tail, n - m, b));
      Regroup4(FlatElem(e), v.before, FlatElem(Node(v.name, b)), v.after);
    }
  }

  lemma {:induction false} RebodyElemOk(e: Elem, n: nat, b: seq<Elem>)
    requires n < Opens(FlatElem(e))
    ensures Rebodied(FlatElem(RebodyElem(e, n, b)), AtElem(e, n), b)
    decreases e
  {
    if e.Node? {
      OpensNode(e.name, e.body);
      if n == 0 {
        Units(FlatElem(Node(e.name, b)));
      } else {
        RebodyOk(e.body, n - 1, b);
        var v, x := At(e.body, n - 1), [Open(e.name)];
        Regroup4(x, v.before, FlatElem(Node(v.name, b)), v.after);
        Regroup(x + v.before + FlatElem(Node(v.name, b)), v.after, [Close]);
      }
    }
  }

  // ------------------------------------------------------------------- the search

  lemma {:induction false} FirstItem(b: seq<Elem>, z: seq<Item>)
    requires z != [] && z[0].Close?
    ensures (Flat(b) + z)[0] == if b == [] then Close else if b[0].Attr? then Property(b[0].pname, b[0].val)
      else Open(b[0].name)
    ensures b != [] && b[0].Attr? ==> (Flat(b) + z)[1..] == Flat(b[1..]) + z
  {
    if b != [] && b[0].Attr? { Regroup([Property(b[0].pname, b[0].val)], Flat(b[1..]), z); }
  }

  lemma FirstOfRest(its: seq<Item>, k: nat)
    requires k < |its|
    ensures NoSkips(its[k..]) == (if its[k].Skip? then [] else [its[k]]) + NoSkips(its[k + 1..])
  {
    assert its[k..][1..] == its[k + 1..];
  }

  lemma FirstOfFront(its: seq<Item>, k: nat, q: nat)
    requires k < q <= |its|
    ensures NoSkips(its[k..q]) == (if its[k].Skip? then [] else [its[k]]) + NoSkips(its[k + 1..q])
  {
    assert its[k..q][1..] == its[k + 1..q];
  }

  lemma {:induction false} AfterFirstAttr(its: seq<Item>, k: nat, b: seq<Elem>, z: seq<Item>)
    requires k < |its| && its[k].Property? && NoSkips(its[k..]) == Flat(b) + z && z != [] && z[0].Close?
    ensures b != [] && b[0] == Attr(its[k].pname, its[k].val) && NoSkips(its[k + 1..]) == Flat(b[1..]) + z
  {
    FirstOfRest(its, k);
    FirstItem(b, z);
    ConcatAt([its[k]], NoSkips(its[k + 1..]));
  }

  /** What the search finds among the items is what the node has; changing or cutting
      it there does so in the node. */
  ghost predicate FindsBody(its: seq<Item>, k: nat, b: seq<Elem>, z: seq<Item>, name: bytes, val: bytes)
    requires k <= |its|
  {
    match Find(its, k, name)
    case Here(q) =>
      && HasAttr(b, name)
      && NoSkips(its[k..q]) + ([Property(Some(name), val)] + NoSkips(its[q + 1..]))
        == Flat(ReplaceAttr(b, name, val)) + z
      && NoSkips(its[k..q]) + NoSkips(its[q + 1..]) == Flat(CutAttr(b, name)) + z
    case Missing => !HasAttr(b, name)
    case Broken => false
  }

  lemma {:induction false} FindBody(its: seq<Item>, k: nat, b: seq<Elem>, z: seq<Item>, name: bytes, val: bytes)
    requires k <= |its| && NoSkips(its[k..]) == Flat(b) + z && z != [] && z[0].Close?
    ensures FindsBody(its, k, b, z, name, val)
    decreases |its| - k
  {
    FirstItem(b, z);
    FirstOfRest(its, k);
    if its[k].Skip? {
      FindBody(its, k + 1, b, z, name, val);
      FoundPastSkip(its, k, b, z, name, val);
    } else if its[k].Property? {
      AfterFirstAttr(its, k, b, z);
      if its[k].pname == Some(name) {
        FoundFirst(its, k, b, z, name, val);
      } else {
        FindBody(its, k + 1, b[1..], z, name, val);
        FoundPast(its, k, b, z, name, val);
      }
    }
  }

  lemma FoundFirst(its: seq<Item>, k: nat, b: seq<Elem>, z: seq<Item>, name: bytes, val: bytes)
    requires k < |its| && its[k].Property? && its[k].pname == Some(name)
    requires b != [] && b[0] == Attr(its[k].pname, its[k].val) && NoSkips(its[k + 1..]) == Flat(b[1..]) + z
    ensures FindsBody(its, k, b, z, name, val)
  {
    assert its[k..k] == [];
    FlatFirst(Attr(Some(name), val), b[1..]);
    Regroup([Property(Some(name), val)], Flat(b[1..]), z);
    Units(NoSkips(its[k + 1..]));
    Units([Property(Some(name), val)] + NoSkips(its[k + 1..]));
  }

  lemma FoundPastSkip(its: seq<Item>, k: nat, b: seq<Elem>, z: seq<Item>, name: bytes, val: bytes)
    requires k < |its| && its[k].Skip? && FindsBody(its, k + 1, b, z, name, val)
    ensures FindsBody(its, k, b, z, name, val)
  {
    var r := Find(its, k + 1, name);
    assert Find(its, k, name) == r;
    if r.Here? {
      FirstOfFront(its, k, r.at);
      Units(NoSkips(its[k + 1..r.at]));
    }
  }

  lemma FoundPast(its: seq<Item>, k: nat, b: seq<Elem>, z: seq<Item>, name: bytes, val: bytes)
    requires k < |its| && its[k].Property? && its[k].pname != Some(name)
    requires b != [] && b[0] == Attr(its[k].pname, its[k].val) && FindsBody(its, k + 1, b[1..], z, name, val)
    ensures FindsBody(its, k, b, z, name, val)
  {
    var r, x := Find(its, k + 1, name), [its[k]];
    assert Find(its, k, name) == r;
    if r.Here? {
      FirstOfFront(its, k, r.at);
      var a, c, y := NoSkips(its[k + 1..r.at]), NoSkips(its[r.at + 1..]), [Property(Some(name), val)];
      Regroup(x, a, y + c);
      Regroup(x, a, c);
      FlatFirst(b[0], ReplaceAttr(b[1..], name, val));
      FlatFirst(b[0], CutAttr(b[1..], name));
      Regroup(x, Flat(ReplaceAttr(b[1..], name, val)), z);
      Regroup(x, Flat(CutAttr(b[1..], name)), z);
    }
  }

  // --------------------------------------------------------------------- the tree

  /** The items before the node's contents, and its contents and what follows. */
  lemma {:induction false} NodeParts(its: seq<Item>, es: seq<Elem>, k: nat)
    requires Describes(its, es) && k < |its| && its[k].Open?
    ensures var n := Opens(its[..k]); n < Opens(Flat(es)) && var v := At(es, n);
      && NoSkips(its[..k]) == v.before && its[k] == Open(v.name)
      && NoSkips(its[k + 1..]) == Flat(v.body) + ([Close] + (v.after + [Stop]))
  {
    NodeAt(its, es, k);
    var v := At(es, Opens(its[..k]));
    AtOk(es, Opens(its[..k]));
    SplitAt(its, k);
    Remainder(v, es, its[k], NoSkips(its[k + 1..]));
    Regroup(Flat(v.body), [Close], v.after + [Stop]);
  }

  /** Items that differ in the contents of one node describe the tree with that node's
      contents replaced. */
  lemma {:induction false} DescribesRebody(its: seq<Item>, es: seq<Elem>, k: nat, now: seq<Item>, b: seq<Elem>)
    requires Describes(its, es) && k < |its| && its[k].Open? && k < |now| && now[..k + 1] == its[..k + 1]
    requires Opens(its[..k]) < Opens(Flat(es))
    requires NoSkips(now[k + 1..]) == Flat(b) + ([Close] + (At(es, Opens(its[..k])).after + [Stop]))
    ensures Describes(now, Rebody(es, Opens(its[..k]), b))
  {
    var n := Opens(its[..k]);
    NodeParts(its, es, k);
    RebodyOk(es, n, b);
    var v, x := At(es, n), [its[k]];
    assert now[k] == now[..k + 1][k] == its[k] && now[..k] == now[..k + 1][..k] == its[..k + 1][..k] == its[..k];
    SplitAt(now, k);
    Regroup(Flat(b), [Close], v.after + [Stop]);
    Regroup(x, Flat(b) + [Close], v.after + [Stop]);
    Regroup(x, Flat(b), [Close]);
    Regroup(v.before, FlatElem(Node(v.name, b)), v.after + [Stop]);
    Regroup(v.before + FlatElem(Node(v.name, b)), v.after, [Stop]);
  }

  /** Setting a property among the items sets it in the tree. */
  lemma {:induction false} SetOnTree(its: seq<Item>, es: seq<Elem>, k: nat, name: bytes, val: bytes)
    requires Describes(its, es) && k < |its| && its[k].Open?
    ensures Opens(its[..k]) < Opens(Flat(es)) && !Lookup(its, k, name).Broken?
    ensures var n := Opens(its[..k]);
      Describes(Set(its, k, name, val), Rebody(es, n, PutAttr(At(es, n).body, name, val)))
  {
    NodeParts(its, es, k);
    var n := Opens(its[..k]);
    var v := At(es, n);
    var z := [Close] + (v.after + [Stop]);
    FindBody(its, k + 1, v.body, z, name, val);
    var now, r := Set(its, k, name, val), Find(its, k + 1, name);
    if r.Here? {
      ReplacedParts(its, k, r.at, val);
    } else {
      InsertedParts(its, k, name, val);
      FlatFirst(Attr(Some(name), val), v.body);
      Regroup([Property(Some(name), val)], Flat(v.body), z);
    }
    DescribesRebody(its, es, k, now, PutAttr(v.body, name, val));
  }

  lemma ReplacedParts(its: seq<Item>, k: nat, q: nat, val: bytes)
    requires k < q < |its| && its[q].Property?
    ensures var now := Replaced(its, q, val);
      && k < |now| && now[..k + 1] == its[..k + 1]
      && NoSkips(now[k + 1..]) == NoSkips(its[k + 1..q]) + ([Property(its[q].pname, val)] + NoSkips(its[q + 1..]))
  {
    var now, x := Replaced(its, q, val), [Property(its[q].pname, val)];
    assert now[k + 1..] == its[k + 1..q] + (x + its[q + 1..]);
    NoSkipsConcat(its[k + 1..q], x + its[q + 1..]);
    NoSkipsFirst(x[0], its[q + 1..]);
  }

  lemma InsertedParts(its: seq<Item>, k: nat, name: bytes, val: bytes)
    requires k < |its|
    ensures var now := Inserted(its, k, name, val);
      && k < |now| && now[..k + 1] == its[..k + 1]
      && NoSkips(now[k + 1..]) == [Property(Some(name), val)] + NoSkips(its[k + 1..])
  {
    var now := Inserted(its, k, name, val);
    assert now[k + 1..] == [Property(Some(name), val)] + its[k + 1..];
    NoSkipsFirst(Property(Some(name), val), its[k + 1..]);
  }

  /** Removing a property, or writing NOP tags over it, removes it from the tree. */
  lemma {:induction false} RemoveOnTree(its: seq<Item>, es: seq<Elem>, k: nat, name: bytes, now: seq<Item>, gap: nat)
    requires Describes(its, es) && k < |its| && its[k].Open? && Find(its, k + 1, name).Here?
    requires Removed(its, now, Find(its, k + 1, name).at, gap)
    ensures var n := Opens(its[..k]);
      && n < Opens(Flat(es)) && HasAttr(At(es, n).body, name)
      && Describes(now, Rebody(es, n, CutAttr(At(es, n).body, name)))
  {
    NodeParts(its, es, k);
    var v := At(es, Opens(its[..k]));
    FindBody(its, k + 1, v.body, [Close] + (v.after + [Stop]), name, []);
    RemovedParts(its, k, Find(its, k + 1, name).at, now, gap);
    DescribesRebody(its, es, k, now, CutAttr(v.body, name));
  }

  lemma RemovedParts(its: seq<Item>, k: nat, q: nat, now: seq<Item>, gap: nat)
    requires k < q < |its| && Removed(its, now, q, gap)
    ensures k < |now| && now[..k + 1] == its[..k + 1]
    ensures NoSkips(now[k + 1..]) == NoSkips(its[k + 1..q]) + NoSkips(its[q + 1..])
  {
    assert now[k + 1..] == its[k + 1..q] + (Skips(gap) + its[q + 1..]);
    NoSkipsConcat(its[k + 1..q], Skips(gap) + its[q + 1..]);
    NopsAreSkips(gap, []);
    NoSkipsConcat(Skips(gap), its[q + 1..]);
    Units(NoSkips(its[q + 1..]));
  }

  /** The node has the property exactly if the search finds it. */
  lemma {:induction false} FindOnTree(its: seq<Item>, es: seq<Elem>, k: nat, name: bytes)
    requires Describes(its, es) && k < |its| && its[k].Open?
    ensures Opens(its[..k]) < Opens(Flat(es))
    ensures Find(its, k + 1, name).Here? <==> HasAttr(At(es, Opens(its[..k])).body, name)
  {
    NodeParts(its, es, k);
    var v := At(es, Opens(its[..k]));
    FindBody(its, k + 1, v.body, [Close] + (v.after + [Stop]), name, []);
  }

  // --------------------------------------------------------------------- the calls

  /** `fdt_setprop` on a blob that describes a tree: it succeeds exactly at a node where
      the value fits, and the blob then describes the tree with that node's property
      set. */
  method SetPropOfTree(f: Blob, nodeoffset: nat, name: bytes, val: bytes, ghost k: nat, ghost es: seq<Elem>)
      returns (err: int)
    requires Complete(f) && Cursor(f, nodeoffset, k) && CString(name) && |val| <= INT_MAX && Resolved(Items(f))
    requires Describes(Items(f), es)
    modifies f, f.buf
    ensures f.buf == old(f.buf) && Complete(f) && Resolved(Items(f)) && Cursor(f, nodeoffset, k)
    ensures err == 0 <==> k < |old(Items(f))| && old(Items(f))[k].Open? && !old(Short(State(f), k, name, val))
    ensures err == 0 ==>
      var n := Opens(old(Items(f))[..k]);
      n < Opens(Flat(es)) && Describes(Items(f), Rebody(es, n, PutAttr(At(es, n).body, name, val)))
    ensures err != 0 ==> Describes(Items(f), es)
  {
    ghost var its := Items(f);
    if k < |its| && its[k].Open? { SetOnTree(its, es, k, name, val); }
    err := SetProp(f, nodeoffset, name, val, k);
    SetResolved(its, k, name, val);
  }

  /** `fdt_delprop` on such a blob: it succeeds exactly if the node has the property, and
      the tree is then without it. */
  method DelPropOfTree(f: Blob, nodeoffset: nat, name: bytes, ghost k: nat, ghost es: seq<Elem>) returns (err: int)
    requires Complete(f) && Cursor(f, nodeoffset, k) && k < |Items(f)| && Items(f)[k].Open? && Describes(Items(f), es)
    modifies f, f.buf
    ensures f.buf == old(f.buf) && Complete(f) && Cursor(f, nodeoffset, k)
    ensures var n := Opens(old(Items(f))[..k]);
      && n < Opens(Flat(es)) && (err == 0 <==> HasAttr(At(es, n).body, name))
      && Describes(Items(f), if err == 0 then Rebody(es, n, CutAttr(At(es, n).body, name)) else es)
  {
    ghost var its := Items(f);
    FindOnTree(its, es, k, name);
    err := DelProp(f, nodeoffset, name, k);
    if err == 0 { RemoveOnTree(its, es, k, name, Items(f), 0); }
  }

  /** `fdt_nop_property`: the same tree, by NOP tags. */
  method NopPropertyOfTree(f: Blob, nodeoffset: nat, name: bytes, ghost k: nat, ghost es: seq<Elem>) returns (err: int)
    requires Complete(f) && Cursor(f, nodeoffset, k) && k < |Items(f)| && Items(f)[k].Open? && Describes(Items(f), es)
    modifies f.buf
    ensures Complete(f) && Cursor(f, nodeoffset, k)
    ensures var n := Opens(old(Items(f))[..k]);
      && n < Opens(Flat(es)) && (err == 0 <==> HasAttr(At(es, n).body, name))
      && Describes(Items(f), if err == 0 then Rebody(es, n, CutAttr(At(es, n).body, name)) else es)
  {
    ghost var its := Items(f);
    FindOnTree(its, es, k, name);
    ghost var gap;
    err, gap := NopProperty(f, nodeoffset, name, k);
    if err == 0 { RemoveOnTree(its, es, k, name, Items(f), gap); }
  }
}
