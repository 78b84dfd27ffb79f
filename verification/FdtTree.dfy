/** The tree a structure block describes, and what removing a subtree does to it. */
module FdtTree {
  import opened Wrappers
  import opened FdtTokens
  import opened FdtNames
  import opened Seqs

  datatype Elem = Attr(pname: Option<bytes>, val: bytes) | Node(name: bytes, body: seq<Elem>)

  /** The items of a list of properties and nodes, in order. */
  function Flat(es: seq<Elem>): seq<Item>
    decreases es
  {
    if es == [] then [] else FlatElem(es[0]) + Flat(es[1..])
  }

  function FlatElem(e: Elem): seq<Item>
    decreases e
  {
    match e
    case Attr(pname, val) => [Property(pname, val)]
    case Node(name, body) => [Open(name)] + Flat(body) + [Close]
  }

  /** NOP tags count for nothing. */
  function NoSkips(its: seq<Item>): seq<Item>
    decreases |its|
  {
    if its == [] then [] else (if its[0].Skip? then [] else [its[0]]) + NoSkips(its[1..])
  }

  lemma {:induction false} NoSkipsConcat(a: seq<Item>, b: seq<Item>)
    ensures NoSkips(a + b) == NoSkips(a) + NoSkips(b)
    decreases |a|
  {
    if a == [] {
      Units(b);
    } else {
      ConcatCut(a, b, 1);
      NoSkipsConcat(a[1..], b);
    }
  }

  /** The items describe this tree. */
  ghost predicate Describes(its: seq<Item>, es: seq<Elem>) { NoSkips(its) == Flat(es) + [Stop] }

  // -------------------------------------------------------------------- parsing

  datatype Parse = Fail | Got(es: seq<Elem>, rest: seq<Item>)

  /** Recursive descent up to the first unmatched CLOSE, the end mark or the end. */
  function Read(its: seq<Item>): (r: Parse)
    ensures r.Got? ==> |r.rest| <= |its|
    decreases |its|
  {
    if its == [] || its[0].Close? || its[0].Stop? then Got([], its) else
    var first := Read(its[1..]);
    if first.Fail? || its[0].Skip? then first else
    if its[0].Property? then Got([Attr(its[0].pname, its[0].val)] + first.es, first.rest) else
    if first.rest == [] || !first.rest[0].Close? then Fail else
    match Read(first.rest[1..])
    case Fail => Fail
    case Got(es, last) => Got([Node(its[0].name, first.es)] + es, last)
  }

  /** Reading the items of a tree gives the tree back. */
  lemma {:induction false} ReadFlat(es: seq<Elem>, rest: seq<Item>)
    requires rest == [] || rest[0].Close? || rest[0].Stop?
    ensures Read(Flat(es) + rest) == Got(es, rest)
    decreases es
  {
    if es == [] {
      Units(rest);
    } else {
      var e, after := es[0], Flat(es[1..]) + rest;
      Regroup(FlatElem(e), Flat(es[1..]), rest);
      ReadFlat(es[1..], rest);
      assert es == [e] + es[1..];
      if e.Node? { ReadNode(e, after); }
    }
  }

  lemma {:induction false} ReadNode(e: Elem, after: seq<Item>)
    requires e.Node? && Read(after).Got?
    ensures Read(FlatElem(e) + after) == Got([e] + Read(after).es, Read(after).rest)
    decreases e
  {
    ReadFlat(e.body, [Close] + after);
    ReadOpen(e.name, Flat(e.body) + ([Close] + after), e.body, after);
    Regroup([Open(e.name)] + Flat(e.body), [Close], after);
    Regroup([Open(e.name)], Flat(e.body), [Close] + after);
  }

  lemma {:induction false} ReadOpen(name: bytes, mid: seq<Item>, body: seq<Elem>, after: seq<Item>)
    requires Read(mid) == Got(body, [Close] + after) && Read(after).Got?
    ensures Read([Open(name)] + mid) == Got([Node(name, body)] + Read(after).es, Read(after).rest)
  {
    ConcatAt([Open(name)], mid);
    ConcatAt([Close], after);
  }

  /** So the items determine the tree. */
  lemma DescribesOne(its: seq<Item>, es: seq<Elem>, fs: seq<Elem>)
    requires Describes(its, es) && Describes(its, fs)
    ensures es == fs
  {
    ReadFlat(es, [Stop]);
    ReadFlat(fs, [Stop]);
  }

  // ------------------------------------------------------------------- one subtree

  /** How many nodes are opened. */
  function Opens(its: seq<Item>): nat
    decreases |its|
  {
    if its == [] then 0 else (if its[0].Open? then 1 else 0) + Opens(its[1..])
  }

  lemma {:induction false} OpensConcat(a: seq<Item>, b: seq<Item>)
    ensures Opens(a + b) == Opens(a) + Opens(b)
    decreases |a|
  {
    if a == [] {
      Units(b);
    } else {
      ConcatCut(a, b, 1);
      OpensConcat(a[1..], b);
    }
  }

  lemma {:induction false} OpensNoSkips(a: seq<Item>)
    ensures Opens(NoSkips(a)) == Opens(a)
    decreases |a|
  {
    if a != [] {
      OpensNoSkips(a[1..]);
      OpensConcat(if a[0].Skip? then [] else [a[0]], NoSkips(a[1..]));
    }
  }

  /** A tree seen from its n-th node in document order: the items before it, its
      body, the items after it, and the tree without it. */
  datatype View = View(before: seq<Item>, name: bytes, body: seq<Elem>, after: seq<Item>, without: seq<Elem>)

  function At(es: seq<Elem>, n: nat): (v: View)
    requires n < Opens(Flat(es))
    decreases es
  {
    OpensConcat(FlatElem(es[0]), Flat(es[1..]));
    var m := Opens(FlatElem(es[0]));
    if n < m then
      var v := AtElem(es[0], n);
      View(v.before, v.name, v.body, v.after + Flat(es[1..]), v.without + es[1..])
    else
      var v := At(es[1..], n - m);
      View(FlatElem(es[0]) + v.before, v.name, v.body, v.after, [es[0]] + v.without)
  }

  function AtElem(e: Elem, n: nat): (v: View)
    requires n < Opens(FlatElem(e))
    decreases e
  {
    match e
    case Attr(_, _) => View([], [], [], [], [])
    case Node(name, body) =>
      OpensNode(name, body);
      if n == 0 then View([], name, body, [], []) else
      var v := At(body, n - 1);
      View([Open(name)] + v.before, v.name, v.body, v.after + [Close], [Node(name, v.without)])
  }

  lemma {:induction false} OpensNode(name: bytes, body: seq<Elem>)
    ensures Opens(FlatElem(Node(name, body))) == 1 + Opens(Flat(body))
  {
    OpensConcat([Open(name)] + Flat(body), [Close]);
    OpensConcat([Open(name)], Flat(body));
  }

  lemma {:induction false} FlatConcat(a: seq<Elem>, b: seq<Elem>)
    ensures Flat(a + b) == Flat(a) + Flat(b)
    decreases |a|
  {
    if a == [] {
      Units(b);
    } else {
      ConcatCut(a, b, 1);
      FlatConcat(a[1..], b);
      Regroup(FlatElem(a[0]), Flat(a[1..]), Flat(b));
    }
  }

  /** The view is of the whole: its pieces make up the tree, and the tree without
      the node is the pieces around it. */
  ghost predicate Views(its: seq<Item>, n: nat, v: View) {
    its == v.before + FlatElem(Node(v.name, v.body)) + v.after && Flat(v.without) == v.before + v.after
      && Opens(v.before) == n
  }

  lemma {:induction false} AtOk(es: seq<Elem>, n: nat)
    requires n < Opens(Flat(es))
    ensures Views(Flat(es), n, At(es, n))
    decreases es
  {
    var e, tail := es[0], es[1..];
    OpensConcat(FlatElem(e), Flat(tail));
    var m := Opens(FlatElem(e));
    if n < m {
      AtElemOk(e, n);
      var v := AtElem(e, n);
      FlatConcat(v.without, tail);
      Regroup(v.before + FlatElem(Node(v.name, v.body)), v.after, Flat(tail));
      Regroup(v.before, v.after, Flat(tail));
    } else {
      AtOk(tail, n - m);
      AfterFirst(e, tail, n, m, At(tail, n - m));
    }
  }

  lemma {:induction false} AfterFirst(e: Elem, tail: seq<Elem>, n: nat, m: nat, v: View)
    requires m == Opens(FlatElem(e)) <= n && Views(Flat(tail), n - m, v)
    ensures Views(FlatElem(e) + Flat(tail), n, View(FlatElem(e) + v.before, v.name, v.body, v.after, [e] + v.without))
  {
    var x, y := FlatElem(e), FlatElem(Node(v.name, v.body));
    FlatFirst(e, v.without);
    Regroup(x, v.before, v.after);
    Regroup4(x, v.before, y, v.after);
    OpensConcat(x, v.before);
  }

  lemma {:induction false} FlatFirst(e: Elem, es: seq<Elem>)
    ensures Flat([e] + es) == FlatElem(e) + Flat(es)
  {
    ConcatAt([e], es);
  }

  lemma {:induction false} AtElemOk(e: Elem, n: nat)
    requires n < Opens(FlatElem(e))
    ensures Views(FlatElem(e), n, AtElem(e, n))
    decreases e
  {
    if e.Node? {
      OpensNode(e.name, e.body);
      if n == 0 {
        Units(FlatElem(e));
      } else {
        AtOk(e.body, n - 1);
        InsideNode(e.name, e.body, n, At(e.body, n - 1));
      }
    }
  }

  lemma {:induction false} InsideNode(name: bytes, body: seq<Elem>, n: nat, v: View)
    requires n > 0 && Views(Flat(body), n - 1, v)
    ensures Views(FlatElem(Node(name, body)), n,
      View([Open(name)] + v.before, v.name, v.body, v.after + [Close], [Node(name, v.without)]))
  {
    var x, y := [Open(name)], FlatElem(Node(v.name, v.body));
    Regroup4(x, v.before, y, v.after);
    Regroup(x + v.before + y, v.after, [Close]);
    Regroup(x, v.before, v.after);
    Regroup(x + v.before, v.after, [Close]);
    Units(FlatElem(Node(name, v.without)));
    OpensConcat(x, v.before);
  }

  /** Two nodes opened after equally many others are the same node. */
  lemma SamePlace(s: seq<Item>, p: nat, q: nat)
    requires p < |s| && q < |s| && s[p].Open? && s[q].Open? && Opens(s[..p]) == Opens(s[..q])
    ensures p == q
  {
    if p < q { OpensStrict(s, p, q); }
    if q < p { OpensStrict(s, q, p); }
  }

  lemma OpensStrict(s: seq<Item>, p: nat, q: nat)
    requires p < q <= |s| && s[p].Open?
    ensures Opens(s[..p]) < Opens(s[..q])
  {
    CutTwice(s, p, q - p);
    OpensConcat(s[..p], s[p..][..q - p]);
    assert s[p..][..q - p][0] == s[p];
  }

  // ------------------------------------------------------------ the matching close

  function Plus(n: nat, o: Option<nat>): Option<nat> { if o.Some? then Some(n + o.value) else None }

  /** How many items it takes to get out of d + 1 open nodes. */
  function Scan(its: seq<Item>, d: nat): (r: Option<nat>)
    ensures r.Some? ==> 0 < r.value <= |its|
    decreases |its|
  {
    if its == [] || its[0].Stop? then None
    else if its[0].Open? then Plus(1, Scan(its[1..], d + 1))
    else if its[0].Close? then if d == 0 then Some(1) else Plus(1, Scan(its[1..], d - 1))
    else Plus(1, Scan(its[1..], d))
  }

  /** A whole forest leaves the depth as it was. */
  lemma {:induction false} ScanFlat(es: seq<Elem>, rest: seq<Item>, d: nat)
    ensures Scan(Flat(es) + rest, d) == Plus(|Flat(es)|, Scan(rest, d))
    decreases es
  {
    if es == [] {
      Units(rest);
    } else {
      Regroup(FlatElem(es[0]), Flat(es[1..]), rest);
      ScanElem(es[0], Flat(es[1..]) + rest, d);
      ScanFlat(es[1..], rest, d);
    }
  }

  lemma {:induction false} ScanElem(e: Elem, rest: seq<Item>, d: nat)
    ensures Scan(FlatElem(e) + rest, d) == Plus(|FlatElem(e)|, Scan(rest, d))
    decreases e
  {
    if e.Node? {
      var x := [Open(e.name)];
      Regroup(x + Flat(e.body), [Close], rest);
      Regroup(x, Flat(e.body), [Close] + rest);
      ConcatAt(x, Flat(e.body) + ([Close] + rest));
      ScanFlat(e.body, [Close] + rest, d + 1);
      ConcatAt([Close], rest);
    } else {
      ConcatAt(FlatElem(e), rest);
    }
  }

  lemma {:induction false} NoSkipsStep(x: Item, a: seq<Item>)
    ensures NoSkips([x] + a) == (if x.Skip? then [] else [x]) + NoSkips(a)
  {
    ConcatAt([x], a);
  }

  /** NOP tags do not disturb the search. */
  lemma {:induction false} ScanNoSkips(its: seq<Item>, d: nat)
    ensures match Scan(its, d)
      case None => Scan(NoSkips(its), d).None?
      case Some(m) => Scan(NoSkips(its), d) == Some(|NoSkips(its[..m])|)
    decreases |its|
  {
    if its != [] && !its[0].Stop? {
      var x := if its[0].Skip? then [] else [its[0]];
      ConcatAt(x, NoSkips(its[1..]));
      Units(NoSkips(its[1..]));
      var d' := if its[0].Open? then d + 1 else if its[0].Close? && d > 0 then d - 1 else d;
      ScanNoSkips(its[1..], d');
      if Scan(its, d).Some? {
        var m := Scan(its, d).value;
        HeadAndTail(its, 0, m - 1);
        Units(its[..m]);
        NoSkipsStep(its[0], its[1..][..m - 1]);
      }
    }
  }

  // --------------------------------------------------------------- subtree removal

  /** Where the subtree of the node at k ends. */
  ghost function EndOf(its: seq<Item>, k: nat): (m: nat)
    requires k < |its| && Scan(its[k + 1..], 0).Some?
    ensures k < m <= |its|
  {
    k + 1 + Scan(its[k + 1..], 0).value
  }

  /** The node at k is the n-th, n being the nodes opened before it. */
  lemma {:induction false} NodeAt(its: seq<Item>, es: seq<Elem>, k: nat)
    requires Describes(its, es) && k < |its| && its[k].Open?
    ensures Opens(its[..k]) < Opens(Flat(es))
    ensures NoSkips(its[..k]) == At(es, Opens(its[..k])).before
  {
    var a, n := NoSkips(its[..k]), Opens(its[..k]);
    SplitAt(its, k);
    OpensNoSkips(its[..k]);
    PlaceIn(Flat(es), a, its[k], NoSkips(its[k + 1..]));
    AtOk(es, n);
    var v := At(es, n);
    var q := |v.before|;
    assert Flat(es)[..q] == v.before && Flat(es)[q] == Open(v.name);
    SamePlace(Flat(es), |a|, q);
  }

  lemma {:induction false} PlaceIn(flat: seq<Item>, a: seq<Item>, x: Item, r: seq<Item>)
    requires flat + [Stop] == a + ([x] + r) && x.Open?
    ensures |a| < |flat| && flat[|a|] == x && flat[..|a|] == a && Opens(a) < Opens(flat)
  {
    var p := |a|;
    assert (flat + [Stop])[p] == x;
    assert flat[..p] == (flat + [Stop])[..p] == a;
    OpensStrict(flat, p, |flat|);
    Units(flat);
  }

  lemma {:induction false} SplitAt(its: seq<Item>, k: nat)
    requires k < |its| && !its[k].Skip?
    ensures NoSkips(its) == NoSkips(its[..k]) + ([its[k]] + NoSkips(its[k + 1..]))
  {
    Whole(its, k);
    NoSkipsConcat(its[..k], its[k..]);
    assert its[k..][0] == its[k] && its[k..][1..] == its[k + 1..];
  }

  /** The search finds the end of exactly that subtree. */
  lemma {:induction false} SubtreeFound(its: seq<Item>, es: seq<Elem>, k: nat)
    requires Describes(its, es) && k < |its| && its[k].Open?
    ensures Opens(its[..k]) < Opens(Flat(es)) && Scan(its[k + 1..], 0).Some?
    ensures var v, m := At(es, Opens(its[..k])), EndOf(its, k);
      NoSkips(its[..k]) == v.before && NoSkips(its[k..m]) == FlatElem(Node(v.name, v.body))
        && NoSkips(its[m..]) == v.after + [Stop]
  {
    NodeAt(its, es, k);
    var v, inner := At(es, Opens(its[..k])), its[k + 1..];
    AtOk(es, Opens(its[..k]));
    SplitAt(its, k);
    Remainder(v, es, its[k], NoSkips(inner));
    InnerCut(inner, v.body, v.after + [Stop]);
    var m' := Scan(inner, 0).value;
    HeadAndTail(its, k, m');
    NoSkipsFirst(its[k], inner[..m']);
    Regroup([its[k]], Flat(v.body), [Close]);
  }

  lemma {:induction false} NoSkipsFirst(x: Item, a: seq<Item>)
    requires !x.Skip?
    ensures NoSkips([x] + a) == [x] + NoSkips(a)
  {
    ConcatAt([x], a);
  }

  lemma {:induction false} InnerCut(inner: seq<Item>, body: seq<Elem>, tail: seq<Item>)
    requires NoSkips(inner) == (Flat(body) + [Close]) + tail
    ensures Scan(inner, 0).Some?
    ensures var m := Scan(inner, 0).value; NoSkips(inner[..m]) == Flat(body) + [Close] && NoSkips(inner[m..]) == tail
  {
    ScanClosed(body, tail);
    ScanNoSkips(inner, 0);
    var m := Scan(inner, 0).value;
    Whole(inner, m);
    NoSkipsConcat(inner[..m], inner[m..]);
    SameLengths(NoSkips(inner[..m]), NoSkips(inner[m..]), Flat(body) + [Close], tail);
  }

  lemma SameLengths<T>(a: seq<T>, b: seq<T>, c: seq<T>, d: seq<T>)
    requires a + b == c + d && |a| == |c|
    ensures a == c && b == d
  {
    ConcatAt(a, b);
    ConcatAt(c, d);
  }

  lemma {:induction false} Remainder(v: View, es: seq<Elem>, x: Item, r: seq<Item>)
    requires Flat(es) == v.before + FlatElem(Node(v.name, v.body)) + v.after
      && Flat(es) + [Stop] == v.before + ([x] + r)
    ensures x == Open(v.name) && r == (Flat(v.body) + [Close]) + (v.after + [Stop])
  {
    var o := [Open(v.name)];
    Regroup(o, Flat(v.body), [Close]);
    Regroup(v.before, FlatElem(Node(v.name, v.body)), v.after);
    Regroup(v.before, FlatElem(Node(v.name, v.body)) + v.after, [Stop]);
    Regroup(FlatElem(Node(v.name, v.body)), v.after, [Stop]);
    Regroup(o, Flat(v.body) + [Close], v.after + [Stop]);
    SameLengths(v.before, [x] + r, v.before, o + ((Flat(v.body) + [Close]) + (v.after + [Stop])));
    SameLengths([x], r, o, (Flat(v.body) + [Close]) + (v.after + [Stop]));
    assert [x][0] == o[0];
  }

  lemma {:induction false} ScanClosed(body: seq<Elem>, tail: seq<Item>)
    ensures Scan((Flat(body) + [Close]) + tail, 0) == Some(|Flat(body) + [Close]|)
  {
    Regroup(Flat(body), [Close], tail);
    ScanFlat(body, [Close] + tail, 0);
  }

  ghost predicate AllSkips(its: seq<Item>) { NoSkips(its) == [] }

  /** Cutting the subtree out, or writing NOP tags over it, describes the tree
      without exactly that node. */
  lemma {:induction false} SubtreeGone(its: seq<Item>, es: seq<Elem>, k: nat, pad: seq<Item>)
    requires Describes(its, es) && k < |its| && its[k].Open? && AllSkips(pad)
    ensures Opens(its[..k]) < Opens(Flat(es)) && Scan(its[k + 1..], 0).Some?
    ensures Describes(its[..k] + pad + its[EndOf(its, k)..], At(es, Opens(its[..k])).without)
  {
    SubtreeFound(its, es, k);
    var n, m := Opens(its[..k]), EndOf(its, k);
    AtOk(es, n);
    NoSkipsConcat(its[..k] + pad, its[m..]);
    NoSkipsConcat(its[..k], pad);
    Units(NoSkips(its[..k]));
    var v := At(es, n);
    Regroup(v.before, v.after, [Stop]);
  }
}
