/** The nested bitmap: sixteen bits, sixteen of those, and so on. Each level picks
    its part by division and passes the remainder down; together they behave as
    one flat array of bits. */
module NestedBitmap {
  import opened Arith

  const FAN := 16

  /** `BitAlloc16` and `BitMap<T>`; a 16-bit word is its bits. */
  datatype Bitmap = Word(bits: seq<bool>) | Fork(parts: seq<Bitmap>)

  /** `CAP`: 16 for a word, sixteen times the part's for a fork. */
  function Cap(h: nat): (c: nat)
    ensures c > 0
  {
    if h == 0 then FAN else FAN * Cap(h - 1)
  }

  /** A bitmap of nesting h. */
  predicate Shaped(t: Bitmap, h: nat)
    decreases h
  {
    match t
    case Word(bits) => h == 0 && |bits| == FAN
    case Fork(parts) => h > 0 && |parts| == FAN && forall i :: 0 <= i < |parts| ==> Shaped(parts[i], h - 1)
  }

  /** Quotient and remainder, by taking c away. */
  function Pick(c: nat, idx: nat): (r: (nat, nat))
    requires c > 0
    ensures r.1 < c
    decreases idx
  {
    if idx < c then (0, idx) else (Pick(c, idx - c).0 + 1, Pick(c, idx - c).1)
  }

  lemma {:induction false} PickIsDiv(c: nat, idx: nat)
    requires c > 0
    ensures Pick(c, idx) == (idx / c, idx % c)
    decreases idx
  {
    if idx < c {
      DivUnique(idx, c, 0, idx);
    } else {
      PickIsDiv(c, idx - c);
      DivMod(idx - c, c);
      DivUnique(idx, c, (idx - c) / c + 1, (idx - c) % c);
    }
  }

  lemma {:induction false} PickLess(c: nat, idx: nat, n: nat)
    requires c > 0 && idx < n * c
    ensures Pick(c, idx).0 < n
    decreases idx
  {
    if idx >= c { PickLess(c, idx - c, n - 1); }
  }

  lemma {:induction false} PickInjective(c: nat, i: nat, j: nat)
    requires c > 0 && Pick(c, i) == Pick(c, j)
    ensures i == j
    decreases i
  {
    if i >= c { PickInjective(c, i - c, j - c); }
  }

  function Get(t: Bitmap, h: nat, idx: nat): bool
    requires Shaped(t, h) && idx < Cap(h)
    decreases h
  {
    match t
    case Word(bits) => bits[idx]
    case Fork(parts) =>
      PickLess(Cap(h - 1), idx, FAN);
      Get(parts[Pick(Cap(h - 1), idx).0], h - 1, Pick(Cap(h - 1), idx).1)
  }

  /** `set` and `clear`. */
  function Put(t: Bitmap, h: nat, idx: nat, v: bool): (r: Bitmap)
    requires Shaped(t, h) && idx < Cap(h)
    ensures Shaped(r, h)
    decreases h
  {
    match t
    case Word(bits) => Word(bits[idx := v])
    case Fork(parts) =>
      PickLess(Cap(h - 1), idx, FAN);
      var i := Pick(Cap(h - 1), idx).0;
      Fork(parts[i := Put(parts[i], h - 1, Pick(Cap(h - 1), idx).1, v)])
  }

  /** `DEFAULT`: all clear. */
  function Zero(h: nat): (t: Bitmap)
    ensures Shaped(t, h)
    decreases h
  {
    if h == 0 then Word(seq(FAN, _ => false)) else Fork(seq(FAN, _ => Zero(h - 1)))
  }

  lemma {:induction false} GetZero(h: nat, idx: nat)
    requires idx < Cap(h)
    ensures !Get(Zero(h), h, idx)
    decreases h
  {
    if h > 0 {
      PickLess(Cap(h - 1), idx, FAN);
      GetZero(h - 1, Pick(Cap(h - 1), idx).1);
    }
  }

  /** One bit changes, every other is as it was. */
  lemma {:induction false} GetPut(t: Bitmap, h: nat, idx: nat, v: bool, j: nat)
    requires Shaped(t, h) && idx < Cap(h) && j < Cap(h)
    ensures Get(Put(t, h, idx, v), h, j) == if j == idx then v else Get(t, h, j)
    decreases h
  {
    if h > 0 {
      var c := Cap(h - 1);
      PickLess(c, idx, FAN);
      PickLess(c, j, FAN);
      if Pick(c, idx).0 == Pick(c, j).0 {
        GetPut(t.parts[Pick(c, idx).0], h - 1, Pick(c, idx).1, v, Pick(c, j).1);
        if Pick(c, idx).1 == Pick(c, j).1 { PickInjective(c, idx, j); }
      }
    }
  }
}
