/** Property names: a property holds an offset into the strings block. While a
    blob is being written that offset is negative, counted from the block's end. */
module FdtNames {
  import opened Wrappers
  import opened FdtTokens
  import opened Seqs

  /** `fdt_get_string`: the NUL-terminated string at p of strings block s. */
  function StringFrom(s: bytes, p: nat): Option<bytes> {
    if p >= |s| || Nul(s, p, |s|) == |s| then None else Some(s[p..Nul(s, p, |s|)])
  }

  datatype Item = Open(name: bytes) | Close | Property(pname: Option<bytes>, val: bytes) | Skip | Stop

  /** The 32-bit sum of two cells. */
  function Add32(a: nat, b: nat): nat { if a + b < WORD then a + b else a + b - WORD }

  /** What a token says once its name is looked up; `bias` is added to every
      offset as a 32-bit number. */
  function Named(t: Token, s: bytes, bias: nat): Item {
    match t
    case Begin(name) => Open(name)
    case EndNode => Close
    case Prop(nameoff, val) => Property(StringFrom(s, Add32(nameoff, bias)), val)
    case Nop => Skip
    case End => Stop
  }

  function AllNamed(ts: seq<Token>, s: bytes, bias: nat): (r: seq<Item>)
    ensures |r| == |ts|
  {
    if ts == [] then [] else [Named(ts[0], s, bias)] + AllNamed(ts[1..], s, bias)
  }

  lemma {:induction false} NamedConcat(ts: seq<Token>, us: seq<Token>, s: bytes, bias: nat)
    ensures AllNamed(ts + us, s, bias) == AllNamed(ts, s, bias) + AllNamed(us, s, bias)
  {
    if ts == [] {
      Units(us);
    } else {
      ConcatCut(ts, us, 1);
      NamedConcat(ts[1..], us, s, bias);
    }
  }

  /** No end mark yet, and every name an offset from the end of a strings block of
      this size. */
  predicate Drafted(ts: seq<Token>, size: nat)
    decreases |ts|
  {
    ts == [] || (!ts[0].End? && (ts[0].Prop? ==> WORD - size <= ts[0].nameoff < WORD) && Drafted(ts[1..], size))
  }

  lemma {:induction false} DraftedConcat(ts: seq<Token>, us: seq<Token>, size: nat)
    requires Drafted(ts, size) && Drafted(us, size)
    ensures Drafted(ts + us, size)
  {
    if ts == [] {
      Units(us);
    } else {
      ConcatCut(ts, us, 1);
      DraftedConcat(ts[1..], us, size);
    }
  }

  lemma {:induction false} DraftedGrows(ts: seq<Token>, size: nat, more: nat)
    requires Drafted(ts, size) && size <= more
    ensures Drafted(ts, more)
  {
    if ts != [] { DraftedGrows(ts[1..], size, more); }
  }

  lemma StringSuffix(u: bytes, s: bytes, p: nat)
    requires p <= |s|
    ensures StringFrom(u + s, |u| + p) == StringFrom(s, p)
  {
    var v := u + s;
    assert v[|u| + p..|v|] == s[p..];
    NulMoves(v, |u| + p, |v|, s, p, |s|);
    if p < |s| { assert v[|u| + p..Nul(v, |u| + p, |v|)] == s[p..Nul(s, p, |s|)]; }
  }

  /** Strings put in front leave every name counted from the end as it was. */
  lemma {:induction false} NamesStable(ts: seq<Token>, u: bytes, s: bytes)
    requires Drafted(ts, |s|) && |u| + |s| < WORD
    ensures AllNamed(ts, u + s, |u| + |s|) == AllNamed(ts, s, |s|)
  {
    if ts != [] {
      NamesStable(ts[1..], u, s);
      NameStable(ts[0], u, s);
    }
  }

  lemma NameStable(t: Token, u: bytes, s: bytes)
    requires |u| + |s| < WORD && (t.Prop? ==> WORD - |s| <= t.nameoff < WORD)
    ensures Named(t, u + s, |u| + |s|) == Named(t, s, |s|)
  {
    if t.Prop? {
      var p := t.nameoff + |s| - WORD;
      StringSuffix(u, s, p);
      assert Add32(t.nameoff, |s|) == p && Add32(t.nameoff, |u| + |s|) == |u| + p;
    }
  }

  /** `s[p..]` starts with this string. */
  lemma StringHere(s: bytes, p: nat, name: bytes)
    requires CString(name) && p + |name| < |s| && s[p..p + |name| + 1] == name + [0]
    ensures StringFrom(s, p) == Some(name)
  {
    CutAt(s, p, name + [0], 0, |name|);
    ConcatAt(name, [0]);
    Units(name + [0]);
    assert s[p + |name|] == s[p..p + |name| + 1][|name|] == 0;
    CStringAt(s, p, |s|, name);
  }

  /** `fdt_find_string_` looks for this. */
  ghost predicate Occurs(s: bytes, name: bytes, p: nat) {
    p + |name| < |s| && s[p..p + |name| + 1] == name + [0]
  }

  ghost predicate Present(s: bytes, name: bytes) { exists p: nat :: Occurs(s, name, p) }

  /** `fdt_find_string_`: the first place, possibly in the tail of a longer name. */
  method FindString(s: bytes, name: bytes) returns (found: bool, p: nat)
    ensures found == Present(s, name)
    ensures found ==> Occurs(s, name, p) && forall q: nat :: q < p ==> !Occurs(s, name, q)
  {
    p := 0;
    while p + |name| + 1 <= |s|
      invariant forall q: nat :: q < p ==> !Occurs(s, name, q)
      decreases |s| - p
    {
      if s[p..p + |name| + 1] == name + [0] {
        assert Occurs(s, name, p);
        return true, p;
      }
      p := p + 1;
    }
    found := false;
  }

  /** The bytes a name adds to the strings block. */
  function NewString(name: bytes, grown: bool): bytes { if grown then name + [0] else [] }
}
