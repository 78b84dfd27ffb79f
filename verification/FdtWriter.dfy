/** The sequential writer: the structure block grows up from `offStruct`, the
    strings block grows down from the end of the buffer, until `Finish` brings
    them together. */
module FdtWriter {
  import opened Wrappers
  import opened FdtTokens
  import opened FdtNames
  import opened FdtBlob
  import opened Seqs

  /** A draft: buffer b, structure block i..j, strings block the last s bytes
      before e. */
  datatype Draft = Draft(b: bytes, i: nat, j: nat, e: nat, s: nat) {
    /** The two blocks do not meet. */
    ghost predicate Fits() { i <= j && j + s <= e <= |b| <= INT_MAX }

    /** The structure block tokenises and names count from the end. */
    ghost predicate Valid() {
      Fits() && Tokens(b, i, j).Some? && Drafted(Tokens(b, i, j).value, s)
    }

    ghost function Strings(): (r: bytes)
      requires Fits()
      ensures |r| == s
    {
      b[e - s..e]
    }

    /** What it says. */
    ghost function Contents(): seq<Item>
      requires Valid()
    {
      AllNamed(Tokens(b, i, j).value, Strings(), s)
    }

    ghost function Room(): int { e - s - j }

    /** Bytes stored behind the structure block, which takes `len`. */
    ghost function Append(data: bytes, len: nat): (w: Draft)
      requires Fits() && |data| <= len <= Room()
      ensures w.Fits()
    {
      this.(b := Write(b, j, data), j := j + len)
    }

    /** Bytes stored in front of the strings block. */
    ghost function Prepend(u: bytes): (w: Draft)
      requires Fits() && |u| <= Room()
      ensures w.Fits()
    {
      this.(b := Write(b, e - s - |u|, u), s := s + |u|)
    }
  }

  /** What a token written behind the structure block adds. */
  lemma AppendOk(w: Draft, v: Draft, data: bytes, len: nat, t: Token)
    requires w.Valid() && Spells(data, len, t) && len <= w.Room() && v == w.Append(data, len)
    requires !t.End? && (t.Prop? ==> WORD - w.s <= t.nameoff < WORD)
    ensures v.Valid() && v.Contents() == w.Contents() + [Named(t, w.Strings(), w.s)] && v.Strings() == w.Strings()
  {
    Wrote(w.b, w.j, data);
    Appended(w.b, v.b, w.i, w.j, v.j, t);
    KeptAfter(w.b, v.b, w.j + |data|, w.e - w.s, w.e);
    NamedConcat(Tokens(w.b, w.i, w.j).value, [t], w.Strings(), w.s);
    DraftedConcat(Tokens(w.b, w.i, w.j).value, [t], w.s);
  }

  /** A string put in front leaves everything said as it was. */
  lemma PrependOk(w: Draft, u: bytes)
    requires w.Valid() && |u| <= w.Room()
    ensures w.Prepend(u).Valid() && w.Prepend(u).Contents() == w.Contents()
  {
    var c, p := w.Prepend(u).b, w.e - w.s - |u|;
    Wrote(w.b, p, u);
    KeptBefore(w.b, c, p, w.i, w.j);
    TokensMove(w.b, w.i, w.j, c, w.i, w.j);
    PrependStrings(w, u);
    NamesStable(Tokens(w.b, w.i, w.j).value, u, w.Strings());
    DraftedGrows(Tokens(w.b, w.i, w.j).value, w.s, w.s + |u|);
  }

  lemma PrependStrings(w: Draft, u: bytes)
    requires w.Fits() && |u| <= w.Room()
    ensures w.Prepend(u).Strings() == u + w.Strings()
  {
    var c, p := w.Prepend(u).b, w.e - w.s - |u|;
    Wrote(w.b, p, u);
    KeptAfter(w.b, c, p + |u|, w.e - w.s, w.e);
    JoinSlices(c, p, w.e - w.s, w.e);
  }

  /** Rolling the strings block back: bytes between the blocks do not matter. */
  lemma RollBackOk(w: Draft, u: bytes)
    requires w.Valid() && |u| <= w.Room()
    ensures w.(b := w.Prepend(u).b).Valid() && w.(b := w.Prepend(u).b).Contents() == w.Contents()
    ensures w.(b := w.Prepend(u).b).Strings() == w.Strings()
  {
    var c, p := w.Prepend(u).b, w.e - w.s - |u|;
    Wrote(w.b, p, u);
    KeptBefore(w.b, c, p, w.i, w.j);
    TokensMove(w.b, w.i, w.j, c, w.i, w.j);
    KeptAfter(w.b, c, p + |u|, w.e - w.s, w.e);
  }

  // --------------------------------------------------------------------- methods

  ghost function State(f: Blob): Draft
    reads f, f.buf
  {
    Draft(f.buf[..], f.offStruct, f.Top(), f.total, f.sizeStrings)
  }

  /** A blob between `fdt_finish_reservemap` and `fdt_finish`. */
  ghost predicate Writing(f: Blob)
    reads f, f.buf
  {
    f.offStrings == f.total && State(f).Valid()
  }

  /** `fdt_grab_space_`. */
  method GrabSpace(f: Blob, len: nat) returns (ok: bool, at: nat)
    requires State(f).Fits()
    modifies f`sizeStruct
    ensures ok == (len <= old(State(f).Room())) && at == old(State(f).j)
    ensures State(f) == if ok then old(State(f)).(j := at + len) else old(State(f))
  {
    var offset := f.sizeStruct;
    at := f.offStruct + offset;
    var spaceleft := f.total - f.offStruct - f.sizeStrings;
    ok := offset + len <= spaceleft;
    if ok { f.sizeStruct := offset + len; }
  }

  /** Space and contents for one token. */
  method PutToken(f: Blob, data: bytes, len: nat, ghost t: Token) returns (ok: bool)
    requires Writing(f) && Spells(data, len, t) && !t.End? && (t.Prop? ==> WORD - f.sizeStrings <= t.nameoff < WORD)
    modifies f`sizeStruct, f.buf
    ensures ok == (len <= old(State(f).Room()))
    ensures !ok ==> State(f) == old(State(f))
    ensures ok ==> State(f) == old(State(f).Append(data, len))
    ensures Writing(f)
    ensures ok ==> State(f).Contents() == old(State(f).Contents() + [Named(t, State(f).Strings(), State(f).s)])
    ensures State(f).Strings() == old(State(f).Strings())
  {
    ghost var w := State(f);
    var at;
    ok, at := GrabSpace(f, len);
    if ok {
      f.Store(at, data);
      AppendOk(w, State(f), data, len, t);
    }
  }

  /** `fdt_begin_node`. */
  method BeginNode(f: Blob, name: bytes) returns (ok: bool)
    requires Writing(f) && CString(name)
    modifies f`sizeStruct, f.buf
    ensures ok == (4 + Align4(|name| + 1) <= old(State(f).Room()))
    ensures Writing(f) && State(f).Contents() == old(State(f).Contents()) + (if ok then [Open(name)] else [])
    ensures State(f).Room() == old(State(f).Room()) - (if ok then 4 + Align4(|name| + 1) else 0)
    ensures State(f).Strings() == old(State(f).Strings())
  {
    var data := NodeBytes(name);
    ok := PutToken(f, data, 4 + Align4(|name| + 1), Begin(name));
  }

  /** `fdt_end_node`. */
  method EndNode(f: Blob) returns (ok: bool)
    requires Writing(f)
    modifies f`sizeStruct, f.buf
    ensures ok == (4 <= old(State(f).Room()))
    ensures Writing(f) && State(f).Contents() == old(State(f).Contents()) + (if ok then [Close] else [])
    ensures State(f).Room() == old(State(f).Room()) - (if ok then 4 else 0)
    ensures State(f).Strings() == old(State(f).Strings())
  {
    TagSpells(FDT_END_NODE);
    ok := PutToken(f, U32(FDT_END_NODE), 4, Token.EndNode);
  }

  /** The room test of `fdt_add_string_`, in 32-bit arithmetic, is the right one
      exactly when the strings and the new name are no longer than the buffer. */
  lemma RoomTestExact(total: nat, top: nat, size: nat, len: nat)
    requires top + size <= total <= INT_MAX && 0 < len <= INT_MAX
    ensures (((total - (size + len)) % WORD < top) == (top + size + len > total)) <==> size + len <= total
  {
  }

  /** What a call comes to: it is done, or there is no space and nothing has changed,
      or the room test has wrapped and the copy leaves the buffer. */
  datatype Outcome = Done | NoSpace | Overrun

  /** `fdt_add_string_`: k is the distance of the string from the end. */
  method AddString(f: Blob, name: bytes) returns (r: Outcome, k: nat)
    requires State(f).Fits() && |name| < INT_MAX
    modifies f`sizeStrings, f.buf
    ensures r == if old(f.sizeStrings) + |name| + 1 > f.total then Overrun else if |name| + 1 > old(State(f).Room())
      then NoSpace else Done
    ensures State(f) == if r.Done? then old(State(f).Prepend(name + [0])) else old(State(f))
    ensures r.Done? ==> k == f.sizeStrings
  {
    k := f.sizeStrings + (|name| + 1);
    var top := f.offStruct + f.sizeStruct;
    RoomTestExact(f.total, top, f.sizeStrings, |name| + 1);
    if (f.total - k) % WORD < top { return NoSpace, k; }
    if k > f.total { return Overrun, k; }
    f.Store(f.total - k, name + [0]);
    f.sizeStrings := k;
    r := Done;
  }

  /** The name k bytes before the end of strings block s. */
  ghost predicate NameIs(s: bytes, k: nat, name: bytes) {
    0 < k <= |s| && StringFrom(s, |s| - k) == Some(name)
  }

  lemma FrontName(name: bytes, s: bytes)
    requires CString(name)
    ensures NameIs((name + [0]) + s, |name| + 1 + |s|, name)
  {
    var t := (name + [0]) + s;
    assert t[0..|name| + 1] == name + [0];
    StringHere(t, 0, name);
  }

  lemma PrependNothing(w: Draft)
    requires w.Fits()
    ensures w.Prepend([]) == w
  {
    Whole(w.b, w.e - w.s);
  }

  /** `fdt_find_add_string_`, or `fdt_add_string_` alone without de-duplication. */
  method FindAddString(f: Blob, name: bytes, dedup: bool) returns (r: Outcome, k: nat, grown: bool)
    requires State(f).Fits() && CString(name) && |name| < INT_MAX
    modifies f`sizeStrings, f.buf
    ensures grown == !(dedup && Present(old(State(f).Strings()), name))
    ensures r == if grown && old(f.sizeStrings) + |name| + 1 > f.total then Overrun
                 else if |NewString(name, grown)| > old(State(f).Room()) then NoSpace else Done
    ensures State(f) == if r.Done? then old(State(f)).Prepend(NewString(name, grown)) else old(State(f))
    ensures r.Done? ==> NameIs(State(f).Strings(), k, name)
  {
    ghost var w := State(f);
    if dedup {
      var found, p := FindString(f.buf[f.total - f.sizeStrings..f.total], name);
      if found {
        StringHere(w.Strings(), p, name);
        PrependNothing(w);
        return Done, f.sizeStrings - p, false;
      }
    }
    grown := true;
    r, k := AddString(f, name);
    if r.Done? {
      PrependStrings(w, name + [0]);
      FrontName(name, w.Strings());
    }
  }

  /** `fdt_del_last_string_`. */
  method DeleteLastString(f: Blob, name: bytes)
    requires |name| + 1 <= f.sizeStrings
    modifies f`sizeStrings
    ensures State(f) == old(State(f)).(s := old(f.sizeStrings) - |name| - 1)
  {
    f.sizeStrings := f.sizeStrings - (|name| + 1);
  }

  /** A property whose name is k bytes before the end. */
  method PutProperty(f: Blob, k: nat, val: bytes, ghost name: bytes) returns (ok: bool)
    requires Writing(f) && |val| <= INT_MAX && NameIs(State(f).Strings(), k, name)
    modifies f`sizeStruct, f.buf
    ensures ok == (12 + Align4(|val|) <= old(State(f).Room()))
    ensures !ok ==> State(f) == old(State(f))
    ensures ok ==> f.sizeStruct == old(f.sizeStruct) + 12 + Align4(|val|)
    ensures Writing(f)
    ensures ok ==> State(f).Contents() == old(State(f).Contents()) + [Item.Property(Some(name), val)]
    ensures State(f).Strings() == old(State(f).Strings())
  {
    var data := PropertyBytes(WORD - k, val);
    NamedBack(State(f).Strings(), State(f).s, k, name, val);
    ok := PutToken(f, data, 12 + Align4(|val|), Prop(WORD - k, val));
  }

  /** `fdt_property`. */
  method Property(f: Blob, name: bytes, val: bytes, dedup: bool) returns (r: Outcome, grown: bool)
    requires Writing(f) && CString(name) && |name| < INT_MAX && |val| <= INT_MAX
    modifies f`sizeStruct, f`sizeStrings, f.buf
    ensures grown == !(dedup && Present(old(State(f).Strings()), name))
    ensures r == if grown && old(f.sizeStrings) + |name| + 1 > f.total then Overrun
                 else if 12 + Align4(|val|) + |NewString(name, grown)| > old(State(f).Room()) then NoSpace else Done
    ensures Writing(f)
    ensures State(f).Contents() == old(State(f).Contents()) + (if r.Done? then [Item.Property(Some(name), val)] else [])
    ensures State(f).Room()
      == old(State(f).Room()) - (if r.Done? then 12 + Align4(|val|) + |NewString(name, grown)| else 0)
    ensures State(f).Strings() == NewString(name, r.Done? && grown) + old(State(f).Strings())
    ensures !r.Done? ==> f.sizeStruct == old(f.sizeStruct)
  {
    ghost var w := State(f);
    Units(w.Strings());
    var k;
    r, k, grown := FindAddString(f, name, dedup);
    if !r.Done? { return; }
    PrependOk(w, NewString(name, grown));
    PrependStrings(w, NewString(name, grown));
    var ok := PutProperty(f, k, val, name);
    if !ok {
      if grown {
        DeleteLastString(f, name);
        RollBackOk(w, name + [0]);
      }
      r := NoSpace;
    }
    assert State(f).Room() == w.Room() - if r.Done? then 12 + Align4(|val|) + |NewString(name, grown)| else 0;
  }

  lemma NamedBack(s: bytes, size: nat, k: nat, name: bytes, val: bytes)
    requires NameIs(s, k, name) && |s| == size < WORD
    ensures Named(Prop(WORD - k, val), s, size) == Item.Property(Some(name), val)
  {
    assert Add32(WORD - k, size) == size - k;
  }
}
