/** `fdt_finish`: the end mark, the strings block brought up against the structure
    block, and every name offset made positive. */
module FdtFinish {
  import opened Wrappers
  import opened FdtTokens
  import opened FdtNames
  import opened FdtBlob
  import opened FdtWriter
  import opened Seqs

  function Rebased(t: Token, s: nat): Token {
    if t.Prop? then Prop(Add32(t.nameoff, s), t.val) else t
  }

  function Rebase(ts: seq<Token>, s: nat): seq<Token>
    decreases |ts|
  {
    if ts == [] then [] else [Rebased(ts[0], s)] + Rebase(ts[1..], s)
  }

  /** The new offsets name what the old ones did. */
  lemma {:induction false} RebaseNames(ts: seq<Token>, strs: bytes, s: nat)
    requires Drafted(ts, s) && s < WORD
    ensures AllNamed(Rebase(ts, s), strs, 0) == AllNamed(ts, strs, s)
  {
    if ts != [] {
      var r := Rebased(ts[0], s);
      RebaseNames(ts[1..], strs, s);
      ConcatAt([r], Rebase(ts[1..], s));
      assert Named(r, strs, 0) == Named(ts[0], strs, s);
    }
  }

  /** How far the walk has come: `done` before o, `rest` and the end mark after. */
  ghost predicate Fixing(b: bytes, i: nat, o: nat, j: nat, s: nat, ts: seq<Token>, done: seq<Token>, rest: seq<Token>) {
    i <= o <= j <= |b| && Tokens(b, i, o) == Some(done) && Tokens(b, o, j) == Some(rest + [End]) &&
    Rebase(ts, s) == done + Rebase(rest, s) && Drafted(rest, s)
  }

  /** The token at the cursor. */
  lemma {:induction false} AtCursor(b: bytes, i: nat, o: nat, j: nat, s: nat, ts: seq<Token>, done: seq<Token>,
      rest: seq<Token>)
    requires Fixing(b, i, o, j, s, ts, done, rest)
    ensures o < j && TokenAt(b, o, j).Tok?
    ensures var n := o + Align4(TokenAt(b, o, j).len);
      n <= j && if rest == [] then TokenAt(b, o, j).t.End? else
      TokenAt(b, o, j).t == rest[0] && !rest[0].End? && Tokens(b, o, n) == Some([rest[0]])
        && Tokens(b, n, j) == Some(rest[1..] + [End])
  {
    assert |rest + [End]| > 0;
    FirstCut(b, o, j);
    if rest == [] { Units([End]); } else { ConcatCut(rest, [End], 1); }
  }

  /** Stepping over it, once it is rebased in place. */
  lemma {:induction false} Step(b: bytes, c: bytes, i: nat, o: nat, n: nat, j: nat, s: nat, ts: seq<Token>,
      done: seq<Token>,
      rest: seq<Token>)
    requires Fixing(b, i, o, j, s, ts, done, rest) && rest != [] && o <= n <= j && |c| == |b|
    requires b[..o] == c[..o] && b[n..] == c[n..] && Tokens(b, n, j) == Some(rest[1..] + [End])
    requires Tokens(c, o, n) == Some([Rebased(rest[0], s)])
    ensures Fixing(c, i, n, j, s, ts, done + [Rebased(rest[0], s)], rest[1..])
  {
    ReplaceToken(b, c, i, o, n, j, Rebased(rest[0], s));
    Regroup(done, [Rebased(rest[0], s)], Rebase(rest[1..], s));
  }

  /** One property's name offset. */
  method FixName(f: Blob, o: nat, ghost n: nat)
    requires f.Fits() && f.offStruct <= o && f.sizeStrings < WORD
    requires o < f.Top() && TokenAt(f.buf[..], o, f.Top()).Tok? && TokenAt(f.buf[..], o, f.Top()).t.Prop?
    requires n == o + Align4(TokenAt(f.buf[..], o, f.Top()).len) <= f.Top()
    modifies f.buf
    ensures Tokens(f.buf[..], o, n) == Some([Rebased(old(TokenAt(f.buf[..], o, f.Top()).t), f.sizeStrings)])
    ensures old(f.buf[..])[..o] == f.buf[..][..o] && old(f.buf[..])[n..] == f.buf[..][n..]
  {
    Unseal(f.buf[..], o, f.Top(), f.Top());
    var nameoff := Rd32(f.buf[..], o + 8);
    Rd32Bound(f.buf[..], o + 8);
    var v := Add32(nameoff, f.sizeStrings);
    ghost var b := f.buf[..];
    f.Store(o + 8, U32(v));
    RenameToken(b, f.buf[..], o, f.Top(), n, v);
    Wrote(b, o + 8, U32(v));
    KeptPrefix(b, f.buf[..], o + 8, o);
    Later(b, f.buf[..], o + 12, n);
  }

  /** One turn of the walk. */
  method FixStep(f: Blob, offset: nat, ghost ts: seq<Token>, ghost done: seq<Token>, ghost rest: seq<Token>)
      returns (tag: nat, next: nat)
    requires f.Fits() && offset <= f.sizeStruct && offset % 4 == 0 && f.sizeStrings < WORD
    requires Fixing(f.buf[..], f.offStruct, f.offStruct + offset, f.Top(), f.sizeStrings, ts, done, rest)
    modifies f.buf
    ensures (tag == FDT_END) == (rest == []) && next > offset
    ensures tag == FDT_END ==> f.buf[..] == old(f.buf[..])
    ensures tag != FDT_END ==> next <= f.sizeStruct && next % 4 == 0
    ensures tag != FDT_END ==>
              Fixing(f.buf[..], f.offStruct, f.offStruct + next, f.Top(), f.sizeStrings, ts,
                done + [Rebased(rest[0], f.sizeStrings)], rest[1..])
    ensures f.buf[..][f.Top()..] == old(f.buf[..])[f.Top()..]
  {
    ghost var b, i, j, s := f.buf[..], f.offStruct, f.Top(), f.sizeStrings;
    AtCursor(b, i, i + offset, j, s, ts, done, rest);
    tag, next := Walk(f, offset);
    if tag == FDT_END { return; }
    if tag == FDT_PROP { FixName(f, f.offStruct + offset, i + next); }
    ghost var c := f.buf[..];
    Step(b, c, i, i + offset, i + next, j, s, ts, done, rest);
    Later(b, c, i + next, j);
  }

  /** The walk that corrects the name offsets; it ends at the end mark. */
  method FixNames(f: Blob, ghost ts: seq<Token>) returns (next: nat)
    requires f.Fits() && f.sizeStrings < WORD && f.StructTokens() == Some(ts + [End]) && Drafted(ts, f.sizeStrings)
    modifies f.buf
    ensures f.StructTokens() == Some(Rebase(ts, f.sizeStrings) + [End])
    ensures f.buf[..][f.Top()..] == old(f.buf[..])[f.Top()..]
  {
    var offset := 0;
    ghost var done, rest, i, j, s := [], ts, f.offStruct, f.Top(), f.sizeStrings;
    Units(Rebase(ts, s));
    while true
      invariant offset <= f.sizeStruct && offset % 4 == 0 && Fixing(f.buf[..], i, i + offset, j, s, ts, done, rest)
      invariant f.buf[..][j..] == old(f.buf[..])[j..]
      decreases f.sizeStruct - offset
    {
      var tag;
      tag, next := FixStep(f, offset, ts, done, rest);
      if tag == FDT_END { break; }
      done, rest := done + [Rebased(rest[0], s)], rest[1..];
      offset := next;
    }
    Closing(f.buf[..], i, i + offset, j, s, ts, done);
  }

  lemma {:induction false} Closing(b: bytes, i: nat, o: nat, j: nat, s: nat, ts: seq<Token>, done: seq<Token>)
    requires Fixing(b, i, o, j, s, ts, done, [])
    ensures Tokens(b, i, j) == Some(Rebase(ts, s) + [End])
  {
    TokensJoin(b, i, o, j);
    Units(done);
    Units([End]);
  }

  /** The end mark behind the structure block. */
  lemma EndMark(w: Draft, b: bytes, data: bytes)
    requires w.Valid() && 4 <= w.Room() && Spells(data, 4, End) && b == Write(w.b, w.j, data)
    ensures Tokens(b, w.i, w.j + 4) == Some(Tokens(w.b, w.i, w.j).value + [End]) && b[w.e - w.s..w.e] == w.Strings()
  {
    Wrote(w.b, w.j, data);
    Appended(w.b, b, w.i, w.j, w.j + 4, End);
    KeptAfter(w.b, b, w.j + |data|, w.e - w.s, w.e);
  }

  /** The strings block moved up to it. */
  lemma {:induction false} MovedUp(b: bytes, c: bytes, i: nat, m: nat, strs: bytes)
    requires i <= m && m + |strs| <= |b| && c == Write(b, m, strs) && Tokens(b, i, m).Some?
    ensures Tokens(c, i, m) == Tokens(b, i, m) && c[m..m + |strs|] == strs
  {
    Wrote(b, m, strs);
    KeptBefore(b, c, m, i, m);
    TokensMove(b, i, m, c, i, m);
  }

  /** What the finished blob says. */
  lemma {:induction false} FinishedOk(w: Draft, c: bytes, d: bytes)
    requires w.Valid() && w.j + 4 + w.s <= |c| == |d|
    requires c[w.j + 4..w.j + 4 + w.s] == w.Strings() && d[w.j + 4..] == c[w.j + 4..]
    requires Tokens(d, w.i, w.j + 4) == Some(Rebase(Tokens(w.b, w.i, w.j).value, w.s) + [End])
    ensures Said(d, w.i, w.j + 4, w.j + 4, w.s) == w.Contents() + [Stop]
  {
    var ts := Tokens(w.b, w.i, w.j).value;
    KeptAfter(c, d, w.j + 4, w.j + 4, w.j + 4 + w.s);
    NamedConcat(Rebase(ts, w.s), [End], w.Strings(), 0);
    RebaseNames(ts, w.Strings(), w.s);
  }

  /** The end mark and the move. */
  method EndAndMove(f: Blob) returns (ok: bool)
    requires Writing(f)
    modifies f, f.buf
    ensures f.buf == old(f.buf) && f.offStruct == old(f.offStruct) && f.sizeStrings == old(f.sizeStrings)
      && f.total == old(f.total)
    ensures ok == (4 <= old(State(f).Room()))
    ensures !ok ==>
      f.sizeStruct == old(f.sizeStruct) && f.offStrings == old(f.offStrings) && f.buf[..] == old(f.buf[..])
    ensures ok ==> f.sizeStruct == old(f.sizeStruct) + 4 && f.offStrings == f.Top()
    ensures ok ==> Tokens(f.buf[..], f.offStruct, f.Top()) == Some(old(f.StructTokens().value) + [End])
    ensures ok ==> f.buf[..][f.Top()..f.Top() + f.sizeStrings] == old(State(f).Strings())
  {
    ghost var w := State(f);
    ok := PutEnd(f);
    if ok {
      ghost var b := f.buf[..];
      var from, to := f.total - f.sizeStrings, f.offStruct + f.sizeStruct;
      f.Move(to, from, f.sizeStrings);
      f.offStrings := to;
      MovedUp(b, f.buf[..], w.i, to, w.Strings());
    }
  }

  method PutEnd(f: Blob) returns (ok: bool)
    requires Writing(f)
    modifies f`sizeStruct, f.buf
    ensures ok == (4 <= old(State(f).Room()))
    ensures !ok ==> State(f) == old(State(f))
    ensures ok ==> f.sizeStruct == old(f.sizeStruct) + 4
    ensures ok ==> Tokens(f.buf[..], f.offStruct, f.Top()) == Some(old(f.StructTokens().value) + [End])
    ensures ok ==> f.buf[..][f.total - f.sizeStrings..f.total] == old(State(f).Strings())
  {
    ghost var w := State(f);
    var at;
    ok, at := GrabSpace(f, 4);
    if ok {
      TagSpells(FDT_END);
      var data := U32(FDT_END);
      f.Store(at, data);
      EndMark(w, f.buf[..], data);
    }
  }

  /** `fdt_finish`: the finished blob says what was written. */
  method Finish(f: Blob) returns (ok: bool)
    requires Writing(f)
    modifies f, f.buf
    ensures f.buf == old(f.buf) && f.offStruct == old(f.offStruct) && f.sizeStrings == old(f.sizeStrings)
    ensures ok == (4 <= old(State(f).Room()))
    ensures !ok ==> State(f) == old(State(f)) && f.offStrings == old(f.offStrings)
    ensures ok ==> Complete(f) && Items(f) == old(State(f).Contents()) + [Stop]
    ensures ok ==> f.offStrings == f.Top() && f.total == f.offStrings + f.sizeStrings <= old(f.total)
  {
    ghost var w := State(f);
    ok := EndAndMove(f);
    if ok {
      ghost var ts, c := Tokens(w.b, w.i, w.j).value, f.buf[..];
      var next := FixNames(f, ts);
      f.total := f.offStrings + f.sizeStrings;
      FinishedOk(w, c, f.buf[..]);
    }
  }
}
