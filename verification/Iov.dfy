/** Scatter/gather copies between lists of buffers in one memory. A list of buffers
    stands for the stream of its bytes' addresses. */
module Iov {
  import opened Seqs

  type byte = x: int | 0 <= x < 256

  datatype Buf = Buf(addr: nat, len: nat)

  function Range(a: nat, n: nat): (r: seq<nat>)
    ensures |r| == n
    decreases n
  {
    if n == 0 then [] else [a] + Range(a + 1, n - 1)
  }

  lemma {:induction false} RangeAt(a: nat, n: nat, i: nat)
    requires i < n
    ensures Range(a, n)[i] == a + i
    decreases n
  {
    if i > 0 { RangeAt(a + 1, n - 1, i - 1); }
  }

  /** The addresses of a list's bytes, in order. */
  function Addrs(v: seq<Buf>): seq<nat>
    decreases |v|
  {
    if v == [] then [] else Range(v[0].addr, v[0].len) + Addrs(v[1..])
  }

  /** The bytes before buffer i. */
  function Pos(v: seq<Buf>, i: nat): nat
    requires i <= |v|
    decreases i
  {
    if i == 0 then 0 else v[0].len + Pos(v[1..], i - 1)
  }

  lemma {:induction false} PosStep(v: seq<Buf>, i: nat)
    requires i < |v|
    ensures Pos(v, i + 1) == Pos(v, i) + v[i].len
    decreases i
  {
    if i > 0 { PosStep(v[1..], i - 1); }
  }

  lemma {:induction false} PosEnd(v: seq<Buf>)
    ensures Pos(v, |v|) == |Addrs(v)|
    decreases |v|
  {
    if v != [] { PosEnd(v[1..]); }
  }

  /** Byte o of buffer i in the stream. */
  lemma {:induction false} AddrAt(v: seq<Buf>, i: nat, o: nat)
    requires i < |v| && o < v[i].len
    ensures Pos(v, i) + o < |Addrs(v)| && Addrs(v)[Pos(v, i) + o] == v[i].addr + o
    decreases i
  {
    if i == 0 { RangeAt(v[0].addr, v[0].len, o); } else { AddrAt(v[1..], i - 1, o); }
  }

  /** A buffer lies inside the stream. */
  lemma {:induction false} PosInside(v: seq<Buf>, i: nat)
    requires i < |v|
    ensures Pos(v, i) + v[i].len <= |Addrs(v)|
    decreases i
  {
    if i > 0 { PosInside(v[1..], i - 1); }
  }

  // -------------------------------------------------------------------- copying

  predicate Differ(d: seq<nat>, i: nat, s: seq<nat>, j: nat)
    requires i < |d| && j < |s|
  {
    d[i] != s[j]
  }

  predicate NoDup(d: seq<nat>) {
    forall i: nat, j: nat {:trigger Differ(d, i, d, j)} :: i < j < |d| ==> Differ(d, i, d, j)
  }

  predicate Apart(d: seq<nat>, s: seq<nat>) {
    forall i: nat, j: nat {:trigger Differ(d, i, s, j)} :: i < |d| && j < |s| ==> Differ(d, i, s, j)
  }

  /** The first p bytes of stream s are at the first p places of stream d, and no
      other place has changed. */
  ghost predicate Copied(m0: seq<byte>, m1: seq<byte>, d: seq<nat>, s: seq<nat>, p: nat) {
    && |m1| == |m0| && p <= |d| && p <= |s|
    && (forall i: nat {:trigger d[i]} :: i < p ==> d[i] < |m0| && s[i] < |m0| && m1[d[i]] == m0[s[i]])
    && (forall a: nat {:trigger m1[a]} :: a < |m0| && (forall i: nat {:trigger d[i]} :: i < p ==> d[i] != a) ==>
      m1[a] == m0[a])
  }

  /** `memcpy`. */
  ghost predicate Block(m1: seq<byte>, m2: seq<byte>, to: nat, from: nat, w: nat) {
    |m2| == |m1| && (w > 0 ==> to + w <= |m1| && from + w <= |m1|) &&
    forall a: nat {:trigger m2[a]} :: a < |m1| ==> m2[a] == if to <= a < to + w then m1[from + (a - to)] else m1[a]
  }

  /** The w addresses of stream d from p on are those from `to` on. */
  ghost predicate Along(d: seq<nat>, p: nat, to: nat, w: nat) {
    p + w <= |d| && forall i: nat {:trigger d[i]} :: p <= i < p + w ==> d[i] == to + (i - p)
  }

  lemma AlongHas(d: seq<nat>, p: nat, to: nat, w: nat, x: nat)
    requires Along(d, p, to, w) && to <= x < to + w
    ensures exists n: nat {:trigger d[n]} :: p <= n < p + w && d[n] == x
  {
    assert d[p + (x - to)] == x;
  }

  /** One block more of both streams. */
  lemma CopyMore(m0: seq<byte>, m1: seq<byte>, m2: seq<byte>, d: seq<nat>, s: seq<nat>, p: nat, to: nat, from: nat,
      w: nat)
    requires Copied(m0, m1, d, s, p) && Block(m1, m2, to, from, w) && NoDup(d) && Apart(d, s)
    requires Along(d, p, to, w) && Along(s, p, from, w)
    ensures Copied(m0, m2, d, s, p + w)
  {
    forall i: nat | i < p + w ensures d[i] < |m0| && s[i] < |m0| && m2[d[i]] == m0[s[i]] {
      if i < p {
        if to <= d[i] < to + w { Elsewhere(d, p, to, w, i, d[i]); }
      } else {
        assert d[i] == to + (i - p) && s[i] == from + (i - p);
        assert m2[d[i]] == m1[s[i]];
        assert forall n: nat {:trigger d[n]} :: n < p ==> d[n] != s[i] by {
          forall n: nat | n < p ensures d[n] != s[i] { assert Differ(d, n, s, i); }
        }
      }
    }
    forall a: nat | a < |m0| && (forall i: nat {:trigger d[i]} :: i < p + w ==> d[i] != a) ensures m2[a] == m0[a] {
      if to <= a < to + w { AlongHas(d, p, to, w, a); }
    }
  }

  /** Places already written are not in the next block. */
  lemma Elsewhere(d: seq<nat>, p: nat, to: nat, w: nat, i: nat, x: nat)
    requires NoDup(d) && Along(d, p, to, w) && i < p && to <= x < to + w
    ensures d[i] != x
  {
    AlongHas(d, p, to, w, x);
    var n: nat :| p <= n < p + w && d[n] == x;
    assert Differ(d, i, d, n);
  }

  method MemCpy(mem: array<byte>, to: nat, from: nat, w: nat)
    requires w > 0 ==> to + w <= mem.Length && from + w <= mem.Length
    modifies mem
    ensures Block(old(mem[..]), mem[..], to, from, w)
  {
    if w == 0 { return; }
    var tmp := mem[from..from + w];
    for k := 0 to w
      invariant forall a: nat {:trigger mem[a]} :: a < mem.Length ==>
        mem[a] == if to <= a < to + k then tmp[a - to] else old(mem[a])
    {
      mem[to + k] := tmp[k];
    }
  }

  // -------------------------------------------------------------- two lists at once

  /** Byte p of a stream is at the cursor: `left` bytes are left of buffer i. */
  ghost predicate At(v: seq<Buf>, p: nat, i: nat, ptr: nat, left: nat) {
    i < |v| && left <= v[i].len && p + left == Pos(v, i) + v[i].len && ptr + left == v[i].addr + v[i].len
  }

  /** Within a buffer. */
  lemma {:induction false} AtWithin(v: seq<Buf>, p: nat, i: nat, ptr: nat, left: nat, w: nat)
    requires At(v, p, i, ptr, left) && w <= left
    ensures Along(Addrs(v), p, ptr, w)
  {
    PosInside(v, i);
    forall n: nat | p <= n < p + w ensures Addrs(v)[n] == ptr + (n - p) { AddrAt(v, i, n - Pos(v, i)); }
  }

  /** On to the next buffer, or the end of the stream. */
  lemma {:induction false} AtNext(v: seq<Buf>, p: nat, i: nat, ptr: nat, left: nat)
    requires At(v, p, i, ptr, left)
    ensures if i + 1 < |v| then At(v, p + left, i + 1, v[i + 1].addr, v[i + 1].len) else p + left == |Addrs(v)|
  {
    PosStep(v, i);
    PosEnd(v);
  }

  ghost predicate InMemory(d: seq<nat>, size: nat) { forall i: nat {:trigger d[i]} :: i < |d| ==> d[i] < size }

  function Min(a: nat, b: nat): nat { if a < b then a else b }

  /** The copy inside the loop: `w` bytes from one cursor to the other. */
  method CopyBlock(mem: array<byte>, ghost src: seq<Buf>, ghost dst: seq<Buf>, to: nat, from: nat, w: nat,
                   ghost m0: seq<byte>, ghost p: nat)
    requires Copied(m0, mem[..], Addrs(dst), Addrs(src), p) && NoDup(Addrs(dst)) && Apart(Addrs(dst), Addrs(src))
    requires InMemory(Addrs(dst), mem.Length) && InMemory(Addrs(src), mem.Length)
    requires Along(Addrs(dst), p, to, w) && Along(Addrs(src), p, from, w)
    modifies mem
    ensures Copied(m0, mem[..], Addrs(dst), Addrs(src), p + w)
  {
    ghost var m1 := mem[..];
    if w > 0 { assert Addrs(dst)[p + w - 1] == to + (w - 1) && Addrs(src)[p + w - 1] == from + (w - 1); }
    MemCpy(mem, to, from, w);
    CopyMore(m0, m1, mem[..], Addrs(dst), Addrs(src), p, to, from, w);
  }

  /** The loop's cursors: while both lists last, each is at byte p; a list that is
      used up has had all its bytes. */
  ghost predicate Cursors(src: seq<Buf>, dst: seq<Buf>, p: nat, di: nat, si: nat, to: nat, from: nat, dleft: nat,
      sleft: nat) {
    && di <= |dst| && si <= |src|
    && (if di == |dst| then p == |Addrs(dst)| else si < |src| ==> At(dst, p, di, to, dleft))
    && (if si == |src| then p == |Addrs(src)| else di < |dst| ==> At(src, p, si, from, sleft))
  }

  /** The source buffer runs out first. */
  lemma {:induction false} SourceStep(src: seq<Buf>, dst: seq<Buf>, p: nat, di: nat, si: nat, to: nat, from: nat,
      dleft: nat, sleft: nat)
    requires Cursors(src, dst, p, di, si, to, from, dleft, sleft) && di < |dst| && si < |src| && dleft > sleft
    ensures Along(Addrs(dst), p, to, sleft) && Along(Addrs(src), p, from, sleft)
    ensures if si + 1 < |src| then
              Cursors(src, dst, p + sleft, di, si + 1, to + sleft, src[si + 1].addr, dleft - sleft, src[si + 1].len)
            else Cursors(src, dst, p + sleft, di, si + 1, to, from, dleft, sleft)
  {
    AtWithin(dst, p, di, to, dleft, sleft);
    AtWithin(src, p, si, from, sleft, sleft);
    AtNext(src, p, si, from, sleft);
  }

  /** The destination buffer fills up first, or both end together; an empty source
      buffer is passed over with it. */
  lemma {:induction false} DestinationStep(src: seq<Buf>, dst: seq<Buf>, p: nat, di: nat, si: nat, to: nat,
      from: nat, dleft: nat,
      sleft: nat)
    requires Cursors(src, dst, p, di, si, to, from, dleft, sleft) && di < |dst| && si < |src| && dleft <= sleft
    ensures Along(Addrs(dst), p, to, dleft) && Along(Addrs(src), p, from, dleft)
    ensures var more, skip := di + 1 < |dst|, src[si].len == 0;
      var to', dleft' := if more then dst[di + 1].addr else to, if more then dst[di + 1].len else dleft;
      var from', sleft' := if more then from + dleft else from, if more then sleft - dleft else sleft;
      if !skip then Cursors(src, dst, p + dleft, di + 1, si, to', from', dleft', sleft')
      else if si + 1 < |src|
        then Cursors(src, dst, p + dleft, di + 1, si + 1, to', src[si + 1].addr, dleft', src[si + 1].len)
      else Cursors(src, dst, p + dleft, di + 1, si + 1, to', from', dleft', sleft')
  {
    AtWithin(dst, p, di, to, dleft, dleft);
    AtWithin(src, p, si, from, sleft, dleft);
    AtNext(dst, p, di, to, dleft);
    if src[si].len == 0 { AtNext(src, p, si, from, sleft); }
  }

  /** A buffer of one of the lists starts or the list ends at byte b of its stream. */
  ghost predicate Boundary(src: seq<Buf>, dst: seq<Buf>, b: nat) {
    (exists k: nat :: k <= |src| && Pos(src, k) == b) || (exists k: nat :: k <= |dst| && Pos(dst, k) == b)
  }

  lemma {:induction false} PosMono(v: seq<Buf>, i: nat, j: nat)
    requires i <= j <= |v|
    ensures Pos(v, i) <= Pos(v, j)
    decreases i
  {
    if i > 0 { PosMono(v[1..], i - 1, j - 1); }
  }

  /** No buffer starts inside another. */
  lemma {:induction false} NothingInside(v: seq<Buf>, p: nat, i: nat, ptr: nat, left: nat, k: nat)
    requires At(v, p, i, ptr, left) && k <= |v|
    ensures Pos(v, k) <= p || p + left <= Pos(v, k)
  {
    PosStep(v, i);
    if k <= i { PosMono(v, k, i); } else { PosMono(v, i + 1, k); }
  }

  /** A turn ends at the next boundary after p. */
  lemma {:induction false} TurnEnds(src: seq<Buf>, dst: seq<Buf>, p: nat, di: nat, si: nat, to: nat, from: nat,
      dleft: nat, sleft: nat)
    requires Cursors(src, dst, p, di, si, to, from, dleft, sleft) && di < |dst| && si < |src|
    ensures var w := Min(dleft, sleft);
      Boundary(src, dst, p + w) && p + w <= Min(|Addrs(src)|, |Addrs(dst)|) && forall b: nat :: p < b < p + w ==>
        !Boundary(src, dst, b)
  {
    PosStep(src, si);
    PosStep(dst, di);
    PosInside(src, si);
    PosInside(dst, di);
    forall k: nat | k <= |src|
      ensures Pos(src, k) <= p || p + sleft <= Pos(src, k) { NothingInside(src, p, si, from, sleft, k); }
    forall k: nat | k <= |dst|
      ensures Pos(dst, k) <= p || p + dleft <= Pos(dst, k) { NothingInside(dst, p, di, to, dleft, k); }
  }

  /** A request for all of the source always ends at a boundary. */
  lemma {:induction false} WholeSource(src: seq<Buf>, dst: seq<Buf>)
    ensures Boundary(src, dst, |Addrs(src)|)
  {
    PosEnd(src);
  }

  /** `write_through_iov`: it moves what was asked for, as far as both lists go, and
      returns the rest. `ok` is false where `remain` underflows, which happens
      exactly when the request ends inside a buffer of both lists. */
  method WriteThroughIov(mem: array<byte>, src: seq<Buf>, dst: seq<Buf>, len: nat) returns (ok: bool, remain: nat)
    requires |src| > 0 && |dst| > 0
    requires InMemory(Addrs(dst), mem.Length) && InMemory(Addrs(src), mem.Length)
    requires NoDup(Addrs(dst)) && Apart(Addrs(dst), Addrs(src))
    modifies mem
    ensures ok <==> Min(|Addrs(src)|, |Addrs(dst)|) <= len || Boundary(src, dst, len)
    ensures ok ==> remain == len - Min(len, Min(|Addrs(src)|, |Addrs(dst)|))
    ensures ok ==> Copied(old(mem[..]), mem[..], Addrs(dst), Addrs(src), Min(len, Min(|Addrs(src)|, |Addrs(dst)|)))
  {
    var di, si := 0, 0;
    var to, from := dst[0].addr, src[0].addr;
    var dleft, sleft := dst[0].len, src[0].len;
    ok, remain := true, len;
    ghost var p: nat, m0 := 0, mem[..];
    assert Pos(src, 0) == 0;
    while remain > 0
      invariant p <= len && Cursors(src, dst, p, di, si, to, from, dleft, sleft) && remain == len - p
      invariant Copied(m0, mem[..], Addrs(dst), Addrs(src), p) && Boundary(src, dst, p) && ok
      decreases |dst| - di + |src| - si
    {
      if di == |dst| || si == |src| { break; }
      TurnEnds(src, dst, p, di, si, to, from, dleft, sleft);
      var written := if dleft > sleft then sleft else dleft;
      if dleft > sleft {
        to, from, dleft, sleft := DrainSource(mem, src, dst, di, si, to, from, dleft, sleft, m0, p);
        si := si + 1;
      } else {
        var skip := src[si].len == 0;
        to, from, dleft, sleft := FillDestination(mem, src, dst, di, si, to, from, dleft, sleft, m0, p);
        di := di + 1;
        if skip { si := si + 1; }
      }
      if remain < written { return false, 0; }
      p := p + written;
      remain := remain - written;
    }
  }

  /** The turn that uses up a source buffer. */
  method DrainSource(mem: array<byte>, src: seq<Buf>, ghost dst: seq<Buf>, ghost di: nat, si: nat,
                     to: nat, from: nat, dleft: nat, sleft: nat, ghost m0: seq<byte>, ghost p: nat)
    returns (to': nat, from': nat, dleft': nat, sleft': nat)
    requires Cursors(src, dst, p, di, si, to, from, dleft, sleft) && di < |dst| && si < |src| && dleft > sleft
    requires Copied(m0, mem[..], Addrs(dst), Addrs(src), p) && NoDup(Addrs(dst)) && Apart(Addrs(dst), Addrs(src))
    requires InMemory(Addrs(dst), mem.Length) && InMemory(Addrs(src), mem.Length)
    modifies mem
    ensures Cursors(src, dst, p + sleft, di, si + 1, to', from', dleft', sleft')
    ensures Copied(m0, mem[..], Addrs(dst), Addrs(src), p + sleft)
  {
    SourceStep(src, dst, p, di, si, to, from, dleft, sleft);
    CopyBlock(mem, src, dst, to, from, sleft, m0, p);
    to', from', dleft', sleft' := to, from, dleft, sleft;
    if si + 1 < |src| {
      from', sleft' := src[si + 1].addr, src[si + 1].len;
      to', dleft' := to + sleft, dleft - sleft;
    }
  }

  /** The turn that fills up a destination buffer. */
  method FillDestination(mem: array<byte>, src: seq<Buf>, dst: seq<Buf>, di: nat, si: nat,
                         to: nat, from: nat, dleft: nat, sleft: nat, ghost m0: seq<byte>, ghost p: nat)
    returns (to': nat, from': nat, dleft': nat, sleft': nat)
    requires Cursors(src, dst, p, di, si, to, from, dleft, sleft) && di < |dst| && si < |src| && dleft <= sleft
    requires Copied(m0, mem[..], Addrs(dst), Addrs(src), p) && NoDup(Addrs(dst)) && Apart(Addrs(dst), Addrs(src))
    requires InMemory(Addrs(dst), mem.Length) && InMemory(Addrs(src), mem.Length)
    modifies mem
    ensures Cursors(src, dst, p + dleft, di + 1, if src[si].len == 0 then si + 1 else si, to', from', dleft', sleft')
    ensures Copied(m0, mem[..], Addrs(dst), Addrs(src), p + dleft)
  {
    DestinationStep(src, dst, p, di, si, to, from, dleft, sleft);
    CopyBlock(mem, src, dst, to, from, dleft, m0, p);
    to', from', dleft', sleft' := to, from, dleft, sleft;
    if di + 1 < |dst| {
      to', dleft' := dst[di + 1].addr, dst[di + 1].len;
      from', sleft' := from + dleft, sleft - dleft;
    }
    if src[si].len == 0 && si + 1 < |src| { from', sleft' := src[si + 1].addr, src[si + 1].len; }
  }

  // --------------------------------------------------------------- flat buffers

  lemma {:induction false} RangeAlong(addr: nat, len: nat, p: nat, w: nat)
    requires p + w <= len
    ensures Along(Range(addr, len), p, addr + p, w)
  {
    forall i: nat | p <= i < p + w ensures Range(addr, len)[i] == addr + p + (i - p) { RangeAt(addr, len, i); }
  }

  /** `to_buf`: the stream's first `len` bytes, or all it has, to one buffer. */
  method ToBuf(mem: array<byte>, iov: seq<Buf>, addr: nat, len: nat)
    requires InMemory(Range(addr, len), mem.Length) && InMemory(Addrs(iov), mem.Length)
    requires NoDup(Range(addr, len)) && Apart(Range(addr, len), Addrs(iov))
    modifies mem
    ensures Copied(old(mem[..]), mem[..], Range(addr, len), Addrs(iov), Min(len, |Addrs(iov)|))
  {
    var size := len;
    ghost var m0, one := mem[..], [Buf(addr, len)];
    Alone(addr, len);
    PosEnd(iov);
    for i := 0 to |iov|
      invariant size <= len && Copied(m0, mem[..], Addrs(one), Addrs(iov), len - size)
      invariant if i < |iov| then At(iov, len - size, i, iov[i].addr, iov[i].len) else len - size == |Addrs(iov)|
    {
      var offset := len - size;
      var w := if iov[i].len >= size then size else iov[i].len;
      AtWithin(iov, offset, i, iov[i].addr, iov[i].len, w);
      AtNext(iov, offset, i, iov[i].addr, iov[i].len);
      RangeAlong(addr, len, offset, w);
      CopyBlock(mem, iov, one, addr + offset, iov[i].addr, w, m0, offset);
      if iov[i].len >= size { return; }
      size := size - w;
    }
  }

  /** `from_buf`: one buffer's bytes to the stream, as far as it goes. */
  method FromBuf(mem: array<byte>, iov: seq<Buf>, addr: nat, len: nat)
    requires InMemory(Range(addr, len), mem.Length) && InMemory(Addrs(iov), mem.Length)
    requires NoDup(Addrs(iov)) && Apart(Addrs(iov), Range(addr, len))
    modifies mem
    ensures Copied(old(mem[..]), mem[..], Addrs(iov), Range(addr, len), Min(len, |Addrs(iov)|))
  {
    var size := len;
    ghost var m0, one := mem[..], [Buf(addr, len)];
    Alone(addr, len);
    PosEnd(iov);
    for i := 0 to |iov|
      invariant size <= len && Copied(m0, mem[..], Addrs(iov), Addrs(one), len - size)
      invariant if i < |iov| then At(iov, len - size, i, iov[i].addr, iov[i].len) else len - size == |Addrs(iov)|
    {
      var offset := len - size;
      var w := if iov[i].len >= size then size else iov[i].len;
      AtWithin(iov, offset, i, iov[i].addr, iov[i].len, w);
      AtNext(iov, offset, i, iov[i].addr, iov[i].len);
      RangeAlong(addr, len, offset, w);
      CopyBlock(mem, one, iov, iov[i].addr, addr + offset, w, m0, offset);
      if iov[i].len >= size { return; }
      size := size - w;
    }
  }

  lemma {:induction false} Alone(addr: nat, len: nat)
    ensures Addrs([Buf(addr, len)]) == Range(addr, len)
  {
    Units(Range(addr, len));
  }

  // ------------------------------------------------------------- parts of a list

  lemma {:induction false} AddrsConcat(a: seq<Buf>, b: seq<Buf>)
    ensures Addrs(a + b) == Addrs(a) + Addrs(b)
    decreases |a|
  {
    if a == [] {
      Units(b);
    } else {
      ConcatCut(a, b, 1);
      AddrsConcat(a[1..], b);
      Regroup(Range(a[0].addr, a[0].len), Addrs(a[1..]), Addrs(b));
    }
  }

  lemma FrontApart(part: seq<nat>, d: seq<nat>, s: seq<nat>)
    requires NoDup(d) && Apart(d, s) && |part| <= |d| && forall i: nat {:trigger d[i]} {:trigger part[i]} ::
      i < |part| ==> part[i] == d[i]
    ensures NoDup(part) && Apart(part, s)
  {
    forall i: nat, j: nat | i < j < |part| ensures Differ(part, i, part, j) { assert Differ(d, i, d, j); }
    forall i: nat, j: nat | i < |part| && j < |s| ensures Differ(part, i, s, j) { assert Differ(d, i, s, j); }
  }

  /** A copy to the front of a stream is one to the stream. */
  lemma Longer(m0: seq<byte>, m1: seq<byte>, part: seq<nat>, d: seq<nat>, s: seq<nat>, p: nat)
    requires Copied(m0, m1, part, s, p) && |part| <= |d| && forall i: nat {:trigger d[i]} {:trigger part[i]} ::
      i < |part| ==> part[i] == d[i]
    ensures Copied(m0, m1, d, s, p)
  {
    forall a: nat | a < |m0| && (forall i: nat {:trigger d[i]} :: i < p ==> d[i] != a) ensures m1[a] == m0[a] {
      assert forall i: nat {:trigger part[i]} :: i < p ==> part[i] != a;
    }
  }
}
