/** The structure block of a flattened device tree as bytes i..j of a buffer, and
    the tokens the tag walker reads from it (Devicetree Specification v0.4,
    section 5.4). */
module FdtTokens {
  import opened Wrappers
  import opened Seqs

  type byte = x: int | 0 <= x < 256
  type bytes = seq<byte>

  const FDT_BEGIN_NODE := 1
  const FDT_END_NODE := 2
  const FDT_PROP := 3
  const FDT_NOP := 4
  const FDT_END := 9
  const WORD := 0x1_0000_0000

  /** A buffer with `data` stored at i, byte by byte. */
  function Write(b: bytes, i: nat, data: bytes): (c: bytes)
    requires i + |data| <= |b|
    ensures |c| == |b|
    decreases |data|
  {
    if data == [] then b else Write(b[i := data[0]], i + 1, data[1..])
  }

  lemma {:induction false} Wrote(b: bytes, i: nat, data: bytes)
    requires i + |data| <= |b|
    ensures var c := Write(b, i, data);
      c[..i] == b[..i] && c[i..i + |data|] == data && c[i + |data|..] == b[i + |data|..]
    decreases |data|
  {
    if data != [] {
      var d, n := b[i := data[0]], i + |data|;
      Wrote(d, i + 1, data[1..]);
      WroteOne(Write(b, i, data), b, d, i, data);
    }
  }

  lemma WroteOne(c: bytes, b: bytes, d: bytes, i: nat, data: bytes)
    requires data != [] && i + |data| <= |b| == |c| && d == b[i := data[0]]
    requires c[..i + 1] == d[..i + 1] && c[i + 1..i + |data|] == data[1..] && c[i + |data|..] == d[i + |data|..]
    ensures c[..i] == b[..i] && c[i..i + |data|] == data && c[i + |data|..] == b[i + |data|..]
  {
    KeptBefore(c, d, i + 1, 0, i);
    assert c[i] == c[..i + 1][i] == d[..i + 1][i] == data[0];
    assert c[i..i + |data|] == [c[i]] + c[i + 1..i + |data|];
  }

  /** The big-endian number in bytes i..j. */
  function Number(b: bytes, i: nat, j: nat): nat
    requires i <= j <= |b|
    decreases j - i
  {
    if i == j then 0 else var low: int := b[j - 1]; 256 * Number(b, i, j - 1) + low
  }

  function Rd32(b: bytes, i: nat): nat
    requires i + 4 <= |b|
  {
    Number(b, i, i + 4)
  }

  /** A big-endian cell, behind a recursion that keeps its arithmetic out of
      proofs that only move it around. */
  function U32(v: nat): (r: bytes)
    requires v < WORD
    ensures |r| == 4
  {
    Cell(v, v)
  }

  function Cell(v: nat, n: nat): (r: bytes)
    requires v < WORD
    ensures |r| == 4
  {
    if n > 0 then Cell(v, n - 1) else [v / 0x100_0000, v / 0x1_0000 % 256, v / 0x100 % 256, v % 256]
  }

  lemma {:induction false} CellIs(v: nat, n: nat)
    requires v < WORD
    ensures Cell(v, n) == [v / 0x100_0000, v / 0x1_0000 % 256, v / 0x100 % 256, v % 256]
  {
    if n > 0 { CellIs(v, n - 1); }
  }

  lemma U32Reads(v: nat, b: bytes, i: nat)
    requires v < WORD && i + 4 <= |b| && b[i..i + 4] == U32(v)
    ensures Rd32(b, i) == v
  {
    CellIs(v, v);
    var c := b[i..i + 4];
    assert c[0] == b[i] && c[1] == b[i + 1] && c[2] == b[i + 2] && c[3] == b[i + 3];
    assert v / 0x100 == v / 0x1_0000 * 0x100 + v / 0x100 % 0x100;
    assert v / 0x1_0000 == v / 0x100_0000 * 0x100 + v / 0x1_0000 % 0x100;
    assert Number(b, i, i + 1) == v / 0x100_0000;
    assert Number(b, i, i + 2) == v / 0x1_0000;
    assert Number(b, i, i + 3) == v / 0x100;
  }

  lemma Rd32Bound(b: bytes, i: nat)
    requires i + 4 <= |b|
    ensures Rd32(b, i) < WORD
  {
    assert Number(b, i, i) == 0;
    assert Number(b, i, i + 1) < 0x100;
    assert Number(b, i, i + 2) < 0x1_0000;
    assert Number(b, i, i + 3) < 0x100_0000;
  }

  lemma {:induction false} NumberMoves(b: bytes, i: nat, j: nat, c: bytes, x: nat, y: nat)
    requires i <= j <= |b| && x <= y <= |c| && b[i..j] == c[x..y]
    ensures Number(b, i, j) == Number(c, x, y)
    decreases j - i
  {
    assert |b[i..j]| == |c[x..y]|;
    if i < j {
      assert b[j - 1] == b[i..j][j - 1 - i] == c[x..y][y - 1 - x] == c[y - 1];
      SubSlice(b, i, c, x, j - i, 0, j - 1 - i);
      NumberMoves(b, i, j - 1, c, x, y - 1);
    }
  }

  /** `FDT_TAGALIGN`: the next multiple of four. */
  function Align4(n: nat): (r: nat)
    ensures n <= r < n + 4
  {
    if n == 0 then 0 else if n <= 4 then 4 else 4 + Align4(n - 4)
  }

  lemma {:induction false} Align4Formula(n: nat)
    ensures Align4(n) == (n + 3) / 4 * 4
  {
    if n > 4 { Align4Formula(n - 4); }
  }

  lemma {:induction false} Align4Fits(n: nat)
    ensures Align4(n) % 4 == 0 && (n % 4 == 0 ==> Align4(n) == n)
  {
    Align4Formula(n);
  }

  lemma Align4Add(n: nat)
    ensures Align4(4 + n) == 4 + Align4(n)
  {
  }

  /** The first NUL from i on, or j. */
  function Nul(b: bytes, i: nat, j: nat): (r: nat)
    requires i <= j <= |b|
    ensures i <= r <= j
    decreases j - i
  {
    if i == j || b[i] == 0 then i else Nul(b, i + 1, j)
  }

  /** The first one it is. */
  lemma {:induction false} NulIsFirst(b: bytes, i: nat, j: nat)
    requires i <= j <= |b|
    ensures var z := Nul(b, i, j); (z < j ==> b[z] == 0) && Nul(b, i, z) == z
    decreases j - i
  {
    if i < j && b[i] != 0 { NulIsFirst(b, i + 1, j); }
  }

  lemma {:induction false} NulAt(b: bytes, i: nat, j: nat, z: nat)
    requires i <= z < j <= |b| && b[z] == 0 && Nul(b, i, z) == z
    ensures Nul(b, i, j) == z
    decreases z - i
  {
    if i < z { NulAt(b, i + 1, j, z); }
  }

  /** A C string and its terminator, found inside a buffer. */
  lemma {:induction false} CStringAt(b: bytes, i: nat, j: nat, name: bytes)
    requires CString(name) && i + |name| < j <= |b| && b[i..i + |name|] == name && b[i + |name|] == 0
    ensures Nul(b, i, j) == i + |name|
  {
    Units(name);
    NulMoves(b, i, i + |name|, name, 0, |name|);
    NulAt(b, i, j, i + |name|);
  }

  /** No NUL inside: what a C string holds before its terminator. */
  predicate CString(s: bytes) { Nul(s, 0, |s|) == |s| }

  lemma {:induction false} NulMoves(b: bytes, i: nat, j: nat, c: bytes, x: nat, y: nat)
    requires i <= j <= |b| && x <= y <= |c| && b[i..j] == c[x..y]
    ensures Nul(b, i, j) - i == Nul(c, x, y) - x
    decreases j - i
  {
    assert |b[i..j]| == |c[x..y]|;
    if i < j {
      assert b[i] == b[i..j][0] == c[x..y][0] == c[x];
      assert b[i + 1..j] == b[i..j][1..] && c[x + 1..y] == c[x..y][1..];
      NulMoves(b, i + 1, j, c, x + 1, y);
    }
  }

  datatype Token = Begin(name: bytes) | EndNode | Prop(nameoff: nat, val: bytes) | Nop | End

  /** A token and its length before padding. */
  datatype Parsed = Bad | Tok(t: Token, len: nat)

  /** The token at i in a block that ends at j. */
  function Lexed(b: bytes, i: nat, j: nat): (r: Parsed)
    requires i <= j <= |b|
    ensures r.Tok? ==> 4 <= r.len <= j - i
  {
    if i + 4 > j then Bad else
    var tag := Rd32(b, i);
    if tag == FDT_BEGIN_NODE then
      var z := Nul(b, i + 4, j);
      if z == j then Bad else Tok(Begin(b[i + 4..z]), z + 1 - i)
    else if tag == FDT_PROP then
      if i + 12 > j || i + 12 + Rd32(b, i + 4) > j then Bad else
      Tok(Prop(Rd32(b, i + 8), b[i + 12..i + 12 + Rd32(b, i + 4)]), 12 + Rd32(b, i + 4))
    else if tag == FDT_END_NODE then Tok(EndNode, 4)
    else if tag == FDT_NOP then Tok(Nop, 4)
    else if tag == FDT_END then Tok(End, 4)
    else Bad
  }

  /** The same, behind a recursion that proofs about whole blocks do not look
      through: to them a token is a black box. */
  function TokenAt(b: bytes, i: nat, j: nat): (r: Parsed)
    requires i <= j <= |b|
    ensures r.Tok? ==> 4 <= r.len <= j - i
  {
    Sealed(b, i, j, j)
  }

  function Sealed(b: bytes, i: nat, j: nat, n: nat): (r: Parsed)
    requires i <= j <= |b|
    ensures r.Tok? ==> 4 <= r.len <= j - i
  {
    if n == 0 then Lexed(b, i, j) else Sealed(b, i, j, n - 1)
  }

  lemma {:induction false} Unseal(b: bytes, i: nat, j: nat, n: nat)
    requires i <= j <= |b|
    ensures Sealed(b, i, j, n) == Lexed(b, i, j)
  {
    if n > 0 { Unseal(b, i, j, n - 1); }
  }

  /** The tokens between i and j, when they fill it exactly. */
  function Tokens(b: bytes, i: nat, j: nat): Option<seq<Token>>
    requires i <= j <= |b|
    decreases j - i
  {
    if i == j then Some([]) else
    match TokenAt(b, i, j)
    case Bad => None
    case Tok(t, len) =>
      var n := i + Align4(len);
      if n > j then None else
      match Tokens(b, n, j)
      case None => None
      case Some(ts) => Some([t] + ts)
  }

  // ------------------------------------------------------------------- the wire format

  /** A big-endian cell. */
  function Be(b: bytes, i: nat): int
    requires i + 4 <= |b|
  {
    var b0: int, b1: int, b2: int, b3: int := b[i], b[i + 1], b[i + 2], b[i + 3];
    b0 * 0x100_0000 + b1 * 0x1_0000 + b2 * 0x100 + b3
  }

  /** The token at i as section 5.4.1 of the Devicetree Specification lays it out: cells 1,
      2, 3, 4 and 9, a name up to its NUL, a property's length and name offset before its
      value. */
  function Wire(b: bytes, i: nat, j: nat): Parsed
    requires i <= j <= |b|
  {
    if i + 4 > j || b[i] != 0 || b[i + 1] != 0 || b[i + 2] != 0 then Bad else
    match b[i + 3]
    case 1 =>
      var z := Nul(b, i + 4, j);
      if z < j then Tok(Begin(b[i + 4..z]), 4 + (z - (i + 4)) + 1) else Bad
    case 2 => Tok(EndNode, 4)
    case 3 =>
      if i + 12 > j || i + 12 + Be(b, i + 4) > j then Bad else
      Tok(Prop(Be(b, i + 8), b[i + 12..i + 12 + Be(b, i + 4)]), 12 + Be(b, i + 4))
    case 4 => Tok(Nop, 4)
    case 9 => Tok(End, 4)
    case _ => Bad
  }

  lemma Rd32Is(b: bytes, i: nat)
    requires i + 4 <= |b|
    ensures Rd32(b, i) == Be(b, i)
  {
    assert Number(b, i, i) == 0;
    assert Number(b, i, i + 1) == b[i];
    assert Number(b, i, i + 2) == 0x100 * Number(b, i, i + 1) + b[i + 1];
    assert Number(b, i, i + 3) == 0x100 * Number(b, i, i + 2) + b[i + 2];
  }

  /** What the code takes for a token is one, and the other way round. */
  lemma WireIs(b: bytes, i: nat, j: nat)
    requires i <= j <= |b|
    ensures TokenAt(b, i, j) == Wire(b, i, j)
  {
    Unseal(b, i, j, j);
    if i + 4 <= j {
      Rd32Is(b, i);
      if i + 12 <= j {
        Rd32Is(b, i + 4);
        Rd32Is(b, i + 8);
      }
    }
  }

  // ----------------------------------------------------------- moving and joining

  /** A token depends only on its own bytes. */
  lemma TokenMoves(b: bytes, i: nat, j: nat, c: bytes, x: nat, y: nat)
    requires i <= j <= |b| && x <= y <= |c|
    requires TokenAt(b, i, j).Tok? && x + TokenAt(b, i, j).len <= y
    requires b[i..i + TokenAt(b, i, j).len] == c[x..x + TokenAt(b, i, j).len]
    ensures TokenAt(c, x, y) == TokenAt(b, i, j)
  {
    Unseal(b, i, j, j);
    Unseal(c, x, y, y);
    LexedMoves(b, i, j, c, x, y);
  }

  lemma LexedMoves(b: bytes, i: nat, j: nat, c: bytes, x: nat, y: nat)
    requires i <= j <= |b| && x <= y <= |c|
    requires Lexed(b, i, j).Tok? && x + Lexed(b, i, j).len <= y
    requires b[i..i + Lexed(b, i, j).len] == c[x..x + Lexed(b, i, j).len]
    ensures Lexed(c, x, y) == Lexed(b, i, j)
  {
    var len := Lexed(b, i, j).len;
    CellMoves(b, i, c, x, len, 0);
    assert i + 0 == i && x + 0 == x;
    if Rd32(b, i) == FDT_BEGIN_NODE {
      NulIsFirst(b, i + 4, j);
      SubSlice(b, i, c, x, len, 4, len - 1);
      NulMoves(b, i + 4, i + len - 1, c, x + 4, x + len - 1);
      assert c[x + len - 1] == c[x..x + len][len - 1] == b[i..i + len][len - 1] == 0;
      NulAt(c, x + 4, y, x + len - 1);
    } else if Rd32(b, i) == FDT_PROP {
      CellMoves(b, i, c, x, len, 4);
      CellMoves(b, i, c, x, len, 8);
      SubSlice(b, i, c, x, len, 12, len);
    }
  }

  lemma CellMoves(b: bytes, i: nat, c: bytes, x: nat, len: nat, o: nat)
    requires i + len <= |b| && x + len <= |c| && b[i..i + len] == c[x..x + len] && o + 4 <= len
    ensures Rd32(b, i + o) == Rd32(c, x + o)
  {
    SubSlice(b, i, c, x, len, o, o + 4);
    NumberMoves(b, i + o, i + o + 4, c, x + o, x + o + 4);
  }

  /** Equal bytes hold equal tokens, wherever they are. */
  lemma {:induction false} TokensMove(b: bytes, i: nat, j: nat, c: bytes, x: nat, y: nat)
    requires i <= j <= |b| && x <= y <= |c| && b[i..j] == c[x..y] && Tokens(b, i, j).Some?
    ensures Tokens(c, x, y) == Tokens(b, i, j)
    decreases j - i
  {
    assert |b[i..j]| == |c[x..y]|;
    if i < j {
      var p := TokenAt(b, i, j);
      var n := Align4(p.len);
      SubSlice(b, i, c, x, j - i, 0, p.len);
      TokenMoves(b, i, j, c, x, y);
      SubSlice(b, i, c, x, j - i, n, j - i);
      TokensMove(b, i + n, j, c, x + n, y);
    }
  }

  /** Blocks side by side tokenise to the tokens of both. */
  lemma {:induction false} TokensJoin(b: bytes, i: nat, m: nat, j: nat)
    requires i <= m <= j <= |b| && Tokens(b, i, m).Some? && Tokens(b, m, j).Some?
    ensures Tokens(b, i, j) == Some(Tokens(b, i, m).value + Tokens(b, m, j).value)
    decreases m - i
  {
    if i == m {
      Units(Tokens(b, m, j).value);
    } else {
      var p := TokenAt(b, i, m);
      TokenMoves(b, i, m, b, i, j);
      var n := i + Align4(p.len);
      TokensJoin(b, n, m, j);
      Regroup([p.t], Tokens(b, n, m).value, Tokens(b, m, j).value);
    }
  }

  /** Where the k-th token starts. */
  function Offset(b: bytes, i: nat, j: nat, k: nat): (o: nat)
    requires i <= j <= |b| && Tokens(b, i, j).Some? && k <= |Tokens(b, i, j).value|
    ensures i <= o <= j
    decreases j - i
  {
    if k == 0 then i else Offset(b, i + Align4(TokenAt(b, i, j).len), j, k - 1)
  }

  /** A block can be cut at every token. */
  lemma {:induction false} TokensCut(b: bytes, i: nat, j: nat, k: nat)
    requires i <= j <= |b| && Tokens(b, i, j).Some? && k <= |Tokens(b, i, j).value|
    ensures var o := Offset(b, i, j, k);
      Tokens(b, i, o) == Some(Tokens(b, i, j).value[..k]) && Tokens(b, o, j) == Some(Tokens(b, i, j).value[k..])
    decreases j - i
  {
    var ts := Tokens(b, i, j).value;
    Units(ts);
    if k > 0 {
      var p := TokenAt(b, i, j);
      var n := i + Align4(p.len);
      TokensCut(b, n, j, k - 1);
      CutTwice(ts, 1, k - 1);
      ConcatAt([p.t], Tokens(b, n, j).value);
      TokenMoves(b, i, j, b, i, Offset(b, i, j, k));
    }
  }

  lemma {:induction false} OffsetNext(b: bytes, i: nat, j: nat, k: nat)
    requires i <= j <= |b| && Tokens(b, i, j).Some? && k < |Tokens(b, i, j).value|
    ensures var p := TokenAt(b, Offset(b, i, j, k), j);
      p.Tok? && p.t == Tokens(b, i, j).value[k] && Offset(b, i, j, k + 1) == Offset(b, i, j, k) + Align4(p.len)
    decreases j - i
  {
    if k > 0 { OffsetNext(b, i + Align4(TokenAt(b, i, j).len), j, k - 1); }
  }

  lemma {:induction false} OffsetMoves(b: bytes, c: bytes, i: nat, j: nat, k: nat)
    requires i <= j <= |b| && j <= |c| && b[i..j] == c[i..j] && Tokens(b, i, j).Some? && k <= |Tokens(b, i, j).value|
    ensures Tokens(c, i, j) == Tokens(b, i, j) && Offset(c, i, j, k) == Offset(b, i, j, k)
    decreases j - i
  {
    TokensMove(b, i, j, c, i, j);
    if k > 0 {
      var len := TokenAt(b, i, j).len;
      var n := Align4(len);
      SubSlice(b, i, c, i, j - i, 0, len);
      TokenMoves(b, i, j, c, i, j);
      SubSlice(b, i, c, i, j - i, n, j - i);
      OffsetMoves(b, c, i + n, j, k - 1);
    }
  }

  /** Offsets in the front part of a block do not depend on what follows it. */
  lemma {:induction false} OffsetFront(b: bytes, i: nat, o: nat, j: nat, k: nat)
    requires i <= o <= j <= |b| && Tokens(b, i, o).Some? && Tokens(b, o, j).Some? && k <= |Tokens(b, i, o).value|
    ensures Tokens(b, i, j).Some? && k <= |Tokens(b, i, j).value| && Offset(b, i, j, k) == Offset(b, i, o, k)
    decreases o - i
  {
    TokensJoin(b, i, o, j);
    if k > 0 {
      TokenMoves(b, i, o, b, i, j);
      OffsetFront(b, i + Align4(TokenAt(b, i, o).len), o, j, k - 1);
    }
  }

  lemma {:induction false} OffsetMono(b: bytes, i: nat, j: nat, k: nat, m: nat)
    requires i <= j <= |b| && Tokens(b, i, j).Some? && k <= m <= |Tokens(b, i, j).value|
    ensures Offset(b, i, j, k) <= Offset(b, i, j, m)
    decreases j - i
  {
    if k > 0 { OffsetMono(b, i + Align4(TokenAt(b, i, j).len), j, k - 1, m - 1); }
  }

  lemma {:induction false} OffsetAligned(b: bytes, i: nat, j: nat, k: nat)
    requires i <= j <= |b| && Tokens(b, i, j).Some? && k <= |Tokens(b, i, j).value|
    ensures (Offset(b, i, j, k) - i) % 4 == 0
    decreases j - i
  {
    if k > 0 {
      Align4Fits(TokenAt(b, i, j).len);
      OffsetAligned(b, i + Align4(TokenAt(b, i, j).len), j, k - 1);
    }
  }

  // ------------------------------------------------------------------- encodings

  lemma {:induction false} OneToken(b: bytes, i: nat, j: nat, p: Parsed)
    requires i <= j <= |b| && Lexed(b, i, j) == p && p.Tok? && i + Align4(p.len) == j
    ensures Tokens(b, i, j) == Some([p.t])
  {
    Unseal(b, i, j, j);
    Units([p.t]);
  }

  lemma BeginLexed(b: bytes, i: nat, j: nat, name: bytes)
    requires i + 5 + |name| <= j <= |b| && CString(name)
    requires b[i..i + 4] == U32(FDT_BEGIN_NODE) && b[i + 4..i + 4 + |name|] == name && b[i + 4 + |name|] == 0
    ensures Lexed(b, i, j) == Tok(Begin(name), 5 + |name|)
  {
    U32Reads(FDT_BEGIN_NODE, b, i);
    CStringAt(b, i + 4, j, name);
  }

  lemma PropLexed(b: bytes, i: nat, j: nat, nameoff: nat, val: bytes)
    requires nameoff < WORD && |val| < WORD && i <= i + 12 + |val| <= j <= |b|
    requires b[i..i + 4] == U32(FDT_PROP) && b[i + 4..i + 8] == U32(|val|) && b[i + 8..i + 12] == U32(nameoff)
    requires b[i + 12..i + 12 + |val|] == val
    ensures Lexed(b, i, j) == Tok(Prop(nameoff, val), 12 + |val|)
  {
    U32Reads(FDT_PROP, b, i);
    U32Reads(|val|, b, i + 4);
    U32Reads(nameoff, b, i + 8);
  }

  /** A node header, a property and a bare tag each read back as one token,
      whatever the padding holds. */
  lemma {:induction false} BeginReads(b: bytes, i: nat, j: nat, name: bytes)
    requires i + 5 + |name| <= j <= |b| && CString(name) && j == i + 4 + Align4(|name| + 1)
    requires b[i..i + 4] == U32(FDT_BEGIN_NODE) && b[i + 4..i + 4 + |name|] == name && b[i + 4 + |name|] == 0
    ensures Tokens(b, i, j) == Some([Begin(name)])
  {
    BeginLexed(b, i, j, name);
    Align4Add(|name| + 1);
    OneToken(b, i, j, Tok(Begin(name), 5 + |name|));
  }

  lemma {:induction false} PropReads(b: bytes, i: nat, j: nat, nameoff: nat, val: bytes)
    requires nameoff < WORD && |val| < WORD && i <= i + 12 + |val| <= j <= |b| && j == i + 12 + Align4(|val|)
    requires b[i..i + 4] == U32(FDT_PROP) && b[i + 4..i + 8] == U32(|val|) && b[i + 8..i + 12] == U32(nameoff)
    requires b[i + 12..i + 12 + |val|] == val
    ensures Tokens(b, i, j) == Some([Prop(nameoff, val)])
  {
    PropLexed(b, i, j, nameoff, val);
    Align4Add(8 + |val|);
    Align4Add(4 + |val|);
    Align4Add(|val|);
    OneToken(b, i, j, Tok(Prop(nameoff, val), 12 + |val|));
  }

  lemma TagReads(b: bytes, i: nat, tag: nat)
    requires i + 4 <= |b| && tag in {FDT_END_NODE, FDT_NOP, FDT_END} && b[i..i + 4] == U32(tag)
    ensures Tokens(b, i, i + 4) == Some([if tag == FDT_END_NODE then EndNode else if tag == FDT_NOP then Nop else End])
  {
    U32Reads(tag, b, i);
    OneToken(b, i, i + 4, Lexed(b, i, i + 4));
  }

  // ------------------------------------------------------------------- appending

  /** Writing one token after a block and nothing before it. */
  lemma {:induction false} Appended(b: bytes, c: bytes, i: nat, m: nat, j: nat, t: Token)
    requires i <= m <= j <= |c| && m <= |b| && b[..m] == c[..m]
    requires Tokens(b, i, m).Some? && Tokens(c, m, j) == Some([t])
    ensures Tokens(c, i, j) == Some(Tokens(b, i, m).value + [t])
  {
    KeptBefore(b, c, m, i, m);
    TokensMove(b, i, m, c, i, m);
    TokensJoin(c, i, m, j);
  }

  /** On a block that tokenises the lexer never fails. */
  lemma Walkable(b: bytes, i: nat, j: nat)
    requires i < j <= |b| && Tokens(b, i, j).Some?
    ensures var p := Lexed(b, i, j);
      p == TokenAt(b, i, j) && p.Tok? && i + Align4(p.len) <= j && Tokens(b, i + Align4(p.len), j).Some? &&
      Tokens(b, i, j).value == [p.t] + Tokens(b, i + Align4(p.len), j).value
  {
    Unseal(b, i, j, j);
  }

  /** Stored anywhere, `data` reads back as this one token, of `len` bytes with
      its padding. */
  ghost predicate Spells(data: bytes, len: nat, t: Token) {
    |data| <= len && forall b: bytes, i: nat {:trigger Write(b, i, data)} | i + len <= |b| ::
      Tokens(Write(b, i, data), i, i + len) == Some([t])
  }

  method NodeBytes(name: bytes) returns (data: bytes)
    requires CString(name)
    ensures Spells(data, 4 + Align4(|name| + 1), Begin(name))
  {
    var t := name + [0];
    data := U32(FDT_BEGIN_NODE) + t;
    assert data[0..4] == U32(FDT_BEGIN_NODE) && data[4..4 + |name|] == name && data[4 + |name|] == 0;
    BeginSpells(name, data);
  }

  lemma {:induction false} BeginSpells(name: bytes, data: bytes)
    requires CString(name) && |data| == 5 + |name|
    requires data[0..4] == U32(FDT_BEGIN_NODE) && data[4..4 + |name|] == name && data[4 + |name|] == 0
    ensures Spells(data, 4 + Align4(|name| + 1), Begin(name))
  {
    var len := 4 + Align4(|name| + 1);
    forall b: bytes, i: nat {:trigger Write(b, i, data)} | i + len <= |b|
      ensures Tokens(Write(b, i, data), i, i + len) == Some([Begin(name)])
    {
      Wrote(b, i, data);
      BeginStored(Write(b, i, data), i, name, data, len);
    }
  }

  lemma BeginStored(c: bytes, i: nat, name: bytes, data: bytes, len: nat)
    requires CString(name) && |data| == 5 + |name| && len == 4 + Align4(|name| + 1) && i + len <= |c|
    requires data[0..4] == U32(FDT_BEGIN_NODE) && data[4..4 + |name|] == name && data[4 + |name|] == 0
    requires c[i..i + |data|] == data
    ensures Tokens(c, i, i + len) == Some([Begin(name)])
  {
    CutAt(c, i, data, 0, 4);
    CutAt(c, i, data, 4, 4 + |name|);
    assert c[i + 4 + |name|] == c[i..i + |data|][4 + |name|];
    BeginReads(c, i, i + len, name);
  }

  method PropertyBytes(nameoff: nat, val: bytes) returns (data: bytes)
    requires nameoff < WORD && |val| < WORD
    ensures Spells(data, 12 + Align4(|val|), Prop(nameoff, val))
  {
    var t := U32(nameoff) + val;
    data := U32(FDT_PROP) + (U32(|val|) + t);
    assert data[0..4] == U32(FDT_PROP) && data[4..] == U32(|val|) + t;
    assert data[4..8] == data[4..][..4] && data[8..12] == data[4..][4..8] && data[12..12 + |val|] == data[4..][8..];
    PropSpells(nameoff, val, data);
  }

  lemma {:induction false} PropSpells(nameoff: nat, val: bytes, data: bytes)
    requires nameoff < WORD && |val| < WORD && |data| == 12 + |val|
    requires data[0..4] == U32(FDT_PROP) && data[4..8] == U32(|val|) && data[8..12] == U32(nameoff)
      && data[12..12 + |val|] == val
    ensures Spells(data, 12 + Align4(|val|), Prop(nameoff, val))
  {
    var len := 12 + Align4(|val|);
    forall b: bytes, i: nat {:trigger Write(b, i, data)} | i + len <= |b|
      ensures Tokens(Write(b, i, data), i, i + len) == Some([Prop(nameoff, val)])
    {
      Wrote(b, i, data);
      PropStored(Write(b, i, data), i, nameoff, val, data, len);
    }
  }

  lemma PropStored(c: bytes, i: nat, nameoff: nat, val: bytes, data: bytes, len: nat)
    requires nameoff < WORD && |val| < WORD && |data| == 12 + |val| && len == 12 + Align4(|val|) && i + len <= |c|
    requires data[0..4] == U32(FDT_PROP) && data[4..8] == U32(|val|) && data[8..12] == U32(nameoff)
      && data[12..12 + |val|] == val
    requires c[i..i + |data|] == data
    ensures Tokens(c, i, i + len) == Some([Prop(nameoff, val)])
  {
    CutAt(c, i, data, 0, 4);
    CutAt(c, i, data, 4, 8);
    CutAt(c, i, data, 8, 12);
    CutAt(c, i, data, 12, 12 + |val|);
    PropReads(c, i, i + len, nameoff, val);
  }

  function TagToken(tag: nat): Token { if tag == FDT_END_NODE then EndNode else if tag == FDT_NOP then Nop else End }

  lemma TagSpells(tag: nat)
    requires tag == FDT_END_NODE || tag == FDT_NOP || tag == FDT_END
    ensures Spells(U32(tag), 4, TagToken(tag))
  {
    forall b: bytes, i: nat {:trigger Write(b, i, U32(tag))} | i + 4 <= |b|
      ensures Tokens(Write(b, i, U32(tag)), i, i + 4) == Some([TagToken(tag)])
    {
      Wrote(b, i, U32(tag));
      TagReads(Write(b, i, U32(tag)), i, tag);
    }
  }

  // ----------------------------------------------------------- rewriting one token

  /** The first token and the rest, as two blocks. */
  lemma FirstCut(b: bytes, i: nat, j: nat)
    requires i < j <= |b| && Tokens(b, i, j).Some?
    ensures var p := Lexed(b, i, j);
      p == TokenAt(b, i, j) && p.Tok? && i + Align4(p.len) <= j && Tokens(b, i, i + Align4(p.len)) == Some([p.t]) &&
      Tokens(b, i + Align4(p.len), j).Some? && Tokens(b, i, j).value == [p.t] + Tokens(b, i + Align4(p.len), j).value
  {
    Walkable(b, i, j);
    var p, n := TokenAt(b, i, j), i + Align4(TokenAt(b, i, j).len);
    TokenMoves(b, i, j, b, i, n);
    Units([p.t]);
  }

  /** A new name offset in place. */
  lemma {:induction false} RenameToken(b: bytes, c: bytes, i: nat, j: nat, n: nat, v: nat)
    requires i < j <= |b| && Lexed(b, i, j).Tok? && Lexed(b, i, j).t.Prop? && n == i + Align4(Lexed(b, i, j).len) <= j
    requires v < WORD && c == Write(b, i + 8, U32(v))
    ensures Tokens(c, i, n) == Some([Prop(v, Lexed(b, i, j).t.val)])
  {
    var len := Lexed(b, i, j).len;
    Wrote(b, i + 8, U32(v));
    KeptBefore(b, c, i + 8, i, i + 4);
    KeptBefore(b, c, i + 8, i + 4, i + 8);
    KeptAfter(b, c, i + 12, i + 12, i + len);
    NumberMoves(b, i, i + 4, c, i, i + 4);
    NumberMoves(b, i + 4, i + 8, c, i + 4, i + 8);
    U32Reads(v, c, i + 8);
    OneToken(c, i, n, Tok(Prop(v, Lexed(b, i, j).t.val), len));
  }

  /** Bytes changed between x and y only, where one token stood and one stands. */
  lemma {:induction false} ReplaceToken(b: bytes, c: bytes, i: nat, x: nat, y: nat, j: nat, t: Token)
    requires i <= x <= y <= j <= |b| == |c| && b[..x] == c[..x] && b[y..] == c[y..]
    requires Tokens(b, i, x).Some? && Tokens(b, y, j).Some? && Tokens(c, x, y) == Some([t])
    ensures Tokens(c, i, y) == Some(Tokens(b, i, x).value + [t]) && Tokens(c, y, j) == Tokens(b, y, j)
  {
    KeptBefore(b, c, x, i, x);
    TokensMove(b, i, x, c, i, x);
    TokensJoin(c, i, x, y);
    KeptAfter(b, c, y, y, j);
    TokensMove(b, y, j, c, y, j);
  }

  lemma Align4Shift(o: nat, n: nat)
    requires o % 4 == 0
    ensures Align4(o + n) == o + Align4(n) && (o + Align4(n)) % 4 == 0
  {
    Align4Formula(o + n);
    Align4Formula(n);
  }
}
