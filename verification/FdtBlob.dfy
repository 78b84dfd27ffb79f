/** A blob in memory: its header fields, the buffer behind them, and the tag
    walker. The structure block starts at `offStruct`. */
module FdtBlob {
  import opened Wrappers
  import opened FdtTokens
  import opened FdtNames

  const TRUNCATED := -8
  const BADSTRUCTURE := -11
  /** The header, rounded up to the alignment of a reserve entry, and one such entry. */
  const HEADER := 40
  const RESERVE_ENTRY := 16
  const INT_MAX := 0x7FFF_FFFF

  function TagOf(t: Token): nat {
    match t
    case Begin(_) => FDT_BEGIN_NODE
    case EndNode => FDT_END_NODE
    case Prop(_, _) => FDT_PROP
    case Nop => FDT_NOP
    case End => FDT_END
  }

  /** A length cell so large that adding it to the offset passes 2^32. */
  predicate Wraps(b: bytes, i: nat, j: nat)
    requires i <= j <= |b|
  {
    i + 8 <= j && Rd32(b, i) == FDT_PROP && Rd32(b, i + 4) + 12 >= WORD
  }

  class Blob {
    var buf: array<byte>
    var total: nat
    var offStruct: nat
    var sizeStruct: nat
    var offStrings: nat
    var sizeStrings: nat

    /** `fdt_create`, once the buffer is known to hold the header. */
    constructor (size: nat)
      requires 40 <= size
      ensures fresh(buf) && buf.Length == total == size
      ensures offStruct == 40 && sizeStruct == 0 && offStrings == 0 && sizeStrings == 0
    {
      buf := new byte[size](_ => 0);
      total := size;
      offStruct, sizeStruct := HEADER, 0;
      offStrings, sizeStrings := 0, 0;
    }

    /** The structure block lies inside the blob, which the C `int`s can span. */
    ghost predicate Fits()
      reads this, buf
    {
      offStruct + sizeStruct <= total <= buf.Length <= INT_MAX
    }

    /** Where the structure block ends. */
    ghost function Top(): nat
      reads this
    {
      offStruct + sizeStruct
    }

    ghost function StructTokens(): Option<seq<Token>>
      requires Fits()
      reads this, buf
    {
      Tokens(buf[..], offStruct, Top())
    }

    /** `memcpy` into the blob. */
    method Store(at: nat, data: bytes)
      requires at + |data| <= buf.Length
      modifies buf
      ensures buf[..] == Write(old(buf[..]), at, data)
    {
      for k := 0 to |data|
        invariant Write(buf[..], at + k, data[k..]) == Write(old(buf[..]), at, data)
      {
        ghost var b := buf[..];
        buf[at + k] := data[k];
        assert buf[..] == b[at + k := data[k]] && data[k..][1..] == data[k + 1..];
      }
    }

    /** `memmove` within the blob. */
    method Move(dst: nat, src: nat, len: nat)
      requires dst + len <= buf.Length && src + len <= buf.Length
      modifies buf
      ensures buf[..] == Write(old(buf[..]), dst, old(buf[..])[src..src + len])
    {
      Store(dst, buf[src..src + len]);
    }

    /** `fdt_offset_ptr`: whether len bytes at this offset of the structure block
        may be read. */
    predicate Readable(offset: nat, len: nat)
      reads this
    {
      offset + len <= sizeStruct
    }

    /** The walk over a node name. */
    method SkipName(start: nat) returns (z: nat)
      requires Fits() && start <= sizeStruct
      ensures offStruct + z == Nul(buf[..], offStruct + start, Top())
    {
      z := start;
      while Readable(z, 1) && buf[offStruct + z] != 0
        invariant start <= z <= sizeStruct
        invariant Nul(buf[..], offStruct + start, Top()) == Nul(buf[..], offStruct + z, Top())
        decreases sizeStruct - z
      {
        z := z + 1;
      }
    }

    /** The property case: the offset is kept in 32 bits. */
    method SkipProp(start: nat) returns (ok: bool, end: nat)
      requires Fits() && start + 4 <= sizeStruct && Rd32(buf[..], offStruct + start) == FDT_PROP
      ensures var i, j := offStruct + start, Top();
        if Wraps(buf[..], i, j) then
          var len := Rd32(buf[..], i + 4) + 12 - WORD;
          ok == (start + len <= sizeStruct) && (ok ==> end == start + len)
        else
          ok == Lexed(buf[..], i, j).Tok?
            && (ok ==> Lexed(buf[..], i, j).t.Prop? && end == start + Lexed(buf[..], i, j).len)
    {
      ok, end := false, 0;
      if Readable(start + 4, 4) {
        var len := Rd32(buf[..], offStruct + start + 4);
        end := (start + 12 + len) % WORD;
        Rd32Bound(buf[..], offStruct + start + 4);
        WrapSum(start, 12 + len);
        ok := Readable(start, (end - start) % WORD);
      }
    }

    /** `fdt_next_tag`. */
    method NextTag(start: nat) returns (tag: nat, next: int)
      requires Fits() && start <= sizeStruct
      ensures var p := Lexed(buf[..], offStruct + start, Top());
        !Wraps(buf[..], offStruct + start, Top()) ==>
        if p.Tok? then tag == TagOf(p.t) && next == Align4(start + p.len)
        else tag == FDT_END && next == (if start + 4 > sizeStruct then -8 else -11)
      ensures Wraps(buf[..], offStruct + start, Top()) ==>
        var len := Rd32(buf[..], offStruct + start + 4) + 12 - WORD;
        if start + len <= sizeStruct then tag == FDT_PROP && next == Align4(start + len)
        else tag == FDT_END && next == -11
    {
      if !Readable(start, 4) { return FDT_END, TRUNCATED; }
      tag := Rd32(buf[..], offStruct + start);
      if tag == FDT_PROP {
        var ok, end := SkipProp(start);
        if ok { return tag, Align4(end); }
      } else if tag == FDT_BEGIN_NODE {
        var z := SkipName(start + 4);
        if Readable(z, 1) { return tag, Align4(z + 1); }
      } else if tag == FDT_END_NODE || tag == FDT_NOP || tag == FDT_END {
        return tag, Align4(start + 4);
      }
      return FDT_END, BADSTRUCTURE;
    }
  }

  /** Nothing the lexer accepts wraps. */
  lemma NoWrap(b: bytes, i: nat, j: nat)
    requires i <= j <= |b| <= INT_MAX && Lexed(b, i, j).Tok?
    ensures !Wraps(b, i, j)
  {
  }

  /** What a finished structure block i..j says, with strings block p..p + s. */
  ghost function Said(b: bytes, i: nat, j: nat, p: nat, s: nat): seq<Item>
    requires i <= j <= |b| && p + s <= |b| && Tokens(b, i, j).Some?
  {
    AllNamed(Tokens(b, i, j).value, b[p..p + s], 0)
  }

  /** A finished blob: structure block, then strings block, inside `total`. */
  ghost predicate Complete(f: Blob)
    reads f, f.buf
  {
    f.Top() <= f.offStrings && f.offStrings + f.sizeStrings <= f.total <= f.buf.Length <= INT_MAX
      && f.StructTokens().Some?
  }

  ghost function Items(f: Blob): seq<Item>
    requires Complete(f)
    reads f, f.buf
  {
    Said(f.buf[..], f.offStruct, f.Top(), f.offStrings, f.sizeStrings)
  }

  /** `fdt_next_tag` inside a block that tokenises. */
  method Walk(f: Blob, start: nat) returns (tag: nat, next: nat)
    requires f.Fits() && start <= f.sizeStruct && start % 4 == 0
      && TokenAt(f.buf[..], f.offStruct + start, f.Top()).Tok?
    ensures var p := TokenAt(f.buf[..], f.offStruct + start, f.Top());
      tag == TagOf(p.t) && next == start + Align4(p.len)
    ensures next % 4 == 0
  {
    ghost var i, j := f.offStruct + start, f.Top();
    Unseal(f.buf[..], i, j, j);
    NoWrap(f.buf[..], i, j);
    Align4Shift(start, TokenAt(f.buf[..], i, j).len);
    var n;
    tag, n := f.NextTag(start);
    next := n;
  }

  lemma WrapSum(a: nat, n: nat)
    requires a <= INT_MAX && n < 2 * WORD - INT_MAX
    ensures ((a + n) % WORD - a) % WORD == n % WORD
    ensures a + n % WORD <= INT_MAX ==> (a + n) % WORD == a + n % WORD
  {
  }
}
