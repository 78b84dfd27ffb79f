/** Descriptors of the stage-2 tables, split into the three bit fields the code
    reads: output address (bits 47:12), type (bits 1:0) and the attribute bits
    between them. */
module Descriptors {
  const PAGE_SIZE := 4096
  const PA_LIMIT := 0x1_0000_0000_0000
  const TABLE := 3
  const BLOCK := 1

  datatype Word = Word(pa: nat, attrs: nat, kind: nat) {
    predicate Valid() { kind != 0 }
  }

  const ZERO := Word(0, 0, 0)

  /** The access-permission field, bits 7:6. */
  function Ap(attrs: nat): nat { attrs / 64 % 4 * 64 }

  /** Replaces the access permission and nothing else. */
  function WithAp(attrs: nat, ap: nat): nat { attrs - Ap(attrs) + ap }

  const AP_RO := 64
  const AP_RW := 192

  predicate IsAp(ap: nat) { ap % 64 == 0 && ap < 256 }

  /** Bits 6 and 7 of a stage-2 descriptor: the guest may read, it may write. */
  predicate MayRead(attrs: nat) { attrs / 64 % 2 == 1 }
  predicate MayWrite(attrs: nat) { attrs / 128 % 2 == 1 }

  /** What a permission field grants. */
  lemma ApGrants(attrs: nat, ap: nat)
    requires IsAp(ap)
    ensures MayRead(WithAp(attrs, ap)) <==> ap / 64 % 2 == 1
    ensures MayWrite(WithAp(attrs, ap)) <==> ap / 128 % 2 == 1
  {
    var high, low, m := attrs / 256, attrs % 64, ap / 64;
    assert attrs == 256 * high + Ap(attrs) + low;
    var a := WithAp(attrs, ap);
    assert a == 64 * (4 * high + m) + low && m < 4;
    assert a / 64 == 4 * high + m;
    assert a / 128 == 2 * high + m / 2;
  }

  /** The new permission is read back, every other attribute bit is kept, and
      putting the old permission back undoes the change. */
  lemma WithApOk(attrs: nat, ap: nat)
    requires IsAp(ap)
    ensures Ap(WithAp(attrs, ap)) == ap
    ensures WithAp(attrs, ap) % 64 == attrs % 64 && WithAp(attrs, ap) / 256 == attrs / 256
    ensures WithAp(WithAp(attrs, ap), Ap(attrs)) == attrs
  {
    var high, low := attrs / 256, attrs % 64;
    assert attrs == 256 * high + Ap(attrs) + low;
    FieldsApart(high, ap, low);
    assert WithAp(attrs, ap) == 256 * high + ap + low;
  }

  lemma FieldsApart(high: nat, ap: nat, low: nat)
    requires IsAp(ap) && low < 64
    ensures var a := 256 * high + ap + low; a / 256 == high && Ap(a) == ap && a % 64 == low
  {
    var m := ap / 64;
    var a := 64 * (4 * high + m) + low;
    assert a / 64 == 4 * high + m;
    assert (4 * high + m) % 4 == m;
  }

  /** A descriptor as the 64-bit word in memory: the fields do not overlap, so
      the code's bitwise or is a sum. */
  function Encode(w: Word): nat { w.pa + w.attrs + w.kind }

  predicate Encodable(w: Word) {
    && w.pa % PAGE_SIZE == 0 && w.pa < PA_LIMIT
    && w.attrs % 4 == 0 && w.attrs < PAGE_SIZE
    && w.kind < 4
  }

  /** Masking the word as `to_pa`, `valid` and the block test do gives back the
      fields, so distinct descriptors are distinct words. */
  lemma DecodeEncode(w: Word)
    requires Encodable(w)
    ensures Encode(w) / PAGE_SIZE % 0x10_0000_0000 * PAGE_SIZE == w.pa
    ensures Encode(w) % 4 == w.kind
    ensures Encode(w) % PAGE_SIZE - Encode(w) % 4 == w.attrs
    ensures Encode(w) == 0 <==> w == ZERO
  {
  }
}
