/** Whole runs of the sequential writer: the finished blob describes the tree
    whose calls were made. */
module FdtRun {
  import opened FdtTokens
  import opened FdtNames
  import opened FdtBlob
  import opened FdtTree
  import Writer = FdtWriter
  import opened FdtFinish
  import opened Seqs

  /** A call to `fdt_begin_node`, `fdt_end_node` or `fdt_property`. */
  predicate Call(it: Item) {
    match it
    case Open(name) => CString(name)
    case Close => true
    case Property(pname, val) => pname.Some? && CString(pname.value) && |pname.value| < INT_MAX && |val| <= INT_MAX
    case _ => false
  }

  // ------------------------------------------------------------- bytes needed

  /** Whether the name is new to strings block strs. */
  ghost predicate Grows(call: Item, strs: bytes, dedup: bool)
    requires Call(call)
  {
    call.Property? && !(dedup && Present(strs, call.pname.value))
  }

  /** The strings block after the call. */
  ghost function StringsAfter(call: Item, strs: bytes, dedup: bool): bytes
    requires Call(call)
  {
    if Grows(call, strs, dedup) then (call.pname.value + [0]) + strs else strs
  }

  /** The bytes one call takes from both blocks together. */
  ghost function Price(call: Item, strs: bytes, dedup: bool): nat
    requires Call(call)
  {
    match call
    case Open(name) => 4 + Align4(|name| + 1)
    case Close => 4
    case Property(pname, val) => 12 + Align4(|val|) + if Grows(call, strs, dedup) then |pname.value| + 1 else 0
  }

  /** The bytes a list of calls takes. */
  ghost function Cost(calls: seq<Item>, strs: bytes, dedup: bool): nat
    requires forall n :: 0 <= n < |calls| ==> Call(calls[n])
    decreases |calls|
  {
    if calls == [] then 0 else
    Price(calls[0], strs, dedup) + Cost(calls[1..], StringsAfter(calls[0], strs, dedup), dedup)
  }

  // ------------------------------------------------------------------------ runs

  /** Any sequence of calls, well nested or not, until one fails. */
  method WriteAll(f: Blob, calls: seq<Item>, dedup: bool) returns (r: Writer.Outcome)
    requires Writer.Writing(f) && forall n :: 0 <= n < |calls| ==> Call(calls[n])
    modifies f, f.buf
    ensures f.buf == old(f.buf) && Writer.Writing(f)
    ensures r.Done? <==> Cost(calls, old(Writer.State(f).Strings()), dedup) <= old(Writer.State(f).Room())
    ensures r.Done? ==> Writer.State(f).Contents() == old(Writer.State(f).Contents()) + calls
    ensures r.Done? ==>
      Writer.State(f).Room() == old(Writer.State(f).Room()) - Cost(calls, old(Writer.State(f).Strings()), dedup)
    ensures r.Overrun? ==>
      exists n :: 0 <= n < |calls| && calls[n].Property? && f.sizeStrings + |calls[n].pname.value| + 1 > f.total
  {
    ghost var before := Writer.State(f).Contents();
    ghost var spare := Writer.State(f).Room() - Cost(calls, Writer.State(f).Strings(), dedup);
    Units(before);
    Units(calls);
    for n := 0 to |calls|
      invariant f.buf == old(f.buf) && Writer.Writing(f) && Writer.State(f).Contents() == before + calls[..n]
      invariant Writer.State(f).Room() - Cost(calls[n..], Writer.State(f).Strings(), dedup) == spare
    {
      assert calls[n..][0] == calls[n] && calls[n..][1..] == calls[n + 1..];
      r := WriteOne(f, calls[n], dedup);
      if !r.Done? { return; }
      assert calls[..n + 1] == calls[..n] + [calls[n]];
      Regroup(before, calls[..n], [calls[n]]);
    }
    r := Writer.Done;
  }

  /** One call: done exactly when its price is there. */
  method WriteOne(f: Blob, call: Item, dedup: bool) returns (r: Writer.Outcome)
    requires Writer.Writing(f) && Call(call)
    modifies f, f.buf
    ensures f.buf == old(f.buf) && Writer.Writing(f)
    ensures r.Done? <==> Price(call, old(Writer.State(f).Strings()), dedup) <= old(Writer.State(f).Room())
    ensures Writer.State(f).Contents() == old(Writer.State(f).Contents()) + (if r.Done? then [call] else [])
    ensures r.Done? ==>
      Writer.State(f).Room() == old(Writer.State(f).Room()) - Price(call, old(Writer.State(f).Strings()), dedup)
    ensures r.Done? ==> Writer.State(f).Strings() == StringsAfter(call, old(Writer.State(f).Strings()), dedup)
    ensures r.Overrun?
      <==> Grows(call, old(Writer.State(f).Strings()), dedup) && old(f.sizeStrings) + |call.pname.value| + 1 > f.total
    ensures r.Overrun? ==> f.sizeStrings == old(f.sizeStrings)
  {
    ghost var strs := Writer.State(f).Strings();
    Units(strs);
    match call
    case Open(name) =>
      var ok := Writer.BeginNode(f, name);
      r := if ok then Writer.Done else Writer.NoSpace;
    case Close =>
      var ok := Writer.EndNode(f);
      r := if ok then Writer.Done else Writer.NoSpace;
    case Property(pname, val) =>
      var grown;
      r, grown := Writer.Property(f, pname.value, val, dedup);
  }

  /** `fdt_create` and `fdt_finish_reservemap`: an empty draft, if the header and
      the reserve map's terminator fit. */
  method Create(size: nat) returns (f: Blob?)
    requires size <= INT_MAX
    ensures f == null <==> size < 56
    ensures f != null ==>
      fresh(f) && fresh(f.buf) && f.total == size && f.offStruct == 56 && Writer.Writing(f)
        && Writer.State(f).Contents() == []
  {
    if size < HEADER { return null; }
    f := new Blob(size);
    var offset := f.offStruct;
    if offset + RESERVE_ENTRY > f.total { return null; }
    f.offStruct := offset + RESERVE_ENTRY;
    f.offStrings := f.total;
  }

  /** The calls that build a tree, then `fdt_finish`: done exactly when the calls'
      bytes and the end mark fit, and then the blob describes the tree. */
  method WriteTree(f: Blob, es: seq<Elem>, dedup: bool) returns (r: Writer.Outcome)
    requires Writer.Writing(f) && Writer.State(f).Contents() == [] && forall n :: 0 <= n < |Flat(es)| ==>
      Call(Flat(es)[n])
    modifies f, f.buf
    ensures f.buf == old(f.buf)
    ensures r.Done? <==> Cost(Flat(es), old(Writer.State(f).Strings()), dedup) + 4 <= old(Writer.State(f).Room())
    ensures r.Done? ==> Complete(f) && Items(f) == Flat(es) + [Stop] && Describes(Items(f), es)
  {
    var calls := Flat(es);
    r := WriteAll(f, calls, dedup);
    if !r.Done? { return; }
    Units(calls);
    var ok := Finish(f);
    if !ok { r := Writer.NoSpace; }
    CallsHaveNoSkips(calls);
  }

  lemma {:induction false} CallsHaveNoSkips(calls: seq<Item>)
    requires forall n :: 0 <= n < |calls| ==> Call(calls[n])
    ensures NoSkips(calls + [Stop]) == calls + [Stop]
    decreases |calls|
  {
    if calls == [] {
      Units([Stop]);
    } else {
      assert forall n :: 0 <= n < |calls[1..]| ==> calls[1..][n] == calls[n + 1];
      CallsHaveNoSkips(calls[1..]);
      ConcatCut(calls, [Stop], 1);
    }
  }
}
