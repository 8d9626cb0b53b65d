/**
 * The heap serializer of examples/heap_serialize/serial.c: the writer is the traversal engine with
 * callbacks that append bytes to the stream, the reader is the same traversal driven over zeroed
 * memory with callbacks that consume the stream and allocate.
 */
module Serializer {
  import opened Bytes
  import opened Traversal

  /** A C string without its terminating zero. */
  type Text = seq<Byte>

  const SER_SYMBOL: nat := 2

  /** The types shared by the writing and the reading program. */
  datatype Types = Types(env: TypeId -> Ty, charNT: TypeId)

  function StringPtr(ty: Types): Ty { Pointer(ty.charNT) }

  // ----- bytes

  function WordBytes(x: nat): seq<Byte> { EncodeLE(x, 8) }

  /** serial_char_str: the length with the terminator in four bytes, then the string and a zero. */
  function TextBytes(s: Text): seq<Byte> { EncodeLE(|s| + 1, 4) + (s + [0]) }

  /** The number in four bytes, the least significant first. */
  function Number(b: seq<Byte>): int
    requires |b| == 4
  {
    var b0: int, b1: int, b2: int, b3: int := b[0], b[1], b[2], b[3];
    b0 + 0x100 * b1 + 0x1_0000 * b2 + 0x100_0000 * b3
  }

  lemma FourBytes(n: nat, w: nat)
    requires w >= 4
    ensures var b := EncodeLE(n, w);
            n == Number(b[..4]) + 0x1_0000_0000 * (n / 0x1_0000_0000) && b[4..] == EncodeLE(n / 0x1_0000_0000, w - 4)
  {
    var n1, n2, n3, n4: nat := n / 256, n / 256 / 256, n / 256 / 256 / 256, n / 256 / 256 / 256 / 256;
    assert n4 == n / 0x1_0000_0000;
    assert EncodeLE(n, w) == [n % 256] + EncodeLE(n1, w - 1);
    assert EncodeLE(n1, w - 1) == [n1 % 256] + EncodeLE(n2, w - 2);
    assert EncodeLE(n2, w - 2) == [n2 % 256] + EncodeLE(n3, w - 3);
    assert EncodeLE(n3, w - 3) == [n3 % 256] + EncodeLE(n4, w - 4);
  }

  /** A token or a pointer takes eight bytes, the least significant first. */
  lemma WordLayout(x: nat)
    requires x < 0x1_0000_0000_0000_0000
    ensures var b := WordBytes(x); |b| == 8 && x == Number(b[..4]) + 0x1_0000_0000 * Number(b[4..])
  {
    FourBytes(x, 8);
    FourBytes(x / 0x1_0000_0000, 4);
    assert EncodeLE(x / 0x1_0000_0000, 4)[..4] == WordBytes(x)[4..];
  }

  /** A string takes its length and one in four bytes, its characters, and a zero. */
  lemma TextLayout(s: Text)
    requires |s| + 1 < 0x1_0000_0000
    ensures var b := TextBytes(s);
            |b| == |s| + 5 && Number(b[..4]) == |s| + 1 && b[4..4 + |s|] == s && b[4 + |s|] == 0
  {
    FourBytes(|s| + 1, 4);
    assert EncodeLE(|s| + 1, 4)[..4] == TextBytes(s)[..4];
  }

  // ----- the writer

  /** The program being serialized: its heap and its symbol table, by address. */
  datatype Writer = Writer(mem: Memory, types: Types, symbols: map<Addr, Text>)

  /** serial_ptr follows every non-null pointer that is neither a symbol nor a string. */
  function WriterSetup(w: Writer): Setup
  {
    Setup(w.mem, w.types.env, (x, ty) => x !in w.symbols && ty != StringPtr(w.types), x => x)
  }

  /** The bytes the callback of an event writes. */
  function Emit(w: Writer, ev: Event): seq<Byte>
  {
    match ev.kind
    case Scalar => if ev.loc in w.mem.prims then w.mem.prims[ev.loc] else []
    case First(x) =>
      if x == 0 then WordBytes(0)
      else if x in w.symbols then WordBytes(SER_SYMBOL) + TextBytes(w.symbols[x])
      else if ev.ty == StringPtr(w.types) then WordBytes(x) + TextBytes(if x in w.mem.strs then w.mem.strs[x] else [])
      else WordBytes(x)
    case Again(x) =>
      if x in w.symbols then WordBytes(SER_SYMBOL) + TextBytes(w.symbols[x]) else WordBytes(x)
    case _ => []
  }

  /** What the callbacks of a log wrote, for callbacks that write `emit(ev)` for `ev`. */
  ghost function Output(emit: Event -> seq<Byte>, log: seq<Event>): seq<Byte>
  {
    if log == [] then [] else Output(emit, log[..|log| - 1]) + emit(log[|log| - 1])
  }

  /** The stream written by the callbacks of a log. */
  ghost function Stream(w: Writer, log: seq<Event>): seq<Byte>
  {
    Output((ev: Event) => Emit(w, ev), log)
  }

  lemma WriterProper(w: Writer)
    ensures Proper(WriterSetup(w))
  {
  }

  ghost function Serialize(w: Writer, roots: seq<Root>): seq<Byte>
  {
    WriterProper(w);
    Stream(w, Traverse(WriterSetup(w), roots).log)
  }

  // ----- the reader

  /** The reading program: its symbol table, by name, and the addresses malloc will return. */
  datatype Target = Target(types: Types, byName: map<Text, Addr>, alloc: nat -> Addr)

  datatype Reader = Reader(input: seq<Byte>, mem: Memory, mapping: map<Addr, Addr>, queue: seq<Task>, allocs: nat)

  /** The reader is stuck when the stream ends early or the source would exit or fail an assertion. */
  datatype Outcome = Stuck | Ok(st: Reader)

  datatype Fetched = NoText | GotText(text: Text, rest: seq<Byte>)

  /** The part of a buffer before its first zero. */
  function CString(b: seq<Byte>): Text
  {
    if b == [] || b[0] == 0 then [] else [b[0]] + CString(b[1..])
  }

  /** deserial_char_str: a length in four bytes, then that many bytes. */
  function FetchText(input: seq<Byte>): (f: Fetched)
    ensures f.GotText? ==> |f.rest| < |input|
  {
    if |input| < 4 then NoText
    else
      var len := DecodeLE(input[..4]);
      if |input| < 4 + len then NoText else GotText(CString(input[4..4 + len]), input[4 + len..])
  }

  /** Write `a` through a pointer cell. */
  function Store(r: Reader, l: Loc, a: Addr): Reader
  {
    r.(mem := r.mem.(ptrs := r.mem.ptrs[l := a]))
  }

  /** After the callback, visit maps the new value of the cell to itself: in and out are the same cell. */
  function SelfMapped(r: Reader, l: Loc): Reader
  {
    r.(mapping := AddMapping(r.mapping, PtrAt(r.mem, l), PtrAt(r.mem, l)))
  }

  function LookupKey(t: Target, name: Text): Addr
  {
    if name in t.byName then t.byName[name] else 0
  }

  /** deserial_ptr on a symbol token: restore the pointer by name, or null for an unknown name. */
  function ReadSymbol(t: Target, r: Reader, l: Loc): Outcome
  {
    match FetchText(r.input)
    case NoText => Stuck
    case GotText(name, rest) => Ok(SelfMapped(Store(r.(input := rest), l, LookupKey(t, name)), l))
  }

  /** deserial_ptr on the first pointer to a string. */
  function ReadText(t: Target, r: Reader, l: Loc, present: Addr): Outcome
  {
    match FetchText(r.input)
    case NoText => Stuck
    case GotText(text, rest) =>
      var tgt := t.alloc(r.allocs);
      var r1 := Store(r, l, tgt);
      Ok(SelfMapped(r1.(input := rest, allocs := r.allocs + 1,
                        mem := r1.mem.(strs := r1.mem.strs[tgt := text]),
                        mapping := AddMapping(r.mapping, present, tgt)), l))
  }

  /** visit as the reader drives it: in and out are the same place. */
  function ReadVisit(t: Target, r: Reader, l: Loc, ty: Ty): (o: Outcome)
    ensures o.Ok? ==> |o.st.input| <= |r.input|
    decreases |r.input|, ty, 1
  {
    match ty
    case Unknown => Ok(r)
    case Prim(size) =>
      if |r.input| < size then Stuck
      else Ok(r.(input := r.input[size..], mem := r.mem.(prims := r.mem.prims[l := r.input[..size]])))
    case Array(len, base) => ReadArray(t, r, l, base, len)
    case Struct(_, fields) => Ok(r.(queue := r.queue + [Task(l, fields, l)]))
    case Pointer(_) => ReadPointer(t, r, l, ty)
    case FunPointer => ReadPointer(t, r, l, ty)
  }

  /** The pointer branch of visit with deserial_ptr as callback. */
  function ReadPointer(t: Target, r: Reader, l: Loc, ty: Ty): (o: Outcome)
    requires IsPtr(ty)
    ensures o.Ok? ==> |o.st.input| < |r.input|
    decreases |r.input|, ty, 0
  {
    if FindMapping(r.mapping, PtrAt(r.mem, l)) != 0 then Stuck      // deserial_ptr_mapped asserts
    else if |r.input| < 8 then Stuck
    else
      var present := DecodeLE(r.input[..8]);
      var r1 := r.(input := r.input[8..]);
      if present == SER_SYMBOL then ReadSymbol(t, r1, l)
      else if present == 0 then Ok(SelfMapped(Store(r1, l, 0), l))
      else if FindMapping(r.mapping, present) != 0 then
        Ok(SelfMapped(Store(r1, l, FindMapping(r.mapping, present)), l))
      else if ty == StringPtr(t.types) then ReadText(t, r1, l, present)
      else if ty.FunPointer? then Stuck                              // no target type: exit
      else
        match ReadVisit(t, Allocated(t, r1, l, present), Loc(t.alloc(r.allocs), 0), t.types.env(ty.target))
        case Stuck => Stuck
        case Ok(r2) => Ok(SelfMapped(r2, l))
  }

  /** malloc the target, map the old address to it and store it in the cell. */
  function Allocated(t: Target, r: Reader, l: Loc, present: Addr): Reader
  {
    var tgt := t.alloc(r.allocs);
    Store(r, l, tgt).(allocs := r.allocs + 1, mapping := AddMapping(r.mapping, present, tgt))
  }

  function ReadArray(t: Target, r: Reader, l: Loc, base: Ty, n: nat): (o: Outcome)
    ensures o.Ok? ==> |o.st.input| <= |r.input|
    decreases |r.input|, base, n + 1
  {
    if n == 0 then Ok(r)
    else
      match ReadVisit(t, r, l, base)
      case Stuck => Stuck
      case Ok(r1) => ReadArray(t, r1, Shift(l, Stride(base)), base, n - 1)
  }

  function ReadFields(t: Target, r: Reader, l: Loc, fields: seq<Field>): (o: Outcome)
    ensures o.Ok? ==> |o.st.input| <= |r.input|
    decreases |fields|
  {
    if fields == [] then Ok(r)
    else
      match ReadVisit(t, r, Shift(l, fields[0].offset), fields[0].ty)
      case Stuck => Stuck
      case Ok(r1) => ReadFields(t, r1, l, fields[1..])
  }

  // ----- the reader's queue loop terminates on every input

  lemma {:induction false} ReadVisitWeight(t: Target, r: Reader, l: Loc, ty: Ty, r': Reader)
    requires ReadVisit(t, r, l, ty) == Ok(r') && |r'.input| == |r.input|
    ensures Weight(r'.queue) == Weight(r.queue) + Structs(ty)
    decreases ty, 0
  {
    match ty
    case Array(n, base) => ReadArrayWeight(t, r, l, base, n, r');
    case Struct(_, fields) =>
      WeightAppend(r.queue, [Task(l, fields, l)]);
      assert Weight([Task(l, fields, l)]) == Structs(ty);
    case _ =>
  }

  lemma {:induction false} ReadArrayWeight(t: Target, r: Reader, l: Loc, base: Ty, n: nat, r': Reader)
    requires ReadArray(t, r, l, base, n) == Ok(r') && |r'.input| == |r.input|
    ensures Weight(r'.queue) == Weight(r.queue) + ArraySize(n, Structs(base))
    decreases base, n + 1
  {
    if n > 0 {
      var r1 := ReadVisit(t, r, l, base).st;
      ReadVisitWeight(t, r, l, base, r1);
      ReadArrayWeight(t, r1, Shift(l, Stride(base)), base, n - 1, r');
    }
  }

  lemma {:induction false} ReadFieldsWeight(t: Target, r: Reader, l: Loc, fields: seq<Field>, r': Reader)
    requires ReadFields(t, r, l, fields) == Ok(r') && |r'.input| == |r.input|
    ensures Weight(r'.queue) == Weight(r.queue) + FieldStructs(fields)
    decreases |fields|
  {
    if fields != [] {
      var r1 := ReadVisit(t, r, Shift(l, fields[0].offset), fields[0].ty).st;
      ReadVisitWeight(t, r, Shift(l, fields[0].offset), fields[0].ty, r1);
      ReadFieldsWeight(t, r1, l, fields[1..], r');
    }
  }

  function ReadTask(t: Target, r: Reader): (o: Outcome)
    requires r.queue != []
    ensures o.Ok? ==> |o.st.input| <= |r.input|
  {
    ReadFields(t, r.(queue := r.queue[1..]), r.queue[0].loc, r.queue[0].fields)
  }

  lemma ReadTaskProgress(t: Target, r: Reader, r': Reader)
    requires r.queue != [] && ReadTask(t, r) == Ok(r') && |r'.input| == |r.input|
    ensures Weight(r'.queue) < Weight(r.queue)
  {
    ReadFieldsWeight(t, r.(queue := r.queue[1..]), r.queue[0].loc, r.queue[0].fields, r');
  }

  function ReadDrain(t: Target, r: Reader): (o: Outcome)
    ensures o.Ok? ==> o.st.queue == []
    decreases |r.input|, Weight(r.queue)
  {
    if r.queue == [] then Ok(r)
    else
      match ReadTask(t, r)
      case Stuck => Stuck
      case Ok(r1) =>
        if |r1.input| == |r.input| then ReadTaskProgress(t, r, r1); ReadDrain(t, r1) else ReadDrain(t, r1)
  }

  function ReadRoots(t: Target, r: Reader, roots: seq<Root>): Outcome
    decreases |roots|
  {
    if roots == [] then Ok(r)
    else
      match ReadVisit(t, r, roots[0].loc, roots[0].ty)
      case Stuck => Stuck
      case Ok(r1) => ReadRoots(t, r1, roots[1..])
  }

  /** Start from zeroed roots and an empty mapping table, visit every root, then empty the queue. */
  function Deserialize(t: Target, input: seq<Byte>, roots: seq<Root>): Outcome
  {
    match ReadRoots(t, Reader(input, Memory(map[], map[], map[]), map[], [], 0), roots)
    case Stuck => Stuck
    case Ok(r) => ReadDrain(t, r)
  }
}
