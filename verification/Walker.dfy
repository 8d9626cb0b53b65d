/**
 * The serial traversal in the form transform.c and serial.c give it: objects that update a mapping
 * table, a work queue and a byte stream in place. Each method is proved to do what the functions
 * of Traversal and Serializer say.
 */
module Walker {
  import opened Bytes
  import opened Traversal
  import opened Serializer
  import opened RoundTrip
  import opened Walk

  class Heapwalk {
    const c: Setup
    const emit: Event -> seq<Byte>
    var mapping: map<Addr, Addr>
    var written: map<Loc, Addr>
    var queue: seq<Task>
    var ser: seq<Byte>
    ghost var log: seq<Event>

    ghost function Value(): Engine
      reads this
    {
      Engine(mapping, written, queue, log)
    }

    ghost predicate Valid()
      reads this
    {
      Proper(c) && Sane(c, Value()) && ser == Output(emit, log)
    }

    constructor (c: Setup, emit: Event -> seq<Byte>)
      requires Proper(c)
      ensures Valid() && Value() == Idle && this.c == c && this.emit == emit
    {
      this.c, this.emit := c, emit;
      mapping, written, queue, ser, log := map[], map[], [], [], [];
    }

    /** Any callback: its bytes go to the stream. */
    method Callback(l: Loc, ty: Ty, k: Kind)
      modifies this`ser, this`log
      ensures log == old(log) + [Event(l, ty, k)]
      ensures old(ser) == Output(emit, old(log)) ==> ser == Output(emit, log)
    {
      ser := ser + emit(Event(l, ty, k));
      log := log + [Event(l, ty, k)];
      assert log[..|log| - 1] == old(log);
    }

    /** A callback that is not the first visit of a pointer. */
    method Note(l: Loc, ty: Ty, k: Kind)
      requires Valid() && !k.First? && EventFits(c, Event(l, ty, k))
      modifies this`ser, this`log
      ensures Valid() && Value() == Logged(old(Value()), l, ty, k)
    {
      LoggedSane(c, Value(), l, ty, k);
      Callback(l, ty, k);
    }

    method AddMapping(a: Addr, b: Addr)
      modifies this`mapping
      ensures mapping == Traversal.AddMapping(old(mapping), a, b)
    {
      if a != 0 && FindMapping(mapping, a) == 0 {
        mapping := mapping[a := b];
      }
    }

    method Visit(l: Loc, ty: Ty, out: Loc)
      requires Valid()
      modifies this
      ensures Valid() && Value() == Traversal.Visit(c, old(Value()), l, ty, out)
      decreases Unmapped(c, Value()), ty, 1
    {
      match ty {
        case Unknown => Note(l, ty, Skipped);
        case Prim(_) => Note(l, ty, Scalar);
        case Array(len, base) =>
          Note(l, ty, Elements);
          VisitArray(l, base, len, out);
        case Struct(_, fields) =>
          Note(l, ty, Whole);
          queue := queue + [Task(l, fields, out)];
        case Pointer(_) => VisitPointer(l, ty, out);
        case FunPointer => VisitPointer(l, ty, out);
      }
    }

    method VisitPointer(l: Loc, ty: Ty, out: Loc)
      requires Valid() && IsPtr(ty)
      modifies this
      ensures Valid() && Value() == Traversal.VisitPointer(c, old(Value()), l, ty, out)
      decreases Unmapped(c, Value()), ty, 0
    {
      var x := PtrAt(c.mem, l);
      var found := FindMapping(mapping, x);
      if found != 0 {
        LoggedSane(c, Value(), l, ty, Again(x));
        Callback(l, ty, Again(x));
        written := written[out := found];
      } else {
        FirstVisitSane(c, Value(), l, ty, out, x);
        Callback(l, ty, First(x));
        written := written[out := c.image(x)];
        AddMapping(x, c.image(x));
        assert Value() == FirstVisit(c, old(Value()), l, ty, out, x);
        if Follows(c, ty, x) {
          assert x in old(Unmapped(c, Value())) && x !in Unmapped(c, Value());
          Visit(Loc(x, 0), c.env(ty.target), Loc(c.image(x), 0));
        }
      }
    }

    /** One of `n` elements still to visit. */
    method VisitElement(l: Loc, base: Ty, out: Loc, ghost n: nat, ghost r: Engine)
      requires Valid() && n > 0 && Elementwise(c, Value(), l, base, n, out, r) == true
      modifies this
      ensures Valid() && Unmapped(c, Value()) <= old(Unmapped(c, Value()))
      ensures Elementwise(c, Value(), Shift(l, Stride(base)), base, n - 1, Shift(out, Stride(base)), r) == true
      decreases Unmapped(c, Value()), base, 2
    {
      ghost var e := Value();
      Visit(l, base, out);
      ElementwiseNext(c, e, l, base, n, out, Value(), Shift(l, Stride(base)), n - 1, Shift(out, Stride(base)), r);
    }

    method VisitArray(l: Loc, base: Ty, n: nat, out: Loc)
      requires Valid()
      modifies this
      ensures Valid() && Value() == Traversal.VisitArray(c, old(Value()), l, base, n, out)
      decreases Unmapped(c, Value()), base, 3
    {
      var from, to := l, out;
      ghost var r := Traversal.VisitArray(c, Value(), l, base, n, out);
      assert Elementwise(c, Value(), l, base, n, out, r);
      for i := 0 to n
        invariant Valid() && Unmapped(c, Value()) <= old(Unmapped(c, Value()))
        invariant Elementwise(c, Value(), from, base, n - i, to, r) == true
      {
        VisitElement(from, base, to, n - i, r);
        from, to := Shift(from, Stride(base)), Shift(to, Stride(base));
      }
      ElementwiseEnd(c, Value(), from, base, to, r);
    }

    /** The generated traversal function of a struct. */
    method VisitFields(l: Loc, fields: seq<Field>, out: Loc)
      requires Valid()
      modifies this
      ensures Valid() && Value() == Traversal.VisitFields(c, old(Value()), l, fields, out)
    {
      for i := 0 to |fields|
        invariant Valid()
        invariant Traversal.VisitFields(c, Value(), l, fields[i..], out) == Traversal.VisitFields(c, old(Value()), l,
            fields, out)
      {
        assert fields[i..][1..] == fields[i + 1..];
        Visit(Shift(l, fields[i].offset), fields[i].ty, Shift(out, fields[i].offset));
      }
    }

    /** processqueue. */
    method ProcessQueue()
      requires Valid()
      modifies this
      ensures Valid() && Value() == Drain(c, old(Value()))
    {
      while queue != []
        invariant Valid() && Drain(c, Value()) == Drain(c, old(Value()))
        decreases Unmapped(c, Value()), Weight(queue)
      {
        RunTaskProgress(c, Value());
        var t := queue[0];
        queue := queue[1..];
        VisitFields(t.loc, t.fields, t.out);
      }
    }

    method VisitAll(roots: seq<Root>)
      requires Valid()
      modifies this
      ensures Valid() && Value() == VisitRoots(c, old(Value()), roots)
    {
      for i := 0 to |roots|
        invariant Valid()
        invariant VisitRoots(c, Value(), roots[i..]) == VisitRoots(c, old(Value()), roots)
      {
        assert roots[i..][1..] == roots[i + 1..];
        Visit(roots[i].loc, roots[i].ty, roots[i].out);
      }
    }
  }

  lemma {:induction false} OutputIsStream(w: Writer, log: seq<Event>)
    ensures Output(ev => Emit(w, ev), log) == Stream(w, log)
  {
    if log != [] {
      OutputIsStream(w, log[..|log| - 1]);
    }
  }

  /** Serialize the heap: the traversal with the serializing callbacks. */
  method SerializeHeap(w: Writer, roots: seq<Root>) returns (ser: seq<Byte>)
    ensures ser == Serialize(w, roots)
  {
    WriterProper(w);
    var walk := new Heapwalk(WriterSetup(w), ev => Emit(w, ev));
    walk.VisitAll(roots);
    walk.ProcessQueue();
    ser := walk.ser;
    OutputIsStream(w, walk.log);
  }

  // ----- the reading program

  class Loader {
    const t: Target
    var input: seq<Byte>
    var mem: Memory
    var mapping: map<Addr, Addr>
    var queue: seq<Task>
    var allocs: nat

    ghost function Value(): Reader
      reads this
    {
      Reader(input, mem, mapping, queue, allocs)
    }

    constructor (t: Target, stream: seq<Byte>)
      ensures this.t == t && Value() == Reader(stream, Memory(map[], map[], map[]), map[], [], 0)
    {
      this.t, input := t, stream;
      mem, mapping, queue, allocs := Memory(map[], map[], map[]), map[], [], 0;
    }

    ghost predicate Becomes(ok: bool, o: Outcome)
      reads this
    {
      if ok then o == Ok(Value()) else o == Stuck
    }

    method AddMapping(a: Addr, b: Addr)
      modifies this`mapping
      ensures mapping == Traversal.AddMapping(old(mapping), a, b)
    {
      if a != 0 && FindMapping(mapping, a) == 0 {
        mapping := mapping[a := b];
      }
    }

    method Store(l: Loc, a: Addr)
      modifies this`mem
      ensures Value() == Serializer.Store(old(Value()), l, a)
    {
      mem := mem.(ptrs := mem.ptrs[l := a]);
    }

    /** malloc. */
    method Allocate() returns (tgt: Addr)
      modifies this`allocs
      ensures tgt == t.alloc(old(allocs)) && allocs == old(allocs) + 1
    {
      tgt := t.alloc(allocs);
      allocs := allocs + 1;
    }

    /** deserial_char_str, without the allocation. */
    method ReadString() returns (ok: bool, text: Text)
      modifies this`input
      ensures ok <==> FetchText(old(input)).GotText?
      ensures ok ==> FetchText(old(input)) == GotText(text, input)
    {
      ok, text := false, [];
      if |input| >= 4 {
        var len := DecodeLE(input[..4]);
        if |input| >= 4 + len {
          ok, text, input := true, CString(input[4..4 + len]), input[4 + len..];
        }
      }
    }

    method Visit(l: Loc, ty: Ty) returns (ok: bool)
      modifies this
      ensures Becomes(ok, ReadVisit(t, old(Value()), l, ty))
      decreases |input|, ty, 2
    {
      ok := true;
      match ty {
        case Unknown =>
        case Prim(size) =>
          if |input| < size {
            ok := false;
          } else {
            mem := mem.(prims := mem.prims[l := input[..size]]);
            input := input[size..];
          }
        case Array(len, base) => ok := VisitArray(l, base, len);
        case Struct(_, fields) => queue := queue + [Task(l, fields, l)];
        case Pointer(_) => ok := VisitPointer(l, ty);
        case FunPointer => ok := VisitPointer(l, ty);
      }
    }

    /** The pointer branch of visit: after the callback the cell is mapped to itself. */
    method VisitPointer(l: Loc, ty: Ty) returns (ok: bool)
      requires IsPtr(ty)
      modifies this
      ensures Becomes(ok, ReadPointer(t, old(Value()), l, ty))
      decreases |input|, ty, 1
    {
      if FindMapping(mapping, PtrAt(mem, l)) != 0 || |input| < 8 {
        return false;
      }
      var present := DecodeLE(input[..8]);
      input := input[8..];
      ok := ReadCell(l, ty, present, old(Value()));
      if ok {
        AddMapping(PtrAt(mem, l), PtrAt(mem, l));
      }
    }

    /** deserial_ptr after it has read the word. */
    method ReadCell(l: Loc, ty: Ty, present: Addr, ghost r: Reader) returns (ok: bool)
      requires IsPtr(ty) && FindMapping(r.mapping, PtrAt(r.mem, l)) == 0 && |r.input| >= 8
      requires present == DecodeLE(r.input[..8]) && Value() == r.(input := r.input[8..])
      modifies this
      ensures if ok then ReadPointer(t, r, l, ty) == Ok(SelfMapped(Value(), l)) else ReadPointer(t, r, l, ty) == Stuck
      decreases |r.input|, ty, 0
    {
      ok := true;
      if present == SER_SYMBOL {
        var name;
        ok, name := ReadString();
        if ok {
          Store(l, LookupKey(t, name));
        }
      } else if present == 0 {
        Store(l, 0);
      } else if FindMapping(mapping, present) != 0 {
        Store(l, FindMapping(mapping, present));
      } else if ty == StringPtr(t.types) {
        ok := ReadNewString(l, present);
      } else if ty.FunPointer? {
        ok := false;
      } else {
        var tgt := Allocate();
        AddMapping(present, tgt);
        Store(l, tgt);
        assert Value() == Allocated(t, r.(input := r.input[8..]), l, present);
        ok := Visit(Loc(tgt, 0), t.types.env(ty.target));
      }
    }

    method ReadNewString(l: Loc, present: Addr) returns (ok: bool)
      modifies this
      ensures if ok then ReadText(t, old(Value()), l, present) == Ok(SelfMapped(Value(), l))
              else ReadText(t, old(Value()), l, present) == Stuck
    {
      var text;
      ok, text := ReadString();
      if ok {
        var tgt := Allocate();
        mem := mem.(strs := mem.strs[tgt := text]);
        Store(l, tgt);
        AddMapping(present, tgt);
      }
    }

    method VisitArray(l: Loc, base: Ty, n: nat) returns (ok: bool)
      modifies this
      ensures Becomes(ok, ReadArray(t, old(Value()), l, base, n))
      decreases |input|, base, 3
    {
      var cell := l;
      for i := 0 to n
        invariant |input| <= |old(input)|
        invariant ReadArray(t, Value(), cell, base, n - i) == ReadArray(t, old(Value()), l, base, n)
      {
        ok := Visit(cell, base);
        if !ok {
          return;
        }
        cell := Shift(cell, Stride(base));
      }
      ok := true;
    }

    method VisitFields(l: Loc, fields: seq<Field>) returns (ok: bool)
      modifies this
      ensures Becomes(ok, ReadFields(t, old(Value()), l, fields))
    {
      for i := 0 to |fields|
        invariant ReadFields(t, Value(), l, fields[i..]) == ReadFields(t, old(Value()), l, fields)
      {
        assert fields[i..][1..] == fields[i + 1..];
        ok := Visit(Shift(l, fields[i].offset), fields[i].ty);
        if !ok {
          return;
        }
      }
      ok := true;
    }

    method ProcessQueue() returns (ok: bool)
      modifies this
      ensures Becomes(ok, ReadDrain(t, old(Value())))
    {
      while queue != []
        invariant ReadDrain(t, Value()) == ReadDrain(t, old(Value()))
        decreases |input|, Weight(queue)
      {
        ghost var r := Value();
        var task := queue[0];
        queue := queue[1..];
        ok := VisitFields(task.loc, task.fields);
        if !ok {
          return;
        }
        if |input| == |r.input| {
          ReadTaskProgress(t, r, Value());
        }
        ReadDrainStep(t, r, Value());
      }
      ok := true;
    }

    method VisitAll(roots: seq<Root>) returns (ok: bool)
      modifies this
      ensures Becomes(ok, ReadRoots(t, old(Value()), roots))
    {
      for i := 0 to |roots|
        invariant ReadRoots(t, Value(), roots[i..]) == ReadRoots(t, old(Value()), roots)
      {
        assert roots[i..][1..] == roots[i + 1..];
        ok := Visit(roots[i].loc, roots[i].ty);
        if !ok {
          return;
        }
      }
      ok := true;
    }
  }

  /** Read a stream back; nothing when it ends early or does not fit the types. */
  method DeserializeHeap(t: Target, stream: seq<Byte>, roots: seq<Root>) returns (o: Outcome)
    ensures o == Deserialize(t, stream, roots)
  {
    var loader := new Loader(t, stream);
    var ok := loader.VisitAll(roots);
    if ok {
      ok := loader.ProcessQueue();
    }
    if !ok {
      return Stuck;
    }
    return Ok(Reader(loader.input, loader.mem, loader.mapping, loader.queue, loader.allocs));
  }

  /** Writing a heap and reading the stream back rebuilds it. */
  method SaveAndLoad(w: Writer, t: Target, roots: seq<Root>, start: Renaming)
    returns (o: Outcome, ghost ren: Renaming)
    requires GoodWorld(World(w, t, roots, start, WriterSetup(w)))
    requires GoodRoots(World(w, t, roots, start, WriterSetup(w)))
    ensures o.Ok? && o.st.input == [] && Isomorphic(World(w, t, roots, start, WriterSetup(w)), ren, o.st.mem)
  {
    var ser := SerializeHeap(w, roots);
    o := DeserializeHeap(t, ser, MoveRoots(roots, start));
    ghost var r;
    r, ren := DeserializeRebuilds(w, t, roots, start);
  }
}
