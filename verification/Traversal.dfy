/**
 * The serial traversal engine of transform.c: `visit`, the work queue loop and the mapping table,
 * over a typed heap that may be shared and cyclic.
 *
 * A memory cell is named by the base address of its object and an offset; the value of a pointer
 * cell is the base address of an object, or 0. By-value nesting of types is structural, pointers
 * name their target type through an environment.
 */
module Traversal {
  import opened Bytes

  type Addr = nat
  type TypeId = nat

  datatype Field = Field(offset: nat, ty: Ty)

  datatype Ty =
    | Unknown                                    // type -1, never traversed
    | Prim(size: nat)
    | Pointer(target: TypeId)
    | FunPointer
    | Array(len: nat, base: Ty)
    | Struct(size: nat, fields: seq<Field>)

  datatype Loc = Loc(base: Addr, off: nat)

  function Shift(l: Loc, n: nat): Loc { Loc(l.base, l.off + n) }

  const WORD: nat := 8

  function ArraySize(n: nat, elem: nat): nat
  {
    if n == 0 then 0 else elem + ArraySize(n - 1, elem)
  }

  function Size(ty: Ty): nat
  {
    match ty
    case Unknown => 0
    case Prim(size) => size
    case Pointer(_) => WORD
    case FunPointer => WORD
    case Array(len, base) => ArraySize(len, Size(base))
    case Struct(size, _) => size
  }

  /**
   * The distance between array elements. The type table gives an array of arrays the element size
   * of the inner array, so the distance is right only when the elements are not arrays.
   */
  function Stride(base: Ty): nat
  {
    if base.Array? then Stride(base.base) else Size(base)
  }

  datatype Memory = Memory(ptrs: map<Loc, Addr>, prims: map<Loc, seq<Byte>>, strs: map<Addr, seq<Byte>>)

  /** The word at a pointer cell; memory never written holds zero. */
  function PtrAt(m: Memory, l: Loc): (x: Addr)
    ensures x != 0 ==> x in m.ptrs.Values
  {
    if l in m.ptrs then m.ptrs[l] else 0
  }

  /** What a traversal is run with: the heap, the types, and the pointer callback's two decisions. */
  datatype Setup = Setup(
    mem: Memory,
    env: TypeId -> Ty,
    follow: (Addr, Ty) -> bool,      // the callback's result for a non-null pointer
    image: Addr -> Addr)             // the address the callback writes to *out

  /** The pointer callback sets *out to a non-null address for a non-null *in, and to null for null. */
  ghost predicate Proper(c: Setup)
  {
    forall x :: c.image(x) == 0 <==> x == 0
  }

  datatype Kind = Scalar | First(target: Addr) | Again(target: Addr) | Whole | Elements | Skipped

  /** One call of `visit` and the callback it made. */
  datatype Event = Event(loc: Loc, ty: Ty, kind: Kind)

  /** A queued struct. */
  datatype Task = Task(loc: Loc, fields: seq<Field>, out: Loc)

  datatype Engine = Engine(mapping: map<Addr, Addr>, written: map<Loc, Addr>, queue: seq<Task>, log: seq<Event>)

  ghost predicate Grows(e: Engine, r: Engine)
  {
    && e.mapping.Keys <= r.mapping.Keys
    && (forall k :: k in e.mapping ==> r.mapping[k] == e.mapping[k])
    && e.queue <= r.queue
    && e.log <= r.log
  }

  /** The pointer targets not mapped yet; finite because the heap is. */
  ghost function Unmapped(c: Setup, e: Engine): set<Addr>
  {
    c.mem.ptrs.Values - e.mapping.Keys
  }

  function Logged(e: Engine, l: Loc, ty: Ty, k: Kind): Engine
  {
    e.(log := e.log + [Event(l, ty, k)])
  }

  /** add_mapping: a null pointer is never mapped, a mapped one is not mapped again. */
  function AddMapping(m: map<Addr, Addr>, a: Addr, b: Addr): map<Addr, Addr>
  {
    if a == 0 || FindMapping(m, a) != 0 then m else m[a := b]
  }

  /** find_mapping: 0 when there is none. */
  function FindMapping(m: map<Addr, Addr>, a: Addr): Addr
  {
    if a != 0 && a in m then m[a] else 0
  }

  /** The state after the first-visit callback on a pointer cell holding `x`. */
  function FirstVisit(c: Setup, e: Engine, l: Loc, ty: Ty, out: Loc, x: Addr): Engine
  {
    Logged(e, l, ty, First(x)).(
      written := e.written[out := c.image(x)],
      mapping := AddMapping(e.mapping, x, c.image(x)))
  }

  /** How often the first-visit callback was made on a pointer to `x`. */
  ghost function FirstCalls(log: seq<Event>, x: Addr): nat
  {
    if log == [] then 0
    else FirstCalls(log[..|log| - 1], x) + (if log[|log| - 1].kind == First(x) then 1 else 0)
  }

  lemma FirstCallsAppend(log: seq<Event>, ev: Event, x: Addr)
    ensures FirstCalls(log + [ev], x) == FirstCalls(log, x) + (if ev.kind == First(x) then 1 else 0)
  {
    assert (log + [ev])[..|log|] == log;
  }

  lemma {:induction false} CalledAt(log: seq<Event>, x: Addr, i: nat)
    requires i < |log| && log[i].kind == First(x)
    ensures FirstCalls(log, x) >= 1
  {
    if i < |log| - 1 {
      CalledAt(log[..|log| - 1], x, i);
    }
  }

  /** The first-visit callback was made once on each mapped target and never on another. */
  ghost predicate CalledOnce(log: seq<Event>, targets: set<Addr>)
  {
    forall x {:trigger FirstCalls(log, x)} :: x != 0 ==> FirstCalls(log, x) == if x in targets then 1 else 0
  }

  lemma CalledOnceKept(log: seq<Event>, targets: set<Addr>, ev: Event)
    requires CalledOnce(log, targets) && (ev.kind.First? ==> ev.kind.target == 0)
    ensures CalledOnce(log + [ev], targets)
  {
    forall x | x != 0
      ensures FirstCalls(log + [ev], x) == if x in targets then 1 else 0
    {
      FirstCallsAppend(log, ev, x);
    }
  }

  lemma CalledOnceMore(log: seq<Event>, targets: set<Addr>, ev: Event)
    requires CalledOnce(log, targets) && ev.kind.First? && ev.kind.target !in targets
    ensures CalledOnce(log + [ev], targets + {ev.kind.target})
  {
    forall x | x != 0
      ensures FirstCalls(log + [ev], x) == if x in targets + {ev.kind.target} then 1 else 0
    {
      FirstCallsAppend(log, ev, x);
    }
  }

  predicate IsPtr(ty: Ty) { ty.Pointer? || ty.FunPointer? }

  /** The callback of an event fits the type of the place and the pointer found there. */
  predicate EventFits(c: Setup, ev: Event)
  {
    match ev.kind
    case Scalar => ev.ty.Prim?
    case First(x) => IsPtr(ev.ty) && x == PtrAt(c.mem, ev.loc)
    case Again(x) => IsPtr(ev.ty) && x == PtrAt(c.mem, ev.loc) && x != 0
    case Whole => ev.ty.Struct?
    case Elements => ev.ty.Array?
    case Skipped => ev.ty.Unknown?
  }

  /** Mapped targets map to their image and had their first-visit callback exactly once. */
  ghost predicate Sane(c: Setup, e: Engine)
  {
    && (forall k :: k in e.mapping ==> k != 0 && e.mapping[k] == c.image(k))
    && CalledOnce(e.log, e.mapping.Keys)
    && (forall i {:trigger EventFits(c, e.log[i])} :: 0 <= i < |e.log| ==> EventFits(c, e.log[i]))
  }

  lemma LoggedSane(c: Setup, e: Engine, l: Loc, ty: Ty, k: Kind)
    requires Sane(c, e) && !k.First? && EventFits(c, Event(l, ty, k))
    ensures Sane(c, Logged(e, l, ty, k))
  {
    CalledOnceKept(e.log, e.mapping.Keys, Event(l, ty, k));
  }

  lemma FirstVisitSane(c: Setup, e: Engine, l: Loc, ty: Ty, out: Loc, x: Addr)
    requires Proper(c) && Sane(c, e) && FindMapping(e.mapping, x) == 0 && EventFits(c, Event(l, ty, First(x)))
    ensures Sane(c, FirstVisit(c, e, l, ty, out, x))
    ensures x != 0 ==> x !in e.mapping
  {
    if x == 0 {
      CalledOnceKept(e.log, e.mapping.Keys, Event(l, ty, First(x)));
    } else {
      CalledOnceMore(e.log, e.mapping.Keys, Event(l, ty, First(x)));
      assert AddMapping(e.mapping, x, c.image(x)).Keys == e.mapping.Keys + {x};
    }
  }

  function Follows(c: Setup, ty: Ty, x: Addr): bool
  {
    x != 0 && ty.Pointer? && c.follow(x, ty)
  }

  /** visit in serial mode. */
  function Visit(c: Setup, e: Engine, l: Loc, ty: Ty, out: Loc): (r: Engine)
    requires Proper(c) && Sane(c, e)
    ensures Grows(e, r) && Sane(c, r)
    decreases Unmapped(c, e), ty, 1
  {
    match ty
    case Unknown => LoggedSane(c, e, l, ty, Skipped); Logged(e, l, ty, Skipped)
    case Prim(_) => LoggedSane(c, e, l, ty, Scalar); Logged(e, l, ty, Scalar)
    case Array(len, base) =>
      LoggedSane(c, e, l, ty, Elements);
      VisitArray(c, Logged(e, l, ty, Elements), l, base, len, out)
    case Struct(_, fields) =>
      LoggedSane(c, e, l, ty, Whole);
      Logged(e, l, ty, Whole).(queue := e.queue + [Task(l, fields, out)])
    case Pointer(_) => VisitPointer(c, e, l, ty, out)
    case FunPointer => VisitPointer(c, e, l, ty, out)
  }

  /** The pointer branch of visit: an already mapped target is not followed again. */
  function VisitPointer(c: Setup, e: Engine, l: Loc, ty: Ty, out: Loc): (r: Engine)
    requires Proper(c) && Sane(c, e) && IsPtr(ty)
    ensures Grows(e, r) && Sane(c, r)
    decreases Unmapped(c, e), ty, 0
  {
    var x := PtrAt(c.mem, l);
    if FindMapping(e.mapping, x) != 0 then
      LoggedSane(c, e, l, ty, Again(x));
      Logged(e, l, ty, Again(x)).(written := e.written[out := FindMapping(e.mapping, x)])
    else
      var e1 := FirstVisit(c, e, l, ty, out, x);
      FirstVisitSane(c, e, l, ty, out, x);
      assert x != 0 ==> x in Unmapped(c, e) && x !in Unmapped(c, e1);
      if Follows(c, ty, x) then Visit(c, e1, Loc(x, 0), c.env(ty.target), Loc(c.image(x), 0)) else e1
  }

  /** transform_array: visit `n` elements, each one element size after the previous. */
  function VisitArray(c: Setup, e: Engine, l: Loc, base: Ty, n: nat, out: Loc): (r: Engine)
    requires Proper(c) && Sane(c, e)
    ensures Grows(e, r) && Sane(c, r)
    decreases Unmapped(c, e), base, n + 1
  {
    if n == 0 then e
    else
      var e1 := Visit(c, e, l, base, out);
      VisitArray(c, e1, Shift(l, Stride(base)), base, n - 1, Shift(out, Stride(base)))
  }

  /** The generated traversal function of a struct: visit each field in order. */
  function VisitFields(c: Setup, e: Engine, l: Loc, fields: seq<Field>, out: Loc): (r: Engine)
    requires Proper(c) && Sane(c, e)
    ensures Grows(e, r) && Sane(c, r)
    decreases |fields|
  {
    if fields == [] then e
    else
      var f := fields[0];
      var e1 := Visit(c, e, Shift(l, f.offset), f.ty, Shift(out, f.offset));
      VisitFields(c, e1, l, fields[1..], out)
  }

  // ----- the queue loop

  /** How many queue entries a by-value occurrence of the type gives rise to. */
  function Structs(ty: Ty): nat
    decreases ty, 0
  {
    match ty
    case Array(len, base) => ArraySize(len, Structs(base))
    case Struct(_, fields) => 1 + FieldStructs(fields)
    case _ => 0
  }

  function FieldStructs(fields: seq<Field>): nat
    decreases fields, 0
  {
    if fields == [] then 0
    else
      var f := fields[0];
      assert f.ty < f;
      Structs(f.ty) + FieldStructs(fields[1..])
  }

  function Weight(queue: seq<Task>): nat
  {
    if queue == [] then 0 else 1 + FieldStructs(queue[0].fields) + Weight(queue[1..])
  }

  lemma {:induction false} WeightAppend(a: seq<Task>, b: seq<Task>)
    ensures Weight(a + b) == Weight(a) + Weight(b)
  {
    if a == [] {
      assert a + b == b;
    } else {
      assert (a + b)[1..] == a[1..] + b;
      WeightAppend(a[1..], b);
    }
  }

  /** A visit that maps nothing new adds exactly the structs nested in the visited type. */
  lemma {:induction false} VisitWeight(c: Setup, e: Engine, l: Loc, ty: Ty, out: Loc)
    requires Proper(c) && Sane(c, e)
    requires Unmapped(c, Visit(c, e, l, ty, out)) == Unmapped(c, e)
    ensures Weight(Visit(c, e, l, ty, out).queue) == Weight(e.queue) + Structs(ty)
    decreases ty, 0
  {
    match ty
    case Array(len, base) =>
      LoggedSane(c, e, l, ty, Elements);
      VisitArrayWeight(c, Logged(e, l, ty, Elements), l, base, len, out);
    case Struct(_, fields) =>
      WeightAppend(e.queue, [Task(l, fields, out)]);
      assert Weight([Task(l, fields, out)]) == Structs(ty);
    case Pointer(target) =>
      var x := PtrAt(c.mem, l);
      assert FindMapping(e.mapping, x) != 0 || x == 0;
    case _ =>
  }

  lemma {:induction false} VisitArrayWeight(c: Setup, e: Engine, l: Loc, base: Ty, n: nat, out: Loc)
    requires Proper(c) && Sane(c, e)
    requires Unmapped(c, VisitArray(c, e, l, base, n, out)) == Unmapped(c, e)
    ensures Weight(VisitArray(c, e, l, base, n, out).queue) == Weight(e.queue) + ArraySize(n, Structs(base))
    decreases base, n
  {
    if n > 0 {
      var e1 := Visit(c, e, l, base, out);
      var r := VisitArray(c, e1, Shift(l, Stride(base)), base, n - 1, Shift(out, Stride(base)));
      assert Grows(e, e1) && Grows(e1, r);
      VisitWeight(c, e, l, base, out);
      VisitArrayWeight(c, e1, Shift(l, Stride(base)), base, n - 1, Shift(out, Stride(base)));
    }
  }

  lemma {:induction false} VisitFieldsWeight(c: Setup, e: Engine, l: Loc, fields: seq<Field>, out: Loc)
    requires Proper(c) && Sane(c, e)
    requires Unmapped(c, VisitFields(c, e, l, fields, out)) == Unmapped(c, e)
    ensures Weight(VisitFields(c, e, l, fields, out).queue) == Weight(e.queue) + FieldStructs(fields)
    decreases |fields|
  {
    if fields != [] {
      var f := fields[0];
      var e1 := Visit(c, e, Shift(l, f.offset), f.ty, Shift(out, f.offset));
      assert Grows(e, e1) && Grows(e1, VisitFields(c, e1, l, fields[1..], out));
      VisitWeight(c, e, Shift(l, f.offset), f.ty, Shift(out, f.offset));
      VisitFieldsWeight(c, e1, l, fields[1..], out);
    }
  }

  /** callxformer on the oldest task. */
  function RunTask(c: Setup, e: Engine): (r: Engine)
    requires Proper(c) && Sane(c, e) && e.queue != []
    ensures Grows(e.(queue := e.queue[1..]), r) && Sane(c, r)
  {
    var t := e.queue[0];
    VisitFields(c, e.(queue := e.queue[1..]), t.loc, t.fields, t.out)
  }

  /** Running a task maps a new target or leaves less to do. */
  lemma RunTaskProgress(c: Setup, e: Engine)
    requires Proper(c) && Sane(c, e) && e.queue != []
    ensures var r := RunTask(c, e);
            Unmapped(c, r) <= Unmapped(c, e) && (Unmapped(c, r) == Unmapped(c, e) ==> Weight(r.queue) < Weight(e.queue))
  {
    var t := e.queue[0];
    if Unmapped(c, RunTask(c, e)) == Unmapped(c, e) {
      VisitFieldsWeight(c, e.(queue := e.queue[1..]), t.loc, t.fields, t.out);
    }
  }

  /** processqueue in serial mode: run tasks until the queue is empty. */
  function Drain(c: Setup, e: Engine): (r: Engine)
    requires Proper(c) && Sane(c, e)
    ensures r.queue == [] && Sane(c, r) && e.mapping.Keys <= r.mapping.Keys && e.log <= r.log
    decreases Unmapped(c, e), Weight(e.queue)
  {
    if e.queue == [] then e
    else
      RunTaskProgress(c, e);
      Drain(c, RunTask(c, e))
  }

  /** A traversal root: a variable and its type, with the place its image is written to. */
  datatype Root = Root(loc: Loc, ty: Ty, out: Loc)

  /** visit_all: visit every root. */
  function VisitRoots(c: Setup, e: Engine, roots: seq<Root>): (r: Engine)
    requires Proper(c) && Sane(c, e)
    ensures Grows(e, r) && Sane(c, r)
    decreases |roots|
  {
    if roots == [] then e
    else VisitRoots(c, Visit(c, e, roots[0].loc, roots[0].ty, roots[0].out), roots[1..])
  }

  const Idle := Engine(map[], map[], [], [])

  /** init, visit_all, finish. */
  function Traverse(c: Setup, roots: seq<Root>): (r: Engine)
    requires Proper(c)
    ensures r.queue == [] && Sane(c, r)
  {
    Drain(c, VisitRoots(c, Idle, roots))
  }
}
