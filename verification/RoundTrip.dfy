/**
 * Deserializing what serialization wrote rebuilds an isomorphic heap.
 *
 * The reader is run in lockstep with the writer. `Sim` relates the two at every point: the reader's
 * remaining input is what the writer has still to write, the mapping tables and queues agree up to
 * a renaming of addresses, and everything already written has been rebuilt.
 */
module RoundTrip {
  import opened Bytes
  import opened Traversal
  import opened Walk
  import opened Layout
  import opened Reachability
  import opened PointerCells
  import opened Serializer

  type Renaming = map<Addr, Addr>

  /**
   * The writing program, the reading program, the roots, the addresses of the root variables in the
   * reading program, and the setup of the writing traversal.
   */
  datatype World = World(w: Writer, t: Target, roots: seq<Root>, start: Renaming, c: Setup)

  /** The setup has the writer's heap, types and callbacks. */
  ghost predicate Drives(w: Writer, c: Setup)
  {
    && c.mem == w.mem && c.env == w.types.env
    && (forall x :: c.image(x) == x)
    && (forall x, ty :: c.follow(x, ty) <==> x !in w.symbols && ty != StringPtr(w.types))
  }

  /** An address of a heap object, as opposed to null or a symbol. */
  predicate Plain(w: Writer, x: Addr) { x != 0 && x !in w.symbols }

  predicate Known(w: Writer, x: Addr) { Plain(w, x) && x in w.mem.ptrs.Values }

  /** A string that serial_char_str can write: no inner zero, length within an int. */
  predicate GoodText(s: Text) { 0 !in s && |s| + 1 < Pow256(4) }

  // ----- the assumptions

  /** The heap: words fit, the token is no address, cells and strings exist, function pointers are symbols. */
  ghost predicate GoodHeap(k: World)
  {
    && (forall x :: x in k.w.mem.ptrs.Values ==> x < Pow256(8))
    && !Known(k.w, SER_SYMBOL)
    && (forall it {:trigger GoodItem(k, it)} :: Reached(k.c, k.roots, it) ==> GoodItem(k, it))
  }

  /** The same, wherever the walk leads. */
  ghost predicate WalkedHeap(k: World)
  {
    && (forall x :: x in k.w.mem.ptrs.Values ==> x < Pow256(8))
    && !Known(k.w, SER_SYMBOL)
    && (forall it {:trigger GoodItem(k, it)} :: Walked(k.c, k.roots, it) ==> GoodItem(k, it))
  }

  ghost predicate GoodItem(k: World, it: Item)
  {
    var x := PtrAt(k.w.mem, it.loc);
    match it.ty
    case Prim(size) => it.loc in k.w.mem.prims && |k.w.mem.prims[it.loc]| == size
    case Pointer(_) =>
      && (it.ty == StringPtr(k.w.types) && Plain(k.w, x) ==> x in k.w.mem.strs && GoodText(k.w.mem.strs[x]))
      && (Plain(k.w, x) ==> x !in k.start)
    case FunPointer => !Plain(k.w, x)
    case _ => true
  }

  /** The symbol tables: every name is registered in the reader, at an address no heap object had. */
  ghost predicate GoodSymbols(k: World)
  {
    forall x :: x in k.w.symbols ==>
      GoodText(k.w.symbols[x]) && k.w.symbols[x] in k.t.byName && !Known(k.w, k.t.byName[k.w.symbols[x]])
  }

  /** malloc: non-null, distinct from one another, from the roots and from every address written. */
  ghost predicate GoodAlloc(k: World)
  {
    && (forall i, j :: i != j ==> k.t.alloc(i) != k.t.alloc(j))
    && (forall i :: k.t.alloc(i) != 0 && !Known(k.w, k.t.alloc(i)) && k.t.alloc(i) !in k.start.Values)
  }

  /** The root variables are laid out validly and separately, in both programs. */
  ghost predicate GoodRoots(k: World)
  {
    && (forall i :: 0 <= i < |k.roots| ==>
          k.roots[i].out == k.roots[i].loc && ValidTy(k.roots[i].ty) && k.roots[i].loc.base in k.start)
    && (forall i, j :: 0 <= i < j < |k.roots| ==> k.roots[i].loc.base != k.roots[j].loc.base)
  }

  ghost predicate Injective(ren: Renaming)
  {
    forall a, b {:trigger ren[a], ren[b]} :: a in ren && b in ren && ren[a] == ren[b] ==> a == b
  }

  /** Everything the round trip assumes of the two programs and the heap. */
  ghost predicate GoodWorld(k: World)
  {
    && k.t.types == k.w.types && Drives(k.w, k.c)
    && (forall t :: ValidTy(k.w.types.env(t)))
    && EnteredAlike(k.c, k.roots)
    && GoodHeap(k) && GoodSymbols(k) && GoodAlloc(k) && Injective(k.start)
  }

  /** The same, with a pointer type that stands for those of all pointers to an address. */
  ghost predicate WorldAs(k: World, typeAt: Addr -> Ty)
  {
    && k.t.types == k.w.types && Drives(k.w, k.c)
    && (forall t :: ValidTy(k.w.types.env(t)))
    && AimedAs(k.c, k.roots, typeAt)
    && WalkedHeap(k) && GoodSymbols(k) && GoodAlloc(k) && Injective(k.start)
  }

  // ----- bytes

  lemma ReadsWord(x: nat, rest: seq<Byte>)
    requires x < Pow256(8)
    ensures var input := WordBytes(x) + rest; DecodeLE(input[..8]) == x && input[8..] == rest
  {
    var input := WordBytes(x) + rest;
    assert input[..8] == WordBytes(x);
    DecodeEncode(x, 8);
  }

  lemma {:induction false} CStringOf(s: Text)
    requires 0 !in s
    ensures CString(s + [0]) == s
  {
    if s != [] {
      assert (s + [0])[1..] == s[1..] + [0];
      CStringOf(s[1..]);
    }
  }

  lemma ReadsText(s: Text, rest: seq<Byte>)
    requires GoodText(s)
    ensures FetchText(TextBytes(s) + rest) == GotText(s, rest)
  {
    var head, body := EncodeLE(|s| + 1, 4), s + [0];
    var input := TextBytes(s) + rest;
    assert input == head + body + rest;
    assert input[..4] == head;
    DecodeEncode(|s| + 1, 4);
    assert input[4..4 + (|s| + 1)] == body;
    assert input[4 + (|s| + 1)..] == rest;
    CStringOf(s);
  }

  lemma SmallWords()
    ensures 0 < Pow256(8) && SER_SYMBOL < Pow256(8)
  {
    assert Pow256(8) == 256 * Pow256(7);
  }

  lemma StreamAppend(w: Writer, log: seq<Event>, ev: Event)
    ensures Stream(w, log + [ev]) == Stream(w, log) + Emit(w, ev)
  {
    assert (log + [ev])[..|log|] == log;
  }

  lemma {:induction false} StreamGrows(w: Writer, log: seq<Event>, log': seq<Event>)
    requires log <= log'
    ensures Stream(w, log) <= Stream(w, log')
    decreases |log'|
  {
    if log != log' {
      assert log <= log'[..|log'| - 1];
      StreamGrows(w, log, log'[..|log'| - 1]);
    } else {
      assert log == log';
    }
  }

  /** The reader's input is what follows the bytes written so far in the whole stream. */
  ghost predicate InputAt(w: Writer, log: seq<Event>, final: seq<Event>, input: seq<Byte>)
  {
    log <= final && Stream(w, log) <= Stream(w, final) && input == Stream(w, final)[|Stream(w, log)|..]
  }

  lemma InputStep(w: Writer, log: seq<Event>, ev: Event, final: seq<Event>, input: seq<Byte>) returns (rest: seq<Byte>)
    requires InputAt(w, log, final, input) && log + [ev] <= final
    ensures input == Emit(w, ev) + rest && InputAt(w, log + [ev], final, rest)
  {
    StreamAppend(w, log, ev);
    StreamGrows(w, log + [ev], final);
    rest := Behind(Stream(w, final), Stream(w, log), Emit(w, ev));
  }

  /** What follows two pieces at the front. */
  lemma Behind(all: seq<Byte>, x: seq<Byte>, y: seq<Byte>) returns (rest: seq<Byte>)
    requires x + y <= all
    ensures x <= all && rest == all[|x + y|..] && all[|x|..] == y + rest
  {
    rest := all[|x| + |y|..];
    assert all[..|x| + |y|] == x + y;
  }

  // ----- the relation

  ghost predicate Extends(ren: Renaming, ren': Renaming)
  {
    forall a :: a in ren ==> a in ren' && ren'[a] == ren[a]
  }

  function MoveLoc(ren: Renaming, l: Loc): Loc
    requires l.base in ren
  {
    Loc(ren[l.base], l.off)
  }

  /** What a pointer to `x` becomes. */
  function Trans(k: World, ren: Renaming, x: Addr): Addr
  {
    if x == 0 then 0
    else if x in k.w.symbols then LookupKey(k.t, k.w.symbols[x])
    else if x in ren then ren[x] else 0
  }

  /** The place of an event holds, in the reader, what it held in the writer. */
  ghost predicate Rebuilt(k: World, ren: Renaming, mem: Memory, ev: Event)
  {
    && ev.loc.base in ren
    && match ev.kind
       case Scalar =>
         && ev.loc in k.w.mem.prims && MoveLoc(ren, ev.loc) in mem.prims
         && mem.prims[MoveLoc(ren, ev.loc)] == k.w.mem.prims[ev.loc]
       case First(x) =>
         && PointsTo(k, ren, mem, ev.loc, x)
         && (Plain(k.w, x) && ev.ty == StringPtr(k.w.types) ==>
               x in ren && x in k.w.mem.strs && ren[x] in mem.strs && mem.strs[ren[x]] == k.w.mem.strs[x])
       case Again(x) => PointsTo(k, ren, mem, ev.loc, x)
       case _ => true
  }

  ghost predicate PointsTo(k: World, ren: Renaming, mem: Memory, l: Loc, x: Addr)
    requires l.base in ren
  {
    && (Plain(k.w, x) ==> x in ren)
    && MoveLoc(ren, l) in mem.ptrs && mem.ptrs[MoveLoc(ren, l)] == Trans(k, ren, x)
  }

  ghost predicate AllRebuilt(k: World, ren: Renaming, mem: Memory, log: seq<Event>)
  {
    forall i {:trigger Rebuilt(k, ren, mem, log[i])} :: 0 <= i < |log| ==> Rebuilt(k, ren, mem, log[i])
  }

  /** Cells are only added. */
  ghost predicate MemGrows(m: Memory, m': Memory)
  {
    && (forall l :: l in m.ptrs ==> l in m'.ptrs && m'.ptrs[l] == m.ptrs[l])
    && (forall l :: l in m.prims ==> l in m'.prims && m'.prims[l] == m.prims[l])
    && (forall a :: a in m.strs ==> a in m'.strs && m'.strs[a] == m.strs[a])
  }

  lemma RebuiltGrows(k: World, ren: Renaming, ren': Renaming, m: Memory, m': Memory, log: seq<Event>)
    requires AllRebuilt(k, ren, m, log) && Extends(ren, ren') && MemGrows(m, m')
    ensures AllRebuilt(k, ren', m', log)
  {
    forall i | 0 <= i < |log|
      ensures Rebuilt(k, ren', m', log[i])
    {
      assert Rebuilt(k, ren, m, log[i]);
    }
  }

  /** Everything in the reader's memory comes from an event. */
  ghost predicate FromLog(ren: Renaming, mem: Memory, log: seq<Event>)
  {
    && (forall l {:trigger Written(ren, log, l, true)} :: l in mem.ptrs ==> Written(ren, log, l, true))
    && (forall l {:trigger Written(ren, log, l, false)} :: l in mem.prims ==> Written(ren, log, l, false))
    && mem.strs.Keys <= ren.Values
  }

  ghost predicate Written(ren: Renaming, log: seq<Event>, l: Loc, ptr: bool)
  {
    exists i :: 0 <= i < |log| && Wrote(ren, log[i], l, ptr)
  }

  ghost predicate Wrote(ren: Renaming, ev: Event, l: Loc, ptr: bool)
  {
    ev.loc.base in ren && MoveLoc(ren, ev.loc) == l && (if ptr then IsPtr(ev.ty) else ev.kind.Scalar?)
  }

  /** The mapping tables agree on every heap address that can appear in the stream. */
  ghost predicate TablesAgree(k: World, m: map<Addr, Addr>, m': map<Addr, Addr>, ren: Renaming)
  {
    forall x {:trigger FindMapping(m', x)} :: Known(k.w, x) ==>
      if x in m then x in ren && ren[x] != 0 && FindMapping(m', x) == ren[x] else FindMapping(m', x) == 0
  }

  ghost predicate QueuesAgree(q: seq<Task>, q': seq<Task>, ren: Renaming)
  {
    |q| == |q'| && forall i {:trigger TaskAgrees(q[i], q'[i], ren)} :: 0 <= i < |q| ==> TaskAgrees(q[i], q'[i], ren)
  }

  ghost predicate TaskAgrees(t: Task, t': Task, ren: Renaming)
  {
    t.loc.base in ren && t.out == t.loc && t'.loc == MoveLoc(ren, t.loc) && t'.fields == t.fields
  }

  /** The renaming is injective, covers the roots, and uses only root bases and allocated addresses. */
  ghost predicate GoodRenaming(k: World, m: map<Addr, Addr>, ren: Renaming, allocs: nat)
  {
    && Injective(ren) && Extends(k.start, ren)
    && (forall a :: a in ren ==> a in k.start || (Known(k.w, a) && a in m))
    && (forall a {:trigger AllocatedBefore(k, ren[a], allocs)} :: a in ren ==>
          ren[a] in k.start.Values || AllocatedBefore(k, ren[a], allocs))
  }

  ghost predicate AllocatedBefore(k: World, a: Addr, n: nat)
  {
    exists j: nat :: j < n && k.t.alloc(j) == a
  }

  ghost predicate Sim(k: World, final: seq<Event>, e: Engine, r: Reader, ren: Renaming)
  {
    && k.c.mem == k.w.mem && Proper(k.c) && Sane(k.c, e) && Sound(k.c, k.roots, e)
    && InputAt(k.w, e.log, final, r.input)
    && TablesAgree(k, e.mapping, r.mapping, ren)
    && QueuesAgree(e.queue, r.queue, ren)
    && AllRebuilt(k, ren, r.mem, e.log)
    && FromLog(ren, r.mem, e.log)
    && GoodRenaming(k, e.mapping, ren, r.allocs)
  }

  // ----- steps without a pointer

  lemma QueuesExtend(q: seq<Task>, q': seq<Task>, ren: Renaming, ren': Renaming)
    requires QueuesAgree(q, q', ren) && Extends(ren, ren')
    ensures QueuesAgree(q, q', ren')
  {
    forall i | 0 <= i < |q|
      ensures TaskAgrees(q[i], q'[i], ren')
    {
      assert TaskAgrees(q[i], q'[i], ren);
    }
  }

  lemma WrittenGrows(ren: Renaming, ren': Renaming, log: seq<Event>, ev: Event, l: Loc, ptr: bool)
    requires Extends(ren, ren') && (Written(ren, log, l, ptr) || Wrote(ren', ev, l, ptr))
    ensures Written(ren', log + [ev], l, ptr)
  {
    var log' := log + [ev];
    if Wrote(ren', ev, l, ptr) {
      assert log'[|log|] == ev;
    } else {
      var i :| 0 <= i < |log| && Wrote(ren, log[i], l, ptr);
      assert log'[i] == log[i] && Wrote(ren', log'[i], l, ptr);
    }
  }

  /** New strings are at addresses the renaming uses. */
  ghost predicate TextsPlaced(m: Memory, m': Memory, ren: Renaming)
  {
    m'.strs.Keys <= m.strs.Keys + ren.Values
  }

  lemma FromLogAdd(ren: Renaming, ren': Renaming, m: Memory, m': Memory, log: seq<Event>, ev: Event)
    requires FromLog(ren, m, log) && Extends(ren, ren')
    requires forall l :: l in m'.ptrs ==> l in m.ptrs || Wrote(ren', ev, l, true)
    requires forall l :: l in m'.prims ==> l in m.prims || Wrote(ren', ev, l, false)
    requires TextsPlaced(m, m', ren')
    ensures FromLog(ren', m', log + [ev])
  {
    forall l | l in m'.ptrs
      ensures Written(ren', log + [ev], l, true)
    {
      assert l in m.ptrs ==> Written(ren, log, l, true);
      WrittenGrows(ren, ren', log, ev, l, true);
    }
    forall l | l in m'.prims
      ensures Written(ren', log + [ev], l, false)
    {
      assert l in m.prims ==> Written(ren, log, l, false);
      WrittenGrows(ren, ren', log, ev, l, false);
    }
    ValuesGrow(ren, ren');
  }

  lemma ValuesGrow(ren: Renaming, ren': Renaming)
    requires Extends(ren, ren')
    ensures ren.Values <= ren'.Values
  {
    forall a | a in ren.Values
      ensures a in ren'.Values
    {
      var b :| b in ren && ren[b] == a;
      assert ren'[b] == a;
    }
  }

  /** What any event does to the two states. */
  lemma EventStep(k: World, final: seq<Event>, e: Engine, r: Reader, ren: Renaming, ev: Event,
                  e1: Engine, r1: Reader, ren1: Renaming)
    requires Sim(k, final, e, r, ren) == true && Extends(ren, ren1) == true
    requires e1.log == e.log + [ev] && e1.queue == e.queue && r1.queue == r.queue
    requires Sane(k.c, e1) == true && Sound(k.c, k.roots, e1) == true && InputAt(k.w, e1.log, final, r1.input) == true
    requires MemGrows(r.mem, r1.mem) == true && FromLog(ren1, r1.mem, e1.log) == true
        && Rebuilt(k, ren1, r1.mem, ev) == true
    requires TablesAgree(k, e1.mapping, r1.mapping, ren1) == true
        && GoodRenaming(k, e1.mapping, ren1, r1.allocs) == true
    ensures Sim(k, final, e1, r1, ren1) == true
  {
    QueuesExtend(e.queue, r.queue, ren, ren1);
    RebuiltGrows(k, ren, ren1, r.mem, r1.mem, e.log);
    AllRebuiltAdd(k, ren1, r1.mem, e.log, ev);
  }

  lemma AllRebuiltAdd(k: World, ren: Renaming, m: Memory, log: seq<Event>, ev: Event)
    requires AllRebuilt(k, ren, m, log) && Rebuilt(k, ren, m, ev)
    ensures AllRebuilt(k, ren, m, log + [ev])
  {
  }

  /** An event that writes nothing. */
  lemma SilentStep(k: World, final: seq<Event>, e: Engine, r: Reader, ren: Renaming, l: Loc, ty: Ty, kind: Kind,
      e1: Engine)
    requires Sim(k, final, e, r, ren) == true && l.base in ren && (kind.Skipped? || kind.Elements? || kind.Whole?)
    requires EventFits(k.c, Event(l, ty, kind)) && Walked(k.c, k.roots, Item(l, ty))
    requires e1 == Logged(e, l, ty, kind) && e1.log <= final
    ensures Sim(k, final, e1, r, ren) == true
  {
    var ev := Event(l, ty, kind);
    LoggedSane(k.c, e, l, ty, kind);
    LoggedSound(k.c, k.roots, e, l, ty, kind);
    var rest := InputStep(k.w, e.log, ev, final, r.input);
    assert rest == r.input;
    FromLogAdd(ren, ren, r.mem, r.mem, e.log, ev);
    EventStep(k, final, e, r, ren, ev, e1, r, ren);
  }

  /** A struct is queued by writer and reader. */
  lemma QueueStep(k: World, final: seq<Event>, e: Engine, r: Reader, ren: Renaming, l: Loc, fields: seq<Field>)
    requires Sim(k, final, e, r, ren) == true && l.base in ren && FieldsWalked(k.c, k.roots, l, fields)
    ensures Sim(k, final, e.(queue := e.queue + [Task(l, fields, l)]),
                r.(queue := r.queue + [Task(MoveLoc(ren, l), fields, MoveLoc(ren, l))]), ren)
  {
    assert TaskWalked(k.c, k.roots, Task(l, fields, l));
  }

  /** A primitive is copied. */
  lemma ScalarStep(k: World, final: seq<Event>, e: Engine, r: Reader, ren: Renaming, l: Loc, ty: Ty, e1: Engine)
    returns (r1: Reader)
    requires WalkedHeap(k) && Sim(k, final, e, r, ren) == true && l.base in ren && ty.Prim?
    requires Walked(k.c, k.roots, Item(l, ty))
    requires e1 == Logged(e, l, ty, Scalar) && e1.log <= final
    ensures ReadVisit(k.t, r, MoveLoc(ren, l), ty) == Ok(r1) && Sim(k, final, e1, r1, ren) == true
  {
    var ev := Event(l, ty, Scalar);
    assert GoodItem(k, Item(l, ty));
    LoggedSane(k.c, e, l, ty, Scalar);
    LoggedSound(k.c, k.roots, e, l, ty, Scalar);
    var rest := InputStep(k.w, e.log, ev, final, r.input);
    var bytes, cell := k.w.mem.prims[l], MoveLoc(ren, l);
    assert r.input[..ty.size] == bytes && r.input[ty.size..] == rest;
    r1 := r.(input := rest, mem := r.mem.(prims := r.mem.prims[cell := bytes]));
    ScalarStored(k, ren, r.mem, e.log, ev, r1.mem);
    EventStep(k, final, e, r, ren, ev, e1, r1, ren);
  }

  lemma ScalarStored(k: World, ren: Renaming, m: Memory, log: seq<Event>, ev: Event, m': Memory)
    requires ev.kind.Scalar? && ev.loc.base in ren && ev.loc in k.w.mem.prims
    requires AllRebuilt(k, ren, m, log) && FromLog(ren, m, log)
    requires Injective(ren)
    requires m' == m.(prims := m.prims[MoveLoc(ren, ev.loc) := k.w.mem.prims[ev.loc]])
    ensures MemGrows(m, m') && FromLog(ren, m', log + [ev]) && Rebuilt(k, ren, m', ev)
  {
    var cell := MoveLoc(ren, ev.loc);
    if cell in m.prims {
      assert Written(ren, log, cell, false);
      var i :| 0 <= i < |log| && Wrote(ren, log[i], cell, false);
      assert log[i].loc == ev.loc && Rebuilt(k, ren, m, log[i]);
    }
    FromLogAdd(ren, ren, m, m', log, ev);
  }

  // ----- a pointer cell

  lemma {:induction false} SeenAtLeast(p: Loc, log: seq<Event>, i: nat)
    requires i < |log| && IsPtr(log[i].ty) && log[i].loc == p
    ensures SeenAt(p, log) >= 1
  {
    if i < |log| - 1 {
      SeenAtLeast(p, log[..|log| - 1], i);
    }
  }

  /** No pointer cell occurs twice in the log. */
  ghost predicate OncePerCell(final: seq<Event>)
  {
    forall p :: SeenAt(p, final) <= 1
  }

  /** A pointer cell about to be visited is still zero in the reader. */
  lemma CellIsZero(k: World, final: seq<Event>, e: Engine, r: Reader, ren: Renaming, l: Loc, ev: Event)
    requires Sim(k, final, e, r, ren) == true && OncePerCell(final) && l.base in ren
    requires IsPtr(ev.ty) && ev.loc == l && e.log + [ev] <= final
    ensures MoveLoc(ren, l) !in r.mem.ptrs
  {
    var cell := MoveLoc(ren, l);
    if cell in r.mem.ptrs {
      assert Written(ren, e.log, cell, true);
      var i :| 0 <= i < |e.log| && Wrote(ren, e.log[i], cell, true);
      assert e.log[i].loc == l;
      SeenAtLeast(l, e.log, i);
      LogAppend(k.c, l, e.log, ev);
      SeenGrows(l, e.log + [ev], final);
      assert false;
    }
  }

  /** A pointer event; the cases differ in the value stored and in what becomes of the tables. */
  lemma PointerStep(k: World, final: seq<Event>, e: Engine, r: Reader, ren: Renaming, ev: Event, a: Addr,
                    e1: Engine, r1: Reader, ren1: Renaming)
    requires Sim(k, final, e, r, ren) == true && ev.loc.base in ren && IsPtr(ev.ty) && Extends(ren, ren1) == true
    requires e1.log == e.log + [ev] && e1.queue == e.queue && r1.queue == r.queue
    requires Sane(k.c, e1) == true && Sound(k.c, k.roots, e1) == true && InputAt(k.w, e1.log, final, r1.input) == true
    requires MoveLoc(ren, ev.loc) !in r.mem.ptrs
    requires r1.mem.ptrs == r.mem.ptrs[MoveLoc(ren, ev.loc) := a] && r1.mem.prims == r.mem.prims
    requires MemGrows(r.mem, r1.mem) == true && TextsPlaced(r.mem, r1.mem, ren1) == true
    requires Rebuilt(k, ren1, r1.mem, ev) == true
    requires TablesAgree(k, e1.mapping, r1.mapping, ren1) == true
        && GoodRenaming(k, e1.mapping, ren1, r1.allocs) == true
    ensures Sim(k, final, e1, r1, ren1) == true
  {
    FromLogAdd(ren, ren1, r.mem, r1.mem, e.log, ev);
    EventStep(k, final, e, r, ren, ev, e1, r1, ren1);
  }

  /** Mapping a new-process address to itself disturbs no old address. */
  lemma SelfMapAgrees(k: World, m: map<Addr, Addr>, m': map<Addr, Addr>, ren: Renaming, a: Addr)
    requires TablesAgree(k, m, m', ren) && !Known(k.w, a)
    ensures TablesAgree(k, m, AddMapping(m', a, a), ren)
  {
    forall x | Known(k.w, x)
      ensures FindMapping(AddMapping(m', a, a), x) == FindMapping(m', x)
    {
    }
  }

  /** Store `a` in a zero cell and map it to itself. */
  function Stored(r: Reader, rest: seq<Byte>, cell: Loc, a: Addr): Reader
  {
    SelfMapped(Store(r.(input := rest), cell, a), cell)
  }

  lemma CellStored(m: Memory, cell: Loc, a: Addr)
    requires cell !in m.ptrs
    ensures MemGrows(m, m.(ptrs := m.ptrs[cell := a]))
  {
  }

  /** A pointer whose value needs no allocation: null, a symbol, or a target already rebuilt. */
  lemma KnownValueStep(k: World, final: seq<Event>, e: Engine, r: Reader, ren: Renaming, ev: Event, x: Addr,
      rest: seq<Byte>, e1: Engine)
    requires Sim(k, final, e, r, ren) == true && ev.loc.base in ren && IsPtr(ev.ty)
    requires ev.kind == Again(x) || (ev.kind == First(x) && !Plain(k.w, x))
    requires e1.log == e.log + [ev] && e1.queue == e.queue
    requires Sane(k.c, e1) == true && Sound(k.c, k.roots, e1) == true && InputAt(k.w, e1.log, final, rest) == true
    requires MoveLoc(ren, ev.loc) !in r.mem.ptrs
    requires (Plain(k.w, x) ==> x in ren) && !Known(k.w, Trans(k, ren, x))
    requires TablesAgree(k, e1.mapping, r.mapping, ren) == true && GoodRenaming(k, e1.mapping, ren, r.allocs) == true
    ensures Sim(k, final, e1, Stored(r, rest, MoveLoc(ren, ev.loc), Trans(k, ren, x)), ren) == true
  {
    var cell, a := MoveLoc(ren, ev.loc), Trans(k, ren, x);
    var r1 := Stored(r, rest, cell, a);
    CellStored(r.mem, cell, a);
    SelfMapAgrees(k, e1.mapping, r.mapping, ren, a);
    assert Rebuilt(k, ren, r1.mem, ev);
    PointerStep(k, final, e, r, ren, ev, a, e1, r1, ren);
  }

  /** The image of a heap address is an allocated address, so it is no address the stream mentions. */
  lemma ImageIsFresh(k: World, m: map<Addr, Addr>, ren: Renaming, allocs: nat, x: Addr)
    requires GoodRenaming(k, m, ren, allocs) && GoodAlloc(k)
    requires x in ren && x !in k.start
    ensures !Known(k.w, ren[x])
  {
    assert ren[x] in k.start.Values || AllocatedBefore(k, ren[x], allocs);
  }

  lemma NotMappedGrows(k: World, m: map<Addr, Addr>, ren: Renaming, allocs: nat, x: Addr, y: Addr)
    requires GoodRenaming(k, m, ren, allocs)
    ensures GoodRenaming(k, AddMapping(m, x, y), ren, allocs)
  {
    forall a | a in ren
      ensures a in k.start || (Known(k.w, a) && a in AddMapping(m, x, y))
    {
    }
  }

  // ----- what the reader does with each kind of word

  lemma ReadNull(t: Target, r: Reader, cell: Loc, ty: Ty, rest: seq<Byte>)
    requires IsPtr(ty) && cell !in r.mem.ptrs && r.input == WordBytes(0) + rest
    ensures ReadPointer(t, r, cell, ty) == Ok(Stored(r, rest, cell, 0))
  {
    SmallWords();
    ReadsWord(0, rest);
  }

  lemma ReadSymbolWord(t: Target, r: Reader, cell: Loc, ty: Ty, name: Text, rest: seq<Byte>)
    requires IsPtr(ty) && cell !in r.mem.ptrs && GoodText(name)
    requires r.input == WordBytes(SER_SYMBOL) + TextBytes(name) + rest
    ensures ReadPointer(t, r, cell, ty) == Ok(Stored(r, rest, cell, LookupKey(t, name)))
  {
    var more := TextBytes(name) + rest;
    ReadsText(name, rest);
    assert r.input == WordBytes(SER_SYMBOL) + more;
    ReadToken(t, r, cell, ty, name, more, rest);
  }

  lemma ReadToken(t: Target, r: Reader, cell: Loc, ty: Ty, name: Text, more: seq<Byte>, rest: seq<Byte>)
    requires IsPtr(ty) && cell !in r.mem.ptrs && r.input == WordBytes(SER_SYMBOL) + more
        && FetchText(more) == GotText(name, rest)
    ensures ReadPointer(t, r, cell, ty) == Ok(Stored(r, rest, cell, LookupKey(t, name)))
  {
    SmallWords();
    ReadsWord(SER_SYMBOL, more);
  }

  lemma ReadMapped(t: Target, r: Reader, cell: Loc, ty: Ty, x: Addr, rest: seq<Byte>)
    requires IsPtr(ty) && cell !in r.mem.ptrs && r.input == WordBytes(x) + rest
    requires x < Pow256(8) && x != 0 && x != SER_SYMBOL && FindMapping(r.mapping, x) != 0
    ensures ReadPointer(t, r, cell, ty) == Ok(Stored(r, rest, cell, FindMapping(r.mapping, x)))
  {
    ReadsWord(x, rest);
  }

  /** The reader's state after the first pointer to a string. */
  function TextStored(t: Target, r: Reader, rest: seq<Byte>, cell: Loc, x: Addr, text: Text): Reader
  {
    var tgt := t.alloc(r.allocs);
    var r1 := Store(r, cell, tgt);
    SelfMapped(r1.(input := rest, allocs := r.allocs + 1,
                   mem := r1.mem.(strs := r1.mem.strs[tgt := text]),
                   mapping := AddMapping(r.mapping, x, tgt)), cell)
  }

  lemma ReadNewText(t: Target, r: Reader, cell: Loc, ty: Ty, x: Addr, text: Text, rest: seq<Byte>)
    requires ty == StringPtr(t.types) && cell !in r.mem.ptrs && GoodText(text)
    requires r.input == WordBytes(x) + TextBytes(text) + rest
    requires x < Pow256(8) && x != 0 && x != SER_SYMBOL && FindMapping(r.mapping, x) == 0
    ensures ReadPointer(t, r, cell, ty) == Ok(TextStored(t, r, rest, cell, x, text))
  {
    assert r.input == WordBytes(x) + (TextBytes(text) + rest);
    ReadsWord(x, TextBytes(text) + rest);
    ReadsText(text, rest);
  }

  lemma ReadNewObject(t: Target, r: Reader, cell: Loc, ty: Ty, x: Addr, rest: seq<Byte>, r2: Reader)
    requires ty.Pointer? && ty != StringPtr(t.types) && cell !in r.mem.ptrs && r.input == WordBytes(x) + rest
    requires x < Pow256(8) && x != 0 && x != SER_SYMBOL && FindMapping(r.mapping, x) == 0
    requires |r.input| > |rest|
    requires ReadVisit(t, Allocated(t, r.(input := rest), cell, x), Loc(t.alloc(r.allocs), 0),
        t.types.env(ty.target)) == Ok(r2)
    ensures ReadPointer(t, r, cell, ty) == Ok(SelfMapped(r2, cell))
  {
    ReadsWord(x, rest);
  }

  // ----- the cases of a pointer

  /** A null pointer. */
  lemma NullStep(k: World, final: seq<Event>, e: Engine, r: Reader, ren: Renaming, l: Loc, ty: Ty, e1: Engine)
    returns (r1: Reader)
    requires Sim(k, final, e, r, ren) == true && OncePerCell(final) == true && l.base in ren && IsPtr(ty)
    requires Walked(k.c, k.roots, Item(l, ty)) == true && PtrAt(k.w.mem, l) == 0
    requires e1 == FirstVisit(k.c, e, l, ty, l, 0) && e1.log <= final
    ensures ReadPointer(k.t, r, MoveLoc(ren, l), ty) == Ok(r1) && Sim(k, final, e1, r1, ren) == true
  {
    var ev := Event(l, ty, First(0));
    FirstVisitSane(k.c, e, l, ty, l, 0);
    FirstVisitSound(k.c, k.roots, e, l, ty, l, 0);
    CellIsZero(k, final, e, r, ren, l, ev);
    var rest := InputStep(k.w, e.log, ev, final, r.input);
    ReadNull(k.t, r, MoveLoc(ren, l), ty, rest);
    r1 := Stored(r, rest, MoveLoc(ren, l), 0);
    KnownValueStep(k, final, e, r, ren, ev, 0, rest, e1);
  }

  /** A pointer to a symbol, new or seen before: restored by name. */
  lemma SymbolStep(k: World, final: seq<Event>, e: Engine, r: Reader, ren: Renaming, ev: Event, x: Addr, e1: Engine)
    returns (r1: Reader)
    requires Sim(k, final, e, r, ren) == true && OncePerCell(final) == true && ev.loc.base in ren && IsPtr(ev.ty)
    requires x != 0 && x in k.w.symbols && GoodText(k.w.symbols[x]) && !Known(k.w, LookupKey(k.t, k.w.symbols[x]))
    requires ev.kind == First(x) || ev.kind == Again(x)
    requires e1.log == e.log + [ev] && e1.queue == e.queue && e1.log <= final
    requires e1.mapping == e.mapping || e1.mapping == AddMapping(e.mapping, x, x)
    requires Sane(k.c, e1) == true && Sound(k.c, k.roots, e1) == true
    ensures ReadPointer(k.t, r, MoveLoc(ren, ev.loc), ev.ty) == Ok(r1) && Sim(k, final, e1, r1, ren) == true
  {
    CellIsZero(k, final, e, r, ren, ev.loc, ev);
    var rest := InputStep(k.w, e.log, ev, final, r.input);
    ReadSymbolWord(k.t, r, MoveLoc(ren, ev.loc), ev.ty, k.w.symbols[x], rest);
    r1 := Stored(r, rest, MoveLoc(ren, ev.loc), LookupKey(k.t, k.w.symbols[x]));
    NotMappedGrows(k, e.mapping, ren, r.allocs, x, x);
    SymbolMapAgrees(k, e.mapping, r.mapping, ren, x);
    KnownValueStep(k, final, e, r, ren, ev, x, rest, e1);
  }

  lemma SymbolMapAgrees(k: World, m: map<Addr, Addr>, m': map<Addr, Addr>, ren: Renaming, x: Addr)
    requires TablesAgree(k, m, m', ren) && x in k.w.symbols
    ensures TablesAgree(k, AddMapping(m, x, x), m', ren)
  {
    forall y | Known(k.w, y)
      ensures if y in AddMapping(m, x,
          x) then y in ren && ren[y] != 0 && FindMapping(m', y) == ren[y] else FindMapping(m', y) == 0
    {
      var found := FindMapping(m', y);
      assert y in m ==> y in ren && ren[y] != 0 && found == ren[y];
      assert y != x;
    }
  }

  /** A pointer to an object met before. */
  lemma AgainStep(k: World, final: seq<Event>, e: Engine, r: Reader, ren: Renaming, ev: Event, x: Addr, e1: Engine)
    returns (r1: Reader)
    requires Sim(k, final, e, r, ren) == true && OncePerCell(final) == true && ev.loc.base in ren && IsPtr(ev.ty)
    requires Known(k.w, x) && x in e.mapping && x < Pow256(8) && x != SER_SYMBOL && x !in k.start
    requires GoodAlloc(k) == true
    requires ev.kind == Again(x) && e1.log == e.log + [ev] && e1.queue == e.queue && e1.log <= final
    requires e1.mapping == e.mapping && Sane(k.c, e1) == true && Sound(k.c, k.roots, e1) == true
    ensures ReadPointer(k.t, r, MoveLoc(ren, ev.loc), ev.ty) == Ok(r1) && Sim(k, final, e1, r1, ren) == true
  {
    CellIsZero(k, final, e, r, ren, ev.loc, ev);
    var rest := InputStep(k.w, e.log, ev, final, r.input);
    assert x in ren && FindMapping(r.mapping, x) == ren[x] && ren[x] != 0;
    ReadMapped(k.t, r, MoveLoc(ren, ev.loc), ev.ty, x, rest);
    ImageIsFresh(k, e.mapping, ren, r.allocs, x);
    r1 := Stored(r, rest, MoveLoc(ren, ev.loc), ren[x]);
    KnownValueStep(k, final, e, r, ren, ev, x, rest, e1);
  }

  /** A new object gets a new address. */
  lemma FreshTarget(k: World, m: map<Addr, Addr>, m': map<Addr, Addr>, ren: Renaming, allocs: nat, x: Addr, y: Addr)
    requires GoodRenaming(k, m, ren, allocs) && GoodAlloc(k) && TablesAgree(k, m, m', ren)
    requires Known(k.w, x) && x !in m && x !in k.start && y != 0
    ensures var tgt := k.t.alloc(allocs);
            var ren1 := ren[x := tgt];
            && x !in ren && tgt !in ren.Values && Extends(ren, ren1)
            && GoodRenaming(k, AddMapping(m, x, y), ren1, allocs + 1)
            && TablesAgree(k, AddMapping(m, x, y), AddMapping(m', x, tgt), ren1)
  {
    var tgt := k.t.alloc(allocs);
    var ren1 := ren[x := tgt];
    assert x !in ren;
    forall a | a in ren
      ensures ren[a] != tgt
    {
      assert ren[a] in k.start.Values || AllocatedBefore(k, ren[a], allocs);
    }
    forall z | Known(k.w, z)
      ensures FindMapping(AddMapping(m', x, tgt), z) == if z == x then tgt else FindMapping(m', z)
    {
      assert FindMapping(m', x) == 0;
    }
    forall a | a in ren1
      ensures ren1[a] in k.start.Values || AllocatedBefore(k, ren1[a], allocs + 1)
    {
      if a == x {
        assert k.t.alloc(allocs) == ren1[a];
      } else if ren[a] !in k.start.Values {
        assert AllocatedBefore(k, ren[a], allocs);
        var j: nat :| j < allocs && k.t.alloc(j) == ren[a];
        assert k.t.alloc(j) == ren1[a];
      }
    }
  }

  /** What meeting a new heap object assumes. */
  ghost predicate NewObject(k: World, final: seq<Event>, e: Engine, r: Reader, ren: Renaming, ev: Event, x: Addr,
      e1: Engine)
  {
    && Sim(k, final, e, r, ren) && OncePerCell(final) && ev.loc.base in ren && GoodAlloc(k)
    && Known(k.w, x) && x !in e.mapping && x < Pow256(8) && x != SER_SYMBOL && x !in k.start
    && ev.kind == First(x) && ev.ty.Pointer? && e1.log == e.log + [ev] && e1.queue == e.queue && e1.log <= final
    && e1.mapping == AddMapping(e.mapping, x, x) && Sane(k.c, e1) && Sound(k.c, k.roots, e1)
  }

  /** What the reader finds there. */
  lemma AllocRead(k: World, final: seq<Event>, e: Engine, r: Reader, ren: Renaming, ev: Event, x: Addr, e1: Engine)
    returns (rest: seq<Byte>)
    requires NewObject(k, final, e, r, ren, ev, x, e1) == true && ev.ty != StringPtr(k.w.types)
    ensures ev.loc.base in ren && MoveLoc(ren, ev.loc) !in r.mem.ptrs
    ensures r.input == WordBytes(x) + rest && FindMapping(r.mapping, x) == 0
        && InputAt(k.w, e1.log, final, rest) == true
  {
    CellIsZero(k, final, e, r, ren, ev.loc, ev);
    rest := InputStep(k.w, e.log, ev, final, r.input);
  }

  lemma AllocRebuilt(k: World, ren: Renaming, mem: Memory, ev: Event, x: Addr, tgt: Addr)
    requires ev.loc.base in ren && ev.kind == First(x) && ev.ty != StringPtr(k.w.types) && Known(k.w, x)
    requires x in ren && ren[x] == tgt && MoveLoc(ren, ev.loc) in mem.ptrs && mem.ptrs[MoveLoc(ren, ev.loc)] == tgt
    ensures Rebuilt(k, ren, mem, ev) == true
  {
  }

  /** The first pointer to an object that is not a string: the object is allocated and entered. */
  lemma AllocStep(k: World, final: seq<Event>, e: Engine, r: Reader, ren: Renaming, ev: Event, x: Addr, e1: Engine)
    returns (rest: seq<Byte>)
    requires NewObject(k, final, e, r, ren, ev, x, e1) == true && ev.ty != StringPtr(k.w.types)
    ensures ev.loc.base in ren && MoveLoc(ren, ev.loc) !in r.mem.ptrs
    ensures r.input == WordBytes(x) + rest && FindMapping(r.mapping, x) == 0
    ensures Extends(ren, ren[x := k.t.alloc(r.allocs)]) == true
    ensures Sim(k, final, e1, Allocated(k.t, r.(input := rest), MoveLoc(ren, ev.loc), x),
        ren[x := k.t.alloc(r.allocs)]) == true
  {
    rest := AllocRead(k, final, e, r, ren, ev, x, e1);
    var tgt := k.t.alloc(r.allocs);
    FreshTarget(k, e.mapping, r.mapping, ren, r.allocs, x, x);
    var r1 := Allocated(k.t, r.(input := rest), MoveLoc(ren, ev.loc), x);
    assert InStep(k, final, e, r, ren);
    AllocSim(k, final, e, r, ren, ev, x, tgt, rest, e1, r1, ren[x := tgt]);
    assert Shown(0);
  }

  ghost predicate Shown(i: int) { true }

  /** `Sim`, in view only where `Shown` is mentioned. */
  ghost predicate InStep(k: World, final: seq<Event>, e: Engine, r: Reader, ren: Renaming)
  {
    (forall i {:trigger Shown(i)} :: Shown(i) ==> Sim(k, final, e, r, ren)) == true
  }

  lemma PointerInStep(k: World, final: seq<Event>, e: Engine, r: Reader, ren: Renaming, ev: Event, a: Addr,
                      e1: Engine, r1: Reader, ren1: Renaming)
    requires InStep(k, final, e, r, ren) && ev.loc.base in ren && IsPtr(ev.ty) && Extends(ren, ren1) == true
    requires e1.log == e.log + [ev] && e1.queue == e.queue && r1.queue == r.queue
    requires Sane(k.c, e1) == true && Sound(k.c, k.roots, e1) == true && InputAt(k.w, e1.log, final, r1.input) == true
    requires MoveLoc(ren, ev.loc) !in r.mem.ptrs
    requires r1.mem.ptrs == r.mem.ptrs[MoveLoc(ren, ev.loc) := a] && r1.mem.prims == r.mem.prims
    requires MemGrows(r.mem, r1.mem) == true && TextsPlaced(r.mem, r1.mem, ren1) == true
    requires Rebuilt(k, ren1, r1.mem, ev) == true
    requires TablesAgree(k, e1.mapping, r1.mapping, ren1) == true
        && GoodRenaming(k, e1.mapping, ren1, r1.allocs) == true
    ensures InStep(k, final, e1, r1, ren1)
  {
    assert Shown(0);
    PointerStep(k, final, e, r, ren, ev, a, e1, r1, ren1);
  }

  lemma AllocSim(k: World, final: seq<Event>, e: Engine, r: Reader, ren: Renaming, ev: Event, x: Addr, tgt: Addr,
      rest: seq<Byte>,
                 e1: Engine, r1: Reader, ren1: Renaming)
    requires InStep(k, final, e, r, ren) && ev.loc.base in ren && IsPtr(ev.ty) && Extends(ren, ren1) == true
    requires e1.log == e.log + [ev] && e1.queue == e.queue && InputAt(k.w, e1.log, final, rest) == true
    requires Sane(k.c, e1) == true && Sound(k.c, k.roots, e1) == true && MoveLoc(ren, ev.loc) !in r.mem.ptrs
    requires ev.kind == First(x) && ev.ty != StringPtr(k.w.types) && Known(k.w, x) && x !in ren && ren1 == ren[x := tgt]
    requires tgt == k.t.alloc(r.allocs) && r1 == Allocated(k.t, r.(input := rest), MoveLoc(ren, ev.loc), x)
    requires TablesAgree(k, e1.mapping, AddMapping(r.mapping, x, tgt), ren1) == true
    requires GoodRenaming(k, e1.mapping, ren1, r.allocs + 1) == true
    ensures InStep(k, final, e1, r1, ren1)
  {
    CellStored(r.mem, MoveLoc(ren, ev.loc), tgt);
    AllocRebuilt(k, ren1, r1.mem, ev, x, tgt);
    PointerInStep(k, final, e, r, ren, ev, tgt, e1, r1, ren1);
  }

  /** What the reader does on the first pointer to a string. */
  lemma TextRead(k: World, final: seq<Event>, e: Engine, r: Reader, ren: Renaming, ev: Event, x: Addr, e1: Engine)
    returns (rest: seq<Byte>)
    requires NewObject(k, final, e, r, ren, ev, x, e1) == true && ev.ty == StringPtr(k.w.types)
        && k.t.types == k.w.types
    requires x in k.w.mem.strs && GoodText(k.w.mem.strs[x])
    ensures ev.loc.base in ren && MoveLoc(ren, ev.loc) !in r.mem.ptrs && InputAt(k.w, e1.log, final, rest) == true
    ensures ReadPointer(k.t, r, MoveLoc(ren, ev.loc),
        ev.ty) == Ok(TextStored(k.t, r, rest, MoveLoc(ren, ev.loc), x, k.w.mem.strs[x]))
  {
    CellIsZero(k, final, e, r, ren, ev.loc, ev);
    rest := InputStep(k.w, e.log, ev, final, r.input);
    assert FindMapping(r.mapping, x) == 0;
    ReadNewText(k.t, r, MoveLoc(ren, ev.loc), ev.ty, x, k.w.mem.strs[x], rest);
  }

  /** The first pointer to a string: the string is allocated and filled at once. */
  lemma TextStep(k: World, final: seq<Event>, e: Engine, r: Reader, ren: Renaming, ev: Event, x: Addr, e1: Engine)
    returns (r1: Reader)
    requires NewObject(k, final, e, r, ren, ev, x, e1) == true && ev.ty == StringPtr(k.w.types)
        && k.t.types == k.w.types
    requires x in k.w.mem.strs && GoodText(k.w.mem.strs[x])
    ensures ev.loc.base in ren && ReadPointer(k.t, r, MoveLoc(ren, ev.loc), ev.ty) == Ok(r1)
    ensures Extends(ren, ren[x := k.t.alloc(r.allocs)]) == true
    ensures Sim(k, final, e1, r1, ren[x := k.t.alloc(r.allocs)]) == true
  {
    var rest := TextRead(k, final, e, r, ren, ev, x, e1);
    r1 := TextStored(k.t, r, rest, MoveLoc(ren, ev.loc), x, k.w.mem.strs[x]);
    TextSim(k, final, e, r, ren, ev, x, e1, rest, r1);
  }

  lemma TextSim(k: World, final: seq<Event>, e: Engine, r: Reader, ren: Renaming, ev: Event, x: Addr, e1: Engine,
      rest: seq<Byte>, r1: Reader)
    requires NewObject(k, final, e, r, ren, ev, x, e1) == true && ev.ty == StringPtr(k.w.types)
    requires x in k.w.mem.strs && ev.loc.base in ren && MoveLoc(ren, ev.loc) !in r.mem.ptrs
    requires InputAt(k.w, e1.log, final, rest) == true
    requires r1 == TextStored(k.t, r, rest, MoveLoc(ren, ev.loc), x, k.w.mem.strs[x])
    ensures Extends(ren, ren[x := k.t.alloc(r.allocs)]) == true
    ensures Sim(k, final, e1, r1, ren[x := k.t.alloc(r.allocs)]) == true
  {
    var tgt := k.t.alloc(r.allocs);
    TextTables(k, e.mapping, r.mapping, ren, r.allocs, x, tgt, e1.mapping, r1.mapping, r1.allocs);
    TextInMemory(k, ren, r.mem, e.log, ev, x, tgt, r1.mem);
    PointerStep(k, final, e, r, ren, ev, tgt, e1, r1, ren[x := tgt]);
  }

  lemma TextTables(k: World, m: map<Addr, Addr>, m': map<Addr, Addr>, ren: Renaming, allocs: nat, x: Addr, tgt: Addr,
                   m1: map<Addr, Addr>, m1': map<Addr, Addr>, allocs1: nat)
    requires GoodRenaming(k, m, ren, allocs) == true && GoodAlloc(k) == true && TablesAgree(k, m, m', ren) == true
    requires Known(k.w, x) && x !in m && x !in k.start && tgt == k.t.alloc(allocs)
    requires m1 == AddMapping(m, x, x) && m1' == AddMapping(AddMapping(m', x, tgt), tgt, tgt) && allocs1 == allocs + 1
    ensures x !in ren && tgt !in ren.Values && Extends(ren, ren[x := tgt]) == true
    ensures GoodRenaming(k, m1, ren[x := tgt], allocs1) == true
    ensures TablesAgree(k, m1, m1', ren[x := tgt]) == true
  {
    FreshTarget(k, m, m', ren, allocs, x, x);
    SelfMapAgrees(k, AddMapping(m, x, x), AddMapping(m', x, tgt), ren[x := tgt], tgt);
  }

  lemma TextInMemory(k: World, ren: Renaming, m: Memory, log: seq<Event>, ev: Event, x: Addr, tgt: Addr, m': Memory)
    requires ev.loc.base in ren && MoveLoc(ren, ev.loc) !in m.ptrs && FromLog(ren, m, log)
    requires Plain(k.w, x) && x !in ren && tgt !in ren.Values && x in k.w.mem.strs
    requires ev.kind == First(x) && ev.ty == StringPtr(k.w.types)
    requires m'.ptrs == m.ptrs[MoveLoc(ren, ev.loc) := tgt] && m'.prims == m.prims
        && m'.strs == m.strs[tgt := k.w.mem.strs[x]]
    ensures MemGrows(m, m') == true && Rebuilt(k, ren[x := tgt], m', ev) == true
        && TextsPlaced(m, m', ren[x := tgt]) == true
  {
    assert tgt !in m.strs;
    assert ren[x := tgt][x] == tgt && tgt in ren[x := tgt].Values;
  }

  /** After the object has been entered, its address is mapped to itself. */
  lemma SelfMapStep(k: World, final: seq<Event>, e: Engine, r: Reader, ren: Renaming, cell: Loc)
    requires Sim(k, final, e, r, ren) == true && !Known(k.w, PtrAt(r.mem, cell))
    ensures Sim(k, final, e, SelfMapped(r, cell), ren) == true
  {
    SelfMapAgrees(k, e.mapping, r.mapping, ren, PtrAt(r.mem, cell));
  }

  // ----- lockstep

  ghost predicate VisitRun(c: Setup, e: Engine, l: Loc, ty: Ty, e': Engine)
  {
    Proper(c) && Sane(c, e) && e' == Visit(c, e, l, ty, l)
  }

  ghost predicate ArrayRun(c: Setup, e: Engine, l: Loc, base: Ty, n: nat, e': Engine)
  {
    Elementwise(c, e, l, base, n, l, e')
  }

  lemma ArrayRunTail(c: Setup, e: Engine, l: Loc, base: Ty, n: nat, e': Engine, l1: Loc, n1: nat)
    returns (e1: Engine)
    requires ArrayRun(c, e, l, base, n, e') && n > 0 && l1 == Shift(l, Stride(base)) && n1 == n - 1
    ensures VisitRun(c, e, l, base, e1) == true
    ensures ArrayRun(c, e1, l1, base, n1, e') == true
    ensures Unmapped(c, e1) <= Unmapped(c, e) && e1.log <= e'.log
  {
    ElementwiseNow(c, e, l, base, n, l, e');
    e1 := Visit(c, e, l, base, l);
    ElementwiseNext(c, e, l, base, n, l, e1, l1, n1, l1, e');
  }

  /** What visiting a place assumes and what it achieves. */
  ghost predicate AtPlace(k: World, typeAt: Addr -> Ty, final: seq<Event>, e: Engine, r: Reader, ren: Renaming,
      l: Loc, ty: Ty)
  {
    && WorldAs(k, typeAt) && OncePerCell(final) && Sim(k, final, e, r, ren)
    && l.base in ren && Walked(k.c, k.roots, Item(l, ty))
  }

  predicate Opened(i: nat) { true }

  /**
   * The standing assumptions and the relation, closed: they come into view only where `Opened` is
   * mentioned, which keeps the lemmas that merely pass the relation on small.
   */
  ghost predicate Paired(k: World, typeAt: Addr -> Ty, final: seq<Event>, e: Engine, r: Reader, ren: Renaming)
  {
    forall i: nat {:trigger Opened(i)} :: Opened(i) ==>
          WorldAs(k, typeAt) && OncePerCell(final) && Sim(k, final, e, r, ren)
  }

  lemma OpenPaired(k: World, typeAt: Addr -> Ty, final: seq<Event>, e: Engine, r: Reader, ren: Renaming)
    requires Paired(k, typeAt, final, e, r, ren) == true
    ensures WorldAs(k, typeAt) == true && OncePerCell(final) == true && Sim(k, final, e, r, ren) == true
  {
    assert Opened(0);
  }

  lemma ClosePaired(k: World, typeAt: Addr -> Ty, final: seq<Event>, e: Engine, r: Reader, ren: Renaming)
    requires WorldAs(k, typeAt) == true && OncePerCell(final) == true && Sim(k, final, e, r, ren) == true
    ensures Paired(k, typeAt, final, e, r, ren) == true
  {
  }

  lemma {:induction false} VisitSim(k: World, typeAt: Addr -> Ty, final: seq<Event>, e: Engine, r: Reader,
      ren: Renaming, l: Loc, ty: Ty, e': Engine)
    returns (r': Reader, ren': Renaming)
    requires Paired(k, typeAt, final, e, r, ren) == true && l.base in ren && Walked(k.c, k.roots, Item(l, ty)) == true
    requires VisitRun(k.c, e, l, ty, e') == true && e'.log <= final
    ensures ReadVisit(k.t, r, MoveLoc(ren, l), ty) == Ok(r')
    ensures Paired(k, typeAt, final, e', r', ren') == true && Extends(ren, ren') == true
    decreases Unmapped(k.c, e), ty, 3
  {
    if ty.Array? {
      var e1 := Logged(e, l, ty, Elements);
      ElementsAreWalked(k, l, ty);
      ArrayStart(k, typeAt, final, e, r, ren, l, ty, e1, e');
      r', ren' := ArraySim(k, typeAt, final, e1, r, ren, l, ty.base, ty.len, e');
    } else if IsPtr(ty) {
      OpenPaired(k, typeAt, final, e, r, ren);
      r', ren' := PointerSim(k, typeAt, final, e, r, ren, l, ty, e');
      ClosePaired(k, typeAt, final, e', r', ren');
    } else {
      r' := PlainSim(k, typeAt, final, e, r, ren, l, ty, e');
      ren' := ren;
    }
  }

  lemma ArrayStart(k: World, typeAt: Addr -> Ty, final: seq<Event>, e: Engine, r: Reader, ren: Renaming, l: Loc,
      ty: Ty, e1: Engine, e': Engine)
    requires Paired(k, typeAt, final, e, r, ren) == true && l.base in ren && Walked(k.c, k.roots, Item(l, ty)) == true
    requires ty.Array? && VisitRun(k.c, e, l, ty, e') == true && e'.log <= final && e1 == Logged(e, l, ty, Elements)
    ensures ArrayRun(k.c, e1, l, ty.base, ty.len, e') == true && Unmapped(k.c, e1) == Unmapped(k.c, e)
    ensures Paired(k, typeAt, final, e1, r, ren) == true
  {
    OpenPaired(k, typeAt, final, e, r, ren);
    LoggedSane(k.c, e, l, ty, Elements);
    SilentStep(k, final, e, r, ren, l, ty, Elements, e1);
    ClosePaired(k, typeAt, final, e1, r, ren);
  }

  /** A place that is neither a pointer nor an array. */
  lemma PlainSim(k: World, typeAt: Addr -> Ty, final: seq<Event>, e: Engine, r: Reader, ren: Renaming, l: Loc, ty: Ty,
      e': Engine)
    returns (r': Reader)
    requires Paired(k, typeAt, final, e, r, ren) == true && l.base in ren && Walked(k.c, k.roots, Item(l, ty)) == true
    requires !ty.Array? && !IsPtr(ty) && VisitRun(k.c, e, l, ty, e') == true && e'.log <= final
    ensures ReadVisit(k.t, r, MoveLoc(ren, l), ty) == Ok(r')
    ensures Paired(k, typeAt, final, e', r', ren) == true
  {
    OpenPaired(k, typeAt, final, e, r, ren);
    match ty {
      case Unknown =>
        SilentStep(k, final, e, r, ren, l, ty, Skipped, e');
        r' := r;
      case Prim(_) =>
        r' := ScalarStep(k, final, e, r, ren, l, ty, e');
      case Struct(_, fields) =>
        var e1 := Logged(e, l, ty, Whole);
        FieldsAreWalked(k, l, ty);
        SilentStep(k, final, e, r, ren, l, ty, Whole, e1);
        QueueStep(k, final, e1, r, ren, l, fields);
        r' := r.(queue := r.queue + [Task(MoveLoc(ren, l), fields, MoveLoc(ren, l))]);
    }
    ClosePaired(k, typeAt, final, e', r', ren);
  }

  lemma ElementsAreWalked(k: World, l: Loc, ty: Ty)
    requires ty.Array? && Walked(k.c, k.roots, Item(l, ty))
    ensures ElementsWalked(k.c, k.roots, l, ty.base, ty.len)
  {
    forall i: nat | i < ty.len
      ensures Walked(k.c, k.roots, Element(l, ty.base, i))
    {
      OnwardWalked(k.c, k.roots, Item(l, ty), Element(l, ty.base, i));
    }
  }

  lemma FieldsAreWalked(k: World, l: Loc, ty: Ty)
    requires ty.Struct? && Walked(k.c, k.roots, Item(l, ty))
    ensures FieldsWalked(k.c, k.roots, l, ty.fields)
  {
    forall i: nat | i < |ty.fields|
      ensures Walked(k.c, k.roots, Member(l, ty.fields, i))
    {
      OnwardWalked(k.c, k.roots, Item(l, ty), Member(l, ty.fields, i));
    }
  }

  lemma MoveShift(ren: Renaming, ren': Renaming, l: Loc, n: nat)
    requires Extends(ren, ren') && l.base in ren
    ensures l.base in ren' && MoveLoc(ren', l) == MoveLoc(ren, l)
    ensures MoveLoc(ren', Shift(l, n)) == Shift(MoveLoc(ren, l), n)
  {
  }

  lemma ReadArrayStep(t: Target, r: Reader, ren: Renaming, ren': Renaming, l: Loc, base: Ty, n: nat, r1: Reader,
      r': Reader, l1: Loc, n1: nat)
    requires Extends(ren, ren') && l.base in ren && l.base in ren' && l1 == Shift(l, Stride(base)) && n1 == n - 1
    requires n > 0 && ReadVisit(t, r, MoveLoc(ren, l), base) == Ok(r1)
    requires ReadArray(t, r1, MoveLoc(ren', l1), base, n1) == Ok(r')
    ensures ReadArray(t, r, MoveLoc(ren, l), base, n) == Ok(r')
  {
    MoveShift(ren, ren', l, Stride(base));
  }

  lemma Still(ren: Renaming, ren': Renaming, x: Addr)
    requires Extends(ren, ren') && x in ren
    ensures x in ren'
  {
  }

  lemma ExtendsTrans(a: Renaming, b: Renaming, c: Renaming)
    requires Extends(a, b) && Extends(b, c)
    ensures Extends(a, c)
  {
  }

  lemma {:induction false} ArraySim(k: World, typeAt: Addr -> Ty, final: seq<Event>, e: Engine, r: Reader,
      ren: Renaming, l: Loc, base: Ty, n: nat, e': Engine)
    returns (r': Reader, ren': Renaming)
    requires Paired(k, typeAt, final, e, r, ren) == true
    requires l.base in ren && ElementsWalked(k.c, k.roots, l, base, n) == true
    requires ArrayRun(k.c, e, l, base, n, e') == true && e'.log <= final
    ensures ReadArray(k.t, r, MoveLoc(ren, l), base, n) == Ok(r')
    ensures Paired(k, typeAt, final, e', r', ren') == true && Extends(ren, ren') == true
    decreases Unmapped(k.c, e), base, n + 3
  {
    if n == 0 {
      ElementwiseEnd(k.c, e, l, base, l, e');
      r', ren' := r, ren;
    } else {
      var l1, n1 := Shift(l, Stride(base)), n - 1;
      ElementsTail(k.c, k.roots, l, base, n, l1, n1);
      var e1 := ArrayRunTail(k.c, e, l, base, n, e', l1, n1);
      var r1, ren1 := VisitSim(k, typeAt, final, e, r, ren, l, base, e1);
      Still(ren, ren1, l.base);
      r', ren' := ArraySim(k, typeAt, final, e1, r1, ren1, l1, base, n1, e');
      ReadArrayStep(k.t, r, ren, ren1, l, base, n, r1, r', l1, n1);
      ExtendsTrans(ren, ren1, ren');
    }
  }

  ghost predicate FieldsRun(c: Setup, e: Engine, l: Loc, fields: seq<Field>, e': Engine)
  {
    Proper(c) && Sane(c, e) && e' == VisitFields(c, e, l, fields, l)
  }

  lemma FieldsRunTail(c: Setup, e: Engine, l: Loc, fields: seq<Field>, e': Engine) returns (e1: Engine)
    requires FieldsRun(c, e, l, fields, e') && fields != []
    ensures VisitRun(c, e, Shift(l, fields[0].offset), fields[0].ty, e1)
    ensures FieldsRun(c, e1, l, fields[1..], e') && e1.log <= e'.log
  {
    e1 := Visit(c, e, Shift(l, fields[0].offset), fields[0].ty, Shift(l, fields[0].offset));
  }

  lemma ReadFieldsStep(t: Target, r: Reader, cell: Loc, fields: seq<Field>, r1: Reader, r': Reader)
    requires fields != [] && ReadVisit(t, r, Shift(cell, fields[0].offset), fields[0].ty) == Ok(r1)
    requires ReadFields(t, r1, cell, fields[1..]) == Ok(r')
    ensures ReadFields(t, r, cell, fields) == Ok(r')
  {
  }

  lemma {:induction false} FieldsSim(k: World, typeAt: Addr -> Ty, final: seq<Event>, e: Engine, r: Reader,
      ren: Renaming, l: Loc, fields: seq<Field>, e': Engine)
    returns (r': Reader, ren': Renaming)
    requires Paired(k, typeAt, final, e, r, ren) == true
    requires l.base in ren && FieldsWalked(k.c, k.roots, l, fields) == true
    requires FieldsRun(k.c, e, l, fields, e') == true && e'.log <= final
    ensures ReadFields(k.t, r, MoveLoc(ren, l), fields) == Ok(r')
    ensures Paired(k, typeAt, final, e', r', ren') == true && Extends(ren, ren') == true
    decreases |fields|
  {
    if fields == [] {
      r', ren' := r, ren;
    } else {
      FieldsTail(k.c, k.roots, l, fields);
      var f := fields[0];
      var e1 := FieldsRunTail(k.c, e, l, fields, e');
      MoveShift(ren, ren, l, f.offset);
      var r1, ren1 := VisitSim(k, typeAt, final, e, r, ren, Shift(l, f.offset), f.ty, e1);
      MoveShift(ren, ren1, l, f.offset);
      r', ren' := FieldsSim(k, typeAt, final, e1, r1, ren1, l, fields[1..], e');
      ReadFieldsStep(k.t, r, MoveLoc(ren, l), fields, r1, r');
      ExtendsTrans(ren, ren1, ren');
    }
  }

  lemma FieldsTail(c: Setup, roots: seq<Root>, l: Loc, fields: seq<Field>)
    requires FieldsWalked(c, roots, l, fields) && fields != []
    ensures Walked(c, roots, Item(Shift(l, fields[0].offset), fields[0].ty)) && FieldsWalked(c, roots, l, fields[1..])
  {
    assert Member(l, fields, 0) == Item(Shift(l, fields[0].offset), fields[0].ty);
    forall i: nat | i < |fields[1..]|
      ensures Walked(c, roots, Member(l, fields[1..], i))
    {
      assert Member(l, fields[1..], i) == Member(l, fields, i + 1);
    }
  }

  lemma {:induction false} PointerSim(k: World, typeAt: Addr -> Ty, final: seq<Event>, e: Engine, r: Reader,
      ren: Renaming, l: Loc, ty: Ty, e': Engine)
    returns (r': Reader, ren': Renaming)
    requires AtPlace(k, typeAt, final, e, r, ren, l, ty) == true && IsPtr(ty)
    requires e' == VisitPointer(k.c, e, l, ty, l) && e'.log <= final
    ensures l.base in ren && ReadPointer(k.t, r, MoveLoc(ren, l), ty) == Ok(r')
    ensures Sim(k, final, e', r', ren') == true && Extends(ren, ren') == true
    decreases Unmapped(k.c, e), ty, 2
  {
    var x := PtrAt(k.w.mem, l);
    if x == 0 {
      r' := NullStep(k, final, e, r, ren, l, ty, e');
      ren' := ren;
    } else if FindMapping(e.mapping, x) != 0 {
      r' := AgainSim(k, typeAt, final, e, r, ren, l, ty, e');
      ren' := ren;
    } else if x in k.w.symbols {
      r' := NewSymbolSim(k, typeAt, final, e, r, ren, l, ty, e');
      ren' := ren;
    } else {
      r', ren' := NewObjectSim(k, typeAt, final, e, r, ren, l, ty, e');
    }
  }

  lemma AgainSim(k: World, typeAt: Addr -> Ty, final: seq<Event>, e: Engine, r: Reader, ren: Renaming, l: Loc, ty: Ty,
      e': Engine)
    returns (r': Reader)
    requires AtPlace(k, typeAt, final, e, r, ren, l, ty) == true && IsPtr(ty)
    requires FindMapping(e.mapping, PtrAt(k.w.mem, l)) != 0
    requires e' == VisitPointer(k.c, e, l, ty, l) && e'.log <= final
    ensures l.base in ren && ReadPointer(k.t, r, MoveLoc(ren, l), ty) == Ok(r') && Sim(k, final, e', r', ren) == true
  {
    var x := PtrAt(k.w.mem, l);
    var ev := Event(l, ty, Again(x));
    LoggedSane(k.c, e, l, ty, Again(x));
    LoggedSound(k.c, k.roots, e, l, ty, Again(x));
    assert GoodItem(k, Item(l, ty));
    if x in k.w.symbols {
      r' := SymbolStep(k, final, e, r, ren, ev, x, e');
    } else {
      r' := AgainStep(k, final, e, r, ren, ev, x, e');
    }
  }

  lemma NewSymbolSim(k: World, typeAt: Addr -> Ty, final: seq<Event>, e: Engine, r: Reader, ren: Renaming, l: Loc,
      ty: Ty, e': Engine)
    returns (r': Reader)
    requires AtPlace(k, typeAt, final, e, r, ren, l, ty) == true && IsPtr(ty)
    requires FindMapping(e.mapping, PtrAt(k.w.mem, l)) == 0 && PtrAt(k.w.mem, l) != 0
        && PtrAt(k.w.mem, l) in k.w.symbols
    requires e' == VisitPointer(k.c, e, l, ty, l) && e'.log <= final
    ensures l.base in ren && ReadPointer(k.t, r, MoveLoc(ren, l), ty) == Ok(r') && Sim(k, final, e', r', ren) == true
  {
    var x := PtrAt(k.w.mem, l);
    FirstVisitSane(k.c, e, l, ty, l, x);
    FirstVisitSound(k.c, k.roots, e, l, ty, l, x);
    r' := SymbolStep(k, final, e, r, ren, Event(l, ty, First(x)), x, e');
  }

  /** The cell that led into an object still holds the object's new address afterwards. */
  lemma EnteredCell(k: World, final: seq<Event>, e: Engine, r: Reader, ren: Renaming, ren': Renaming, i: nat,
      ev: Event, x: Addr)
    requires Sim(k, final, e, r, ren') == true && Extends(ren, ren') == true && GoodAlloc(k) == true
    requires i < |e.log| && e.log[i] == ev && ev.kind == First(x) && Plain(k.w, x)
    requires ev.loc.base in ren && x in ren && exists j: nat :: ren[x] == k.t.alloc(j)
    ensures !Known(k.w, PtrAt(r.mem, MoveLoc(ren, ev.loc)))
  {
    assert Rebuilt(k, ren', r.mem, e.log[i]);
    var j: nat :| ren[x] == k.t.alloc(j);
    assert PtrAt(r.mem, MoveLoc(ren, ev.loc)) == k.t.alloc(j);
  }

  /** A heap object met for the first time satisfies what the two cases below assume. */
  lemma NewObjectReady(k: World, typeAt: Addr -> Ty, final: seq<Event>, e: Engine, r: Reader, ren: Renaming, l: Loc,
      ty: Ty, e1: Engine)
    requires AtPlace(k, typeAt, final, e, r, ren, l, ty) == true && IsPtr(ty)
    requires FindMapping(e.mapping, PtrAt(k.w.mem, l)) == 0 && Plain(k.w, PtrAt(k.w.mem, l))
    requires e1 == FirstVisit(k.c, e, l, ty, l, PtrAt(k.w.mem, l)) && e1.log <= final
    ensures NewObject(k, final, e, r, ren, Event(l, ty, First(PtrAt(k.w.mem, l))), PtrAt(k.w.mem, l), e1) == true
    ensures ty == StringPtr(k.w.types) ==>
          PtrAt(k.w.mem, l) in k.w.mem.strs && GoodText(k.w.mem.strs[PtrAt(k.w.mem, l)])
    ensures Follows(k.c, ty, PtrAt(k.w.mem, l)) <==> ty != StringPtr(k.w.types)
  {
    var x := PtrAt(k.w.mem, l);
    assert GoodItem(k, Item(l, ty));
    FirstVisitSane(k.c, e, l, ty, l, x);
    FirstVisitSound(k.c, k.roots, e, l, ty, l, x);
  }

  lemma {:induction false} NewObjectSim(k: World, typeAt: Addr -> Ty, final: seq<Event>, e: Engine, r: Reader,
      ren: Renaming, l: Loc, ty: Ty, e': Engine)
    returns (r': Reader, ren': Renaming)
    requires AtPlace(k, typeAt, final, e, r, ren, l, ty) == true && IsPtr(ty)
    requires FindMapping(e.mapping, PtrAt(k.w.mem, l)) == 0 && Plain(k.w, PtrAt(k.w.mem, l))
    requires e' == VisitPointer(k.c, e, l, ty, l) && e'.log <= final
    ensures l.base in ren && ReadPointer(k.t, r, MoveLoc(ren, l), ty) == Ok(r')
    ensures Sim(k, final, e', r', ren') == true && Extends(ren, ren') == true
    decreases Unmapped(k.c, e), ty, 1
  {
    var x := PtrAt(k.w.mem, l);
    var ev, e1 := Event(l, ty, First(x)), FirstVisit(k.c, e, l, ty, l, x);
    assert e1.log <= e'.log;
    NewObjectReady(k, typeAt, final, e, r, ren, l, ty, e1);
    if ty == StringPtr(k.w.types) {
      r' := TextStep(k, final, e, r, ren, ev, x, e1);
      ren' := ren[x := k.t.alloc(r.allocs)];
    } else {
      r', ren' := EnterObjectSim(k, typeAt, final, e, r, ren, l, ty, e1, e');
    }
  }

  lemma {:induction false} EnterObjectSim(k: World, typeAt: Addr -> Ty, final: seq<Event>, e: Engine, r: Reader,
      ren: Renaming, l: Loc, ty: Ty, e1: Engine, e': Engine)
    returns (r': Reader, ren': Renaming)
    requires WorldAs(k, typeAt) == true && Walked(k.c, k.roots, Item(l, ty)) == true && ty.Pointer?
        && ty != StringPtr(k.w.types)
    requires NewObject(k, final, e, r, ren, Event(l, ty, First(PtrAt(k.w.mem, l))), PtrAt(k.w.mem, l), e1) == true
    requires e1 == FirstVisit(k.c, e, l, ty, l, PtrAt(k.w.mem, l)) && Follows(k.c, ty, PtrAt(k.w.mem, l))
    requires VisitRun(k.c, e1, Loc(PtrAt(k.w.mem, l), 0), k.c.env(ty.target), e') == true && e'.log <= final
    ensures l.base in ren && ReadPointer(k.t, r, MoveLoc(ren, l), ty) == Ok(r')
    ensures Sim(k, final, e', r', ren') == true && Extends(ren, ren') == true
    decreases Unmapped(k.c, e), ty, 0
  {
    var x, tgt := PtrAt(k.w.mem, l), k.t.alloc(r.allocs);
    var ev, ren1 := Event(l, ty, First(x)), ren[x := tgt];
    var rest := AllocStep(k, final, e, r, ren, ev, x, e1);
    var cell := MoveLoc(ren, l);
    assert x in Unmapped(k.c, e) && x !in Unmapped(k.c, e1);
    OnwardWalked(k.c, k.roots, Item(l, ty), Item(Loc(x, 0), k.c.env(ty.target)));
    var r2;
    ClosePaired(k, typeAt, final, e1, Allocated(k.t, r.(input := rest), cell, x), ren1);
    r2, ren' := VisitSim(k, typeAt, final, e1, Allocated(k.t, r.(input := rest), cell, x), ren1, Loc(x, 0),
        k.c.env(ty.target), e');
    OpenPaired(k, typeAt, final, e', r2, ren');
    r' := SelfMapped(r2, cell);
    EnteredDone(k, final, e, e1, e', r, r2, ren, ren', ev, x, rest);
  }

  /** Leaving an object: the read is complete and the cell is mapped to itself. */
  lemma EnteredDone(k: World, final: seq<Event>, e: Engine, e1: Engine, e': Engine, r: Reader, r2: Reader,
      ren: Renaming, ren': Renaming, ev: Event, x: Addr, rest: seq<Byte>)
    requires k.t.types == k.w.types && GoodAlloc(k) == true
    requires ev.loc.base in ren && MoveLoc(ren, ev.loc) !in r.mem.ptrs
    requires ev.ty.Pointer? && ev.ty != StringPtr(k.w.types) && ev.kind == First(x) && Plain(k.w, x) && x !in ren
    requires x < Pow256(8) && x != SER_SYMBOL && FindMapping(r.mapping, x) == 0 && r.input == WordBytes(x) + rest
    requires e1.log == e.log + [ev] && e1.log <= e'.log
    requires Sim(k, final, e', r2, ren') == true && Extends(ren[x := k.t.alloc(r.allocs)], ren') == true
    requires ReadVisit(k.t, Allocated(k.t, r.(input := rest), MoveLoc(ren, ev.loc), x), Loc(k.t.alloc(r.allocs), 0),
        k.t.types.env(ev.ty.target)) == Ok(r2)
    ensures ReadPointer(k.t, r, MoveLoc(ren, ev.loc), ev.ty) == Ok(SelfMapped(r2, MoveLoc(ren, ev.loc)))
    ensures Sim(k, final, e', SelfMapped(r2, MoveLoc(ren, ev.loc)), ren') == true && Extends(ren, ren') == true
  {
    var cell := MoveLoc(ren, ev.loc);
    ReadNewObject(k.t, r, cell, ev.ty, x, rest, r2);
    assert e'.log[|e.log|] == ev;
    EnteredCell(k, final, e', r2, ren[x := k.t.alloc(r.allocs)], ren', |e.log|, ev, x);
    SelfMapStep(k, final, e', r2, ren', cell);
    ExtendsTrans(ren, ren[x := k.t.alloc(r.allocs)], ren');
  }

  // ----- the queue loop

  /** Both queues give up their oldest task. */
  lemma PopStep(k: World, typeAt: Addr -> Ty, final: seq<Event>, e: Engine, r: Reader, ren: Renaming)
    requires Paired(k, typeAt, final, e, r, ren) == true && e.queue != []
    ensures r.queue != [] && TaskAgrees(e.queue[0], r.queue[0], ren)
    ensures FieldsWalked(k.c, k.roots, e.queue[0].loc, e.queue[0].fields) == true
    ensures Paired(k, typeAt, final, e.(queue := e.queue[1..]), r.(queue := r.queue[1..]), ren) == true
    ensures Proper(k.c) && Sane(k.c, e)
  {
    OpenPaired(k, typeAt, final, e, r, ren);
    var e1, r1 := e.(queue := e.queue[1..]), r.(queue := r.queue[1..]);
    assert TaskAgrees(e.queue[0], r.queue[0], ren) && TaskWalked(k.c, k.roots, e.queue[0]);
    QueueTail(e.queue, r.queue, ren);
    forall i | 0 <= i < |e1.queue|
      ensures TaskWalked(k.c, k.roots, e1.queue[i])
    {
      assert e1.queue[i] == e.queue[i + 1];
    }
    assert Sound(k.c, k.roots, e1);
    ClosePaired(k, typeAt, final, e1, r1, ren);
  }

  lemma QueueTail(q: seq<Task>, q': seq<Task>, ren: Renaming)
    requires QueuesAgree(q, q', ren) && q != []
    ensures QueuesAgree(q[1..], q'[1..], ren)
  {
    forall i | 0 <= i < |q[1..]|
      ensures TaskAgrees(q[1..][i], q'[1..][i], ren)
    {
      assert TaskAgrees(q[i + 1], q'[i + 1], ren);
    }
  }

  /** One task is run by both. */
  lemma TaskSim(k: World, typeAt: Addr -> Ty, final: seq<Event>, e: Engine, r: Reader, ren: Renaming, e1: Engine)
    returns (r1: Reader, ren1: Renaming)
    requires Paired(k, typeAt, final, e, r, ren) == true && e.queue != []
    requires Proper(k.c) && Sane(k.c, e) && e1 == RunTask(k.c, e) && e1.log <= final
    ensures r.queue != [] && ReadTask(k.t, r) == Ok(r1)
    ensures Paired(k, typeAt, final, e1, r1, ren1) == true && Extends(ren, ren1) == true
  {
    PopStep(k, typeAt, final, e, r, ren);
    var t := e.queue[0];
    assert FieldsRun(k.c, e.(queue := e.queue[1..]), t.loc, t.fields, e1);
    r1, ren1 := FieldsSim(k, typeAt, final, e.(queue := e.queue[1..]), r.(queue := r.queue[1..]), ren, t.loc,
        t.fields, e1);
  }

  ghost predicate DrainRun(c: Setup, e: Engine, e': Engine)
  {
    Proper(c) && Sane(c, e) && e' == Drain(c, e)
  }

  lemma DrainRunTail(c: Setup, e: Engine, e': Engine) returns (e1: Engine)
    requires DrainRun(c, e, e') && e.queue != []
    ensures Proper(c) && Sane(c, e) && e1 == RunTask(c, e) && DrainRun(c, e1, e') && e1.log <= e'.log
    ensures Unmapped(c, e1) <= Unmapped(c, e)
        && (Unmapped(c, e1) == Unmapped(c, e) ==> Weight(e1.queue) < Weight(e.queue))
  {
    e1 := RunTask(c, e);
    RunTaskProgress(c, e);
  }

  lemma EmptyTogether(k: World, typeAt: Addr -> Ty, final: seq<Event>, e: Engine, r: Reader, ren: Renaming)
    requires Paired(k, typeAt, final, e, r, ren) == true
    ensures e.queue == [] <==> r.queue == []
  {
    OpenPaired(k, typeAt, final, e, r, ren);
  }

  lemma {:induction false} DrainSim(k: World, typeAt: Addr -> Ty, final: seq<Event>, e: Engine, r: Reader,
      ren: Renaming, e': Engine)
    returns (r': Reader, ren': Renaming)
    requires Paired(k, typeAt, final, e, r, ren) == true && DrainRun(k.c, e, e') == true && e'.log <= final
    ensures ReadDrain(k.t, r) == Ok(r')
    ensures Paired(k, typeAt, final, e', r', ren') == true && Extends(ren, ren') == true
    decreases Unmapped(k.c, e), Weight(e.queue)
  {
    EmptyTogether(k, typeAt, final, e, r, ren);
    if e.queue == [] {
      r', ren' := r, ren;
    } else {
      var e1 := DrainRunTail(k.c, e, e');
      var r1, ren1 := TaskSim(k, typeAt, final, e, r, ren, e1);
      r', ren' := DrainSim(k, typeAt, final, e1, r1, ren1, e');
      ReadDrainStep(k.t, r, r1);
      ExtendsTrans(ren, ren1, ren');
    }
  }

  lemma ReadDrainStep(t: Target, r: Reader, r1: Reader)
    requires r.queue != [] && ReadTask(t, r) == Ok(r1)
    ensures ReadDrain(t, r) == ReadDrain(t, r1)
  {
  }

  // ----- the roots

  /** The same roots at their places in the reading program. */
  function MoveRoots(roots: seq<Root>, start: Renaming): seq<Root>
    requires forall i :: 0 <= i < |roots| ==> roots[i].loc.base in start
  {
    seq(|roots|, i requires 0 <= i < |roots| => Root(MoveLoc(start, roots[i].loc), roots[i].ty,
        MoveLoc(start, roots[i].loc)))
  }

  ghost predicate RootsRun(c: Setup, e: Engine, roots: seq<Root>, e': Engine)
  {
    Proper(c) && Sane(c, e) && e' == VisitRoots(c, e, roots)
  }

  lemma RootsRunTail(c: Setup, e: Engine, roots: seq<Root>, i: nat, e': Engine) returns (e1: Engine)
    requires i < |roots| && RootsRun(c, e, roots[i..], e') && roots[i].out == roots[i].loc
    ensures VisitRun(c, e, roots[i].loc, roots[i].ty, e1) && RootsRun(c, e1, roots[i + 1..], e') && e1.log <= e'.log
  {
    assert roots[i..][1..] == roots[i + 1..];
    e1 := Visit(c, e, roots[i].loc, roots[i].ty, roots[i].out);
  }

  lemma {:induction false} RootsSim(k: World, typeAt: Addr -> Ty, final: seq<Event>, e: Engine, r: Reader,
      ren: Renaming, i: nat, e': Engine)
    returns (r': Reader, ren': Renaming)
    requires Paired(k, typeAt, final, e, r, ren) == true && GoodRoots(k) && Extends(k.start, ren) && i <= |k.roots|
    requires RootsRun(k.c, e, k.roots[i..], e') == true && e'.log <= final
    ensures ReadRoots(k.t, r, MoveRoots(k.roots, k.start)[i..]) == Ok(r')
    ensures Paired(k, typeAt, final, e', r', ren') == true && Extends(ren, ren') == true
    decreases |k.roots| - i
  {
    if i == |k.roots| {
      assert k.roots[i..] == [];
      r', ren' := r, ren;
    } else {
      var root, moved := k.roots[i], MoveRoots(k.roots, k.start);
      assert moved[i..][1..] == moved[i + 1..];
      RootWalked(k.c, k.roots, i);
      var e1 := RootsRunTail(k.c, e, k.roots, i, e');
      var r1, ren1 := VisitSim(k, typeAt, final, e, r, ren, root.loc, root.ty, e1);
      ExtendsTrans(k.start, ren, ren1);
      r', ren' := RootsSim(k, typeAt, final, e1, r1, ren1, i + 1, e');
      ExtendsTrans(ren, ren1, ren');
    }
  }

  // ----- the round trip

  /** The reader at the start is paired with the writer at the start. */
  lemma StartPaired(k: World, typeAt: Addr -> Ty, final: seq<Event>)
    requires WorldAs(k, typeAt) && OncePerCell(final)
    ensures Paired(k, typeAt, final, Idle, Reader(Stream(k.w, final), Memory(map[], map[], map[]), map[], [], 0),
        k.start) == true
  {
    var r := Reader(Stream(k.w, final), Memory(map[], map[], map[]), map[], [], 0);
    assert Sim(k, final, Idle, r, k.start);
    ClosePaired(k, typeAt, final, Idle, r, k.start);
  }

  /** Place `it` of the writer's heap holds in the reader what it held in the writer. */
  ghost predicate Same(k: World, ren: Renaming, mem: Memory, it: Item)
  {
    && it.loc.base in ren
    && match it.ty
       case Prim(_) =>
         && it.loc in k.w.mem.prims && MoveLoc(ren, it.loc) in mem.prims
         && mem.prims[MoveLoc(ren, it.loc)] == k.w.mem.prims[it.loc]
       case Pointer(_) => SamePointer(k, ren, mem, it)
       case FunPointer => SamePointer(k, ren, mem, it)
       case _ => true
  }

  /** Null stays null, a symbol is found by its name, an object is at its new address, a string has its text. */
  ghost predicate SamePointer(k: World, ren: Renaming, mem: Memory, it: Item)
    requires it.loc.base in ren
  {
    var x := PtrAt(k.w.mem, it.loc);
    && PtrAt(mem, MoveLoc(ren, it.loc)) == Trans(k, ren, x)
    && (Plain(k.w, x) ==> x in ren && ren[x] != 0)
    && (Plain(k.w, x) && it.ty == StringPtr(k.w.types) ==>
          x in k.w.mem.strs && ren[x] in mem.strs && mem.strs[ren[x]] == k.w.mem.strs[x])
  }

  /**
   * The reader's heap is the writer's reachable heap up to an injective renaming of addresses:
   * every reachable place is rebuilt, and every rebuilt cell is that of a reachable place.
   */
  ghost predicate Isomorphic(k: World, ren: Renaming, mem: Memory)
  {
    && Injective(ren) && Extends(k.start, ren)
    && (forall it :: Reached(k.c, k.roots, it) ==> Same(k, ren, mem, it))
    && (forall l :: l in mem.ptrs || l in mem.prims ==> Origin(k, ren, l))
  }

  ghost predicate Origin(k: World, ren: Renaming, l: Loc)
  {
    exists it :: Reached(k.c, k.roots, it) && it.loc.base in ren && MoveLoc(ren, it.loc) == l
  }

  /** The renaming gives no object a null address. */
  lemma ImageNotNull(k: World, m: map<Addr, Addr>, m': map<Addr, Addr>, ren: Renaming, allocs: nat, x: Addr)
    requires GoodRenaming(k, m, ren, allocs) && TablesAgree(k, m, m', ren) && Known(k.w, x) && x in ren && x !in k.start
    ensures ren[x] != 0
  {
    assert x in m;
    assert FindMapping(m', x) == ren[x];
  }

  lemma {:induction false} FirstEvent(log: seq<Event>, x: Addr) returns (i: nat)
    requires FirstCalls(log, x) >= 1
    ensures i < |log| && log[i].kind == First(x)
  {
    if log[|log| - 1].kind == First(x) {
      i := |log| - 1;
    } else {
      i := FirstEvent(log[..|log| - 1], x);
    }
  }

  /** The first visit to the target of a string pointer was through a string pointer. */
  lemma FirstEventOf(k: World, typeAt: Addr -> Ty, e: Engine, it: Item, x: Addr) returns (i: nat)
    requires Sane(k.c, e) && Sound(k.c, k.roots, e) && WorldAs(k, typeAt) == true
    requires Aims(k.c, k.roots, it, x) && x in e.mapping && Plain(k.w, x)
    ensures i < |e.log| && e.log[i].kind == First(x) && (it.ty == StringPtr(k.w.types) ==> e.log[i].ty == it.ty)
  {
    i := FirstEvent(e.log, x);
    var first := Place(e.log[i]);
    assert EventFits(k.c, e.log[i]) && Walked(k.c, k.roots, first);
    assert Aims(k.c, k.roots, first, x);
    assert GoodItem(k, first);
    assert SameEntry(k.c, it.ty, typeAt(x), x) && SameEntry(k.c, first.ty, typeAt(x), x);
  }

  lemma PlaceIsSame(k: World, typeAt: Addr -> Ty, final: seq<Event>, e: Engine, r: Reader, ren: Renaming, i: nat)
    requires Paired(k, typeAt, final, e, r, ren) == true && i < |e.log|
    requires forall x :: Aimed(k.c, k.roots, x) ==> x in e.mapping
    ensures Same(k, ren, r.mem, Place(e.log[i]))
  {
    OpenPaired(k, typeAt, final, e, r, ren);
    var ev := e.log[i];
    var it := Place(ev);
    assert Rebuilt(k, ren, r.mem, ev) && EventFits(k.c, ev) && Walked(k.c, k.roots, it);
    if IsPtr(it.ty) {
      PointerIsSame(k, typeAt, final, e, r, ren, ev);
    }
  }

  lemma PointerIsSame(k: World, typeAt: Addr -> Ty, final: seq<Event>, e: Engine, r: Reader, ren: Renaming, ev: Event)
    requires WorldAs(k, typeAt) == true && Sim(k, final, e, r, ren) == true && IsPtr(ev.ty)
    requires Rebuilt(k, ren, r.mem, ev) == true && EventFits(k.c, ev) && Walked(k.c, k.roots, Place(ev)) == true
    requires forall x :: Aimed(k.c, k.roots, x) ==> x in e.mapping
    ensures ev.loc.base in ren && SamePointer(k, ren, r.mem, Place(ev))
  {
    var it, x := Place(ev), PtrAt(k.w.mem, ev.loc);
    assert GoodItem(k, it);
    if Plain(k.w, x) {
      assert Aims(k.c, k.roots, it, x);
      assert Aimed(k.c, k.roots, x);
      ImageNotNull(k, e.mapping, r.mapping, ren, r.allocs, x);
      var i := FirstEventOf(k, typeAt, e, it, x);
      assert Rebuilt(k, ren, r.mem, e.log[i]);
    }
  }

  lemma CellHasOrigin(k: World, typeAt: Addr -> Ty, final: seq<Event>, e: Engine, r: Reader, ren: Renaming, l: Loc)
    requires Paired(k, typeAt, final, e, r, ren) == true && (l in r.mem.ptrs || l in r.mem.prims)
    requires forall it :: Walked(k.c, k.roots, it) ==> Reached(k.c, k.roots, it)
    ensures Origin(k, ren, l)
  {
    OpenPaired(k, typeAt, final, e, r, ren);
    var ptr := l in r.mem.ptrs;
    assert Written(ren, e.log, l, ptr);
    var i :| 0 <= i < |e.log| && Wrote(ren, e.log[i], l, ptr);
    assert Walked(k.c, k.roots, Place(e.log[i]));
  }

  /** At the end of both runs nothing is left in the stream and the heaps are isomorphic. */
  lemma EndIsomorphic(k: World, typeAt: Addr -> Ty, e: Engine, r: Reader, ren: Renaming)
    requires Paired(k, typeAt, e.log, e, r, ren) == true
    requires forall it :: Walked(k.c, k.roots, it) <==> Reached(k.c, k.roots, it)
    requires forall it :: Reached(k.c, k.roots, it) ==> Visited(e.log, it)
    requires forall x :: Aimed(k.c, k.roots, x) ==> x in e.mapping
    ensures r.input == [] && Isomorphic(k, ren, r.mem)
  {
    OpenPaired(k, typeAt, e.log, e, r, ren);
    forall it | Reached(k.c, k.roots, it)
      ensures Same(k, ren, r.mem, it)
    {
      var i :| 0 <= i < |e.log| && Place(e.log[i]) == it;
      PlaceIsSame(k, typeAt, e.log, e, r, ren, i);
    }
    forall l | l in r.mem.ptrs || l in r.mem.prims
      ensures Origin(k, ren, l)
    {
      CellHasOrigin(k, typeAt, e.log, e, r, ren, l);
    }
  }

  /** Places of validly laid out types have validly laid out types. */
  lemma ChildIsValid(c: Setup, p: Item, q: Item)
    requires ValidTy(p.ty) && (forall t :: ValidTy(c.env(t))) && Child(c, p, q)
    ensures ValidTy(q.ty)
  {
    if p.ty.Struct? {
      var i: nat :| i < |p.ty.fields| && q == Member(p.loc, p.ty.fields, i);
      FieldIsValid(p.ty.fields, 0, p.ty.size, i);
    }
  }

  lemma {:induction false} FieldIsValid(fields: seq<Field>, from: nat, size: nat, i: nat)
    requires ValidFields(fields, from, size) && i < |fields|
    ensures ValidTy(fields[i].ty)
    decreases i
  {
    if i > 0 {
      FieldIsValid(fields[1..], fields[0].offset + Size(fields[0].ty), size, i - 1);
    }
  }

  lemma {:induction false} PathIsValid(c: Setup, roots: seq<Root>, path: seq<Item>, i: nat)
    requires (forall t :: ValidTy(c.env(t))) && Path(c, roots, path) && i < |path|
    requires forall j :: 0 <= j < |roots| ==> ValidTy(roots[j].ty)
    ensures ValidTy(path[i].ty)
  {
    if i > 0 {
      PathIsValid(c, roots, path, i - 1);
      assert Leads(c, path, i);
      ChildIsValid(c, path[i - 1], path[i]);
    }
  }

  /** In valid layouts all strides are right. */
  lemma ValidStrides(c: Setup, roots: seq<Root>)
    requires (forall t :: ValidTy(c.env(t))) && forall j :: 0 <= j < |roots| ==> ValidTy(roots[j].ty)
    ensures StridesRight(c, roots)
  {
    forall it | Reached(c, roots, it) && it.ty.Array?
      ensures RightStride(it.ty.base, it.ty.len)
    {
      var path :| Path(c, roots, path) && path[|path| - 1] == it;
      PathIsValid(c, roots, path, |path| - 1);
    }
  }

  lemma RootsAreValid(k: World, typeAt: Addr -> Ty)
    requires WorldAs(k, typeAt) && GoodRoots(k)
    ensures ValidRoots(k.c, k.roots) && forall t :: Tidy(k.c.env(t))
  {
    forall i | 0 <= i < |k.roots|
      ensures Tidy(k.roots[i].ty)
    {
      ValidIsTidy(k.roots[i].ty);
    }
    forall t
      ensures Tidy(k.c.env(t))
    {
      ValidIsTidy(k.c.env(t));
    }
    forall i, it | 0 <= i < |k.roots| && Walked(k.c, k.roots, it) && it.ty.Pointer?
        && Follows(k.c, it.ty, PtrAt(k.c.mem, it.loc))
      ensures PtrAt(k.c.mem, it.loc) != k.roots[i].loc.base
    {
      assert GoodItem(k, it);
    }
  }

  lemma LockstepRun(k: World, typeAt: Addr -> Ty, e: Engine) returns (r: Reader, ren: Renaming)
    requires WorldAs(k, typeAt) == true && GoodRoots(k) && Proper(k.c) && e == Traverse(k.c, k.roots)
    ensures Deserialize(k.t, Stream(k.w, e.log), MoveRoots(k.roots, k.start)) == Ok(r)
    ensures Paired(k, typeAt, e.log, e, r, ren) == true
  {
    RootsAreValid(k, typeAt);
    forall p
      ensures SeenAt(p, e.log) <= 1
    {
      PointerCellsOnce(k.c, k.roots, p);
    }
    StartPaired(k, typeAt, e.log);
    var r0 := Reader(Stream(k.w, e.log), Memory(map[], map[], map[]), map[], [], 0);
    var moved := MoveRoots(k.roots, k.start);
    assert k.roots[0..] == k.roots && moved[0..] == moved;
    var e1 := VisitRoots(k.c, Idle, k.roots);
    assert DrainRun(k.c, e1, e) && RootsRun(k.c, Idle, k.roots, e1);
    var r1, ren1 := RootsSim(k, typeAt, e.log, Idle, r0, k.start, 0, e1);
    r, ren := DrainSim(k, typeAt, e.log, e1, r1, ren1, e);
  }

  /** What is assumed of the reachable heap holds wherever the walk leads. */
  lemma WorldOf(k: World, typeAt: Addr -> Ty)
    requires GoodWorld(k) && GoodRoots(k) && typeAt == ((x: Addr) => TypeAt(k.c, k.roots, x))
    ensures WorldAs(k, typeAt)
    ensures StridesRight(k.c, k.roots)
    ensures forall it :: Reached(k.c, k.roots, it) <==> Walked(k.c, k.roots, it)
    ensures forall x :: Targeted(k.c, k.roots, x) <==> Aimed(k.c, k.roots, x)
  {
    ValidStrides(k.c, k.roots);
    SameReach(k.c, k.roots);
    SameTargets(k.c, k.roots);
    Representative(k.c, k.roots);
  }

  /**
   * For every heap, shared and cyclic ones included, deserializing what serialization wrote
   * consumes exactly the stream and rebuilds an isomorphic heap.
   */
  lemma DeserializeRebuilds(w: Writer, t: Target, roots: seq<Root>, start: Renaming) returns (r: Reader, ren: Renaming)
    requires GoodWorld(World(w, t, roots, start, WriterSetup(w)))
    requires GoodRoots(World(w, t, roots, start, WriterSetup(w)))
    ensures Deserialize(t, Serialize(w, roots), MoveRoots(roots, start)) == Ok(r)
    ensures r.input == [] && Isomorphic(World(w, t, roots, start, WriterSetup(w)), ren, r.mem)
  {
    var k := World(w, t, roots, start, WriterSetup(w));
    WriterProper(w);
    var e := Traverse(k.c, k.roots);
    var typeAt := (x: Addr) => TypeAt(k.c, k.roots, x);
    WorldOf(k, typeAt);
    r, ren := LockstepRun(k, typeAt, e);
    VisitsExactlyTheReachable(k.c, k.roots);
    EndIsomorphic(k, typeAt, e, r, ren);
  }
}
