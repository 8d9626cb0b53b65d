/**
 * The list through the whole address map and its item count, which no lock guards: they are exact in
 * every run if and only if no two threads can insert at the same time.
 */
module ParallelList {
  import opened Links
  import opened ParallelMap

  /** All addresses that can be inserted share one bucket, and so one lock. */
  ghost predicate OneHome(home: Home)
  {
    forall a, d :: a != 0 && d != 0 && a != SEED && d != SEED ==> home(a) == home(d)
  }

  ghost predicate Alone(threads: nat, home: Home)
  {
    threads < 2 || OneHome(home)
  }

  predicate Inserting(pc: Pc) { pc.Busy? && pc.stage.Insert? }

  /** What the list is made of. */
  datatype Listing = Listing(next: Field, prev: Field, tail: Node, numItems: int, order: seq<Node>, known: set<Node>,
      table: map<Addr, Node>)

  function ListingOf(s: State): Listing
  {
    Listing(s.next, s.prev, s.tail, s.numItems, s.order, s.nodes.Keys, s.table)
  }

  /** The nodes are exactly the entries of the mapped addresses. */
  ghost predicate Filed(table: map<Addr, Node>, nodes: seq<Node>)
  {
    |nodes| == |table| && forall n :: n in nodes <==> IsEntry(table, n)
  }

  ghost predicate IsEntry(table: map<Addr, Node>, n: Node)
  {
    exists a :: a in table && table[a] == n
  }

  /** The list starts with the seed and ends with the tail; its nodes are allocated. */
  ghost predicate Framed(v: Listing)
  {
    && v.order != [] && v.tail == v.order[|v.order| - 1] && SEED in v.table && v.table[SEED] == v.order[0]
    && Distinct(v.order) && 0 !in v.order && (forall n :: n in v.order ==> n in v.known)
  }

  /** All entries but the last are in the table; the last one is about to be. */
  ghost predicate AllButLast(v: Listing, n: Node)
  {
    v.order != [] && v.order[|v.order| - 1] == n && Filed(v.table, v.order[..|v.order| - 1])
  }

  /** The list while the entry `n` is being inserted. */
  ghost predicate Midway(v: Listing, n: Node, at: Insertion)
  {
    match at
    case LoadTail => Fresh(v, n) && ListOf(v.next, v.prev, v.order)
    case TailNext(t) => Fresh(v, n) && ListOf(v.next, v.prev, v.order) && t == v.tail
    case LoadLast => Fresh(v, n) && At(v.next, v.tail) == n && ListOf(v.next[v.tail := 0], v.prev, v.order)
    case Prev(t) => Fresh(v, n) && At(v.next, v.tail) == n && ListOf(v.next[v.tail := 0], v.prev, v.order)
        && t == v.tail
    case Tail => Fresh(v, n) && ListOf(v.next, v.prev, v.order + [n])
    case ReadNum => AllButLast(v, n) && ListOf(v.next, v.prev, v.order) && v.numItems == |v.order| - 1
    case WriteNum(k) => AllButLast(v, n) && ListOf(v.next, v.prev, v.order) && v.numItems == |v.order| - 1
        && k == v.numItems
    case _ => AllButLast(v, n) && ListOf(v.next, v.prev, v.order) && v.numItems == |v.order|
  }

  /** The entry is not in the list yet, which holds everything else. */
  ghost predicate Fresh(v: Listing, n: Node)
  {
    n != 0 && n !in v.order && n in v.known && At(v.next, n) == 0 && v.numItems == |v.order| && Filed(v.table, v.order)
  }

  ghost predicate Whole(v: Listing)
  {
    ListOf(v.next, v.prev, v.order) && v.numItems == |v.order| && Filed(v.table, v.order)
  }

  ghost predicate ListBody(v: Listing, pc: Pc)
  {
    Framed(v) && if Inserting(pc) then Midway(v, pc.stage.n, pc.stage.at) else Whole(v)
  }

  ghost predicate NoneInserting(pcs: seq<Pc>)
  {
    forall h :: 0 <= h < |pcs| ==> !Inserting(pcs[h])
  }

  /** The list fits the thread that is inserting, or is whole when none is. */
  ghost predicate ListOk(v: Listing, pcs: seq<Pc>)
  {
    && (forall h :: 0 <= h < |pcs| && Inserting(pcs[h]) ==> ListBody(v, pcs[h]) == true)
    && (NoneInserting(pcs) ==> ListBody(v, Idle) == true)
  }

  ghost predicate Listed(i: int) { true }

  /** `ListOk`, in view only where `Listed` is mentioned. */
  ghost predicate ListSound(s: State)
  {
    (forall i {:trigger Listed(i)} :: Listed(i) ==> ListOk(ListingOf(s), s.pcs)) == true
  }

  /** A thread moves that neither inserts nor starts to. */
  lemma Bystander(v: Listing, pcs: seq<Pc>, h: nat, pc: Pc)
    requires ListOk(v, pcs) && h < |pcs| && !Inserting(pcs[h]) && !Inserting(pc)
    ensures ListOk(v, pcs[h := pc])
  {
    if NoneInserting(pcs[h := pc]) {
      assert forall k :: 0 <= k < |pcs| && k != h ==> pcs[k] == pcs[h := pc][k];
    }
  }

  /** The only thread that inserts moves. */
  lemma OnlyOne(v: Listing, pcs: seq<Pc>, h: nat, pc: Pc)
    requires h < |pcs| && ListBody(v, pc) == true && forall k :: 0 <= k < |pcs| && k != h ==> !Inserting(pcs[k])
    ensures ListOk(v, pcs[h := pc])
  {
    assert pcs[h := pc][h] == pc;
    assert !Inserting(pc) ==> ListBody(v, Idle);
  }

  /** No two threads insert at the same time. */
  lemma OneInserter(s: State, home: Home, h: nat, k: nat)
    requires Inv(s, home) && Alone(|s.pcs|, home) && h < |s.pcs| && k < |s.pcs| && Inserting(s.pcs[h])
        && Inserting(s.pcs[k])
    ensures h == k
  {
    InserterFacts(s, home, h);
    InserterFacts(s, home, k);
  }

  lemma InserterFacts(s: State, home: Home, h: nat)
    requires Inv(s, home) && h < |s.pcs| && Inserting(s.pcs[h])
    ensures home(s.pcs[h].a) < |s.holders| && s.holders[home(s.pcs[h].a)] == h && s.pcs[h].a != 0 && s.pcs[h].a != SEED
    ensures s.pcs[h].a !in s.table
  {
    Holding(s, h, home);
    Facts(ViewOf(s, home(s.pcs[h].a)), home, home(s.pcs[h].a));
  }

  // ----- the writes of an insertion

  /** Linking the new entry behind the tail. */
  lemma LinkBehind(v: Listing, n: Node, v': Listing)
    requires Framed(v) && Midway(v, n, TailNext(v.tail)) && v' == v.(next := v.next[v.tail := n])
    ensures Framed(v') && Midway(v', n, LoadLast)
  {
    var order := v.order;
    LinksHere(v.next, v.prev, order, |order| - 1);
    ListFrame(v.next, v.prev, v'.next[v.tail := 0], v.prev, order);
  }

  /** The back link completes the longer list. */
  lemma LinkBack(v: Listing, n: Node, v': Listing)
    requires Framed(v) && Midway(v, n, Prev(v.tail)) && v' == v.(prev := v.prev[n := v.tail])
    ensures Framed(v') && Midway(v', n, Tail)
  {
    var order, cut := v.order, v.next[v.tail := 0];
    AppendKeeps(cut, v.prev, order, n, v.tail);
    assert n in order + [n];
    ListFrame(cut[n := 0][v.tail := n], v'.prev, v.next, v'.prev, order + [n]);
  }

  lemma MoveTail(v: Listing, n: Node, v': Listing)
    requires Framed(v) && Midway(v, n, Tail) && v' == v.(tail := n, order := v.order + [n])
    ensures Framed(v') && Midway(v', n, ReadNum)
  {
    assert v'.order[..|v'.order| - 1] == v.order;
  }

  /** The entry enters its bucket, and so the table. */
  lemma FileLast(v: Listing, n: Node, a: Addr, v': Listing)
    requires Framed(v) && Midway(v, n, Head) && a !in v.table && a != SEED && v' == v.(table := v.table[a := n])
    ensures Framed(v') && Whole(v')
  {
    var init := v.order[..|v.order| - 1];
    assert v.order == init + [n];
    forall m
      ensures IsEntry(v'.table, m) <==> IsEntry(v.table, m) || m == n
    {
      if IsEntry(v.table, m) {
        var k :| k in v.table && v.table[k] == m;
        assert v'.table[k] == m;
      }
      assert v'.table[a] == n;
    }
    assert v'.table.Keys == v.table.Keys + {a} && |v'.table| == |v'.table.Keys| && |v.table| == |v.table.Keys|;
  }

  /** A new node leaves the list as it is. */
  lemma NewNode(v: Listing, n: Node, v': Listing)
    requires Framed(v) && Whole(v) && n != 0 && n !in v.known
        && v' == v.(next := v.next[n := 0], known := v.known + {n})
    ensures Framed(v') && Midway(v', n, LoadTail)
  {
    assert n !in v.order;
    ListFrame(v.next, v.prev, v'.next, v.prev, v.order);
  }

  // ----- every step keeps the list

  /** What a step does to the list. */
  lemma ListEffect(s: State, h: nat, op: Op, s': State)
    requires s' == Memory(s, h, op)
    ensures op.Nothing? || op.Acquire? || op.Release? || op.Note? || op.SetCount? ==> ListingOf(s') == ListingOf(s)
    ensures op.SetHhNext? || op.SetHhPrev? ==> ListingOf(s') == ListingOf(s).(known := s.nodes.Keys + {op.n})
    ensures op.SetNext? ==> ListingOf(s') == ListingOf(s).(next := s.next[op.t := op.n])
    ensures op.SetPrev? ==> ListingOf(s') == ListingOf(s).(prev := s.prev[op.n := op.t])
    ensures op.SetTail? ==> ListingOf(s') == ListingOf(s).(tail := op.n, order := s.order + [op.n])
    ensures op.SetNum? ==> ListingOf(s') == ListingOf(s).(numItems := op.k)
    ensures op.Create? ==> ListingOf(s') == ListingOf(s).(next := s.next[op.n := 0], known := s.nodes.Keys + {op.n})
  {
  }

  lemma PublishEffect(s: State, h: nat, op: Op, s': State)
    requires s' == Memory(s, h, op) && op.Publish? && op.b < |s.buckets| && op.b < |s.chains|
    ensures ListingOf(s') == ListingOf(s).(table := s.table[op.a := op.n])
  {
  }

  /** A write of an insertion to the list. */
  lemma ListWritten(s: State, home: Home, h: nat, e: Effect, s': State)
    requires h < |s.pcs| && Inserting(s.pcs[h]) && ListBody(ListingOf(s), s.pcs[h]) == true
    requires s.pcs[h].stage.at.TailNext? || s.pcs[h].stage.at.Prev? || s.pcs[h].stage.at.Tail?
    requires var p := s.pcs[h]; e == InsertStep(s, p.a, p.stage.o, p.stage.n, p.stage.at, home(p.a))
    requires s' == Memory(s, h, e.op)
    ensures ListBody(ListingOf(s'), e.pc) == true
  {
    var v, v', n := ListingOf(s), ListingOf(s'), s.pcs[h].stage.n;
    ListEffect(s, h, e.op, s');
    match s.pcs[h].stage.at
    case TailNext(_) => LinkBehind(v, n, v');
    case Prev(_) => LinkBack(v, n, v');
    case Tail => MoveTail(v, n, v');
  }

  /** A read of the tail, or an access to the item count. */
  lemma ListCounted(s: State, home: Home, h: nat, e: Effect, s': State)
    requires h < |s.pcs| && Inserting(s.pcs[h]) && ListBody(ListingOf(s), s.pcs[h]) == true
    requires var i := s.pcs[h].stage.at; i.LoadTail? || i.LoadLast? || i.ReadNum? || i.WriteNum?
    requires var p := s.pcs[h]; e == InsertStep(s, p.a, p.stage.o, p.stage.n, p.stage.at, home(p.a))
    requires s' == Memory(s, h, e.op)
    ensures ListBody(ListingOf(s'), e.pc) == true
  {
    ListEffect(s, h, e.op, s');
  }

  /** A step of an insertion into its bucket. */
  lemma ListLocked(s: State, home: Home, h: nat, e: Effect, s': State)
    requires h < |s.pcs| && Inserting(s.pcs[h]) && ListBody(ListingOf(s), s.pcs[h]) == true
    requires var i := s.pcs[h].stage.at; i.Count? || i.HhNext? || i.HhPrev? || i.Back?
    requires var p := s.pcs[h]; e == InsertStep(s, p.a, p.stage.o, p.stage.n, p.stage.at, home(p.a))
    requires s' == Memory(s, h, e.op)
    ensures ListBody(ListingOf(s'), e.pc) == true
  {
    ListEffect(s, h, e.op, s');
    LaterStage(ListingOf(s), s.pcs[h], ListingOf(s'), e.pc);
  }

  /** The writes to the bucket do not concern the list. */
  lemma LaterStage(v: Listing, pc: Pc, v': Listing, pc': Pc)
    requires ListBody(v, pc) == true && Inserting(pc) && Inserting(pc') && pc.stage.n == pc'.stage.n
    requires InBucket(pc.stage.at) && InBucket(pc'.stage.at) && v.known <= v'.known && v' == v.(known := v'.known)
    ensures ListBody(v', pc') == true
  {
  }

  /** The last step of an insertion. */
  lemma ListFiled(s: State, home: Home, h: nat, e: Effect, s': State)
    requires Inv(s, home) && h < |s.pcs| && Inserting(s.pcs[h]) && ListBody(ListingOf(s), s.pcs[h]) == true
    requires s.pcs[h].stage.at.Head?
    requires var p := s.pcs[h]; e == InsertStep(s, p.a, p.stage.o, p.stage.n, p.stage.at, home(p.a))
    requires s' == Memory(s, h, e.op)
    ensures ListBody(ListingOf(s'), e.pc) == true
  {
    InserterFacts(s, home, h);
    PublishEffect(s, h, e.op, s');
    FileLast(ListingOf(s), s.pcs[h].stage.n, s.pcs[h].a, ListingOf(s'));
  }

  /** A step of a thread that is not inserting, and does not start to. */
  lemma ListUntouched(s: State, h: nat, c: Choice, home: Home, s': State)
    requires Inv(s, home) && Enabled(s, h, c, home) && s' == Step(s, h, c, home)
    requires !Inserting(s.pcs[h]) && !Inserting(Act(s, h, c, home).pc)
    ensures ListingOf(s') == ListingOf(s)
  {
    var op := Act(s, h, c, home).op;
    ListEffect(s, h, op, Memory(s, h, op));
  }

  lemma InsertingStep(s: State, home: Home, h: nat, e: Effect, s': State)
    requires Inv(s, home) && h < |s.pcs| && Inserting(s.pcs[h]) && ListBody(ListingOf(s), s.pcs[h]) == true
    requires var p := s.pcs[h]; e == InsertStep(s, p.a, p.stage.o, p.stage.n, p.stage.at, home(p.a))
    requires s' == Memory(s, h, e.op)
    ensures ListBody(ListingOf(s'), e.pc) == true
  {
    var i := s.pcs[h].stage.at;
    if i.Head? {
      ListFiled(s, home, h, e, s');
    } else if i.Count? || i.HhNext? || i.HhPrev? || i.Back? {
      ListLocked(s, home, h, e, s');
    } else if i.TailNext? || i.Prev? || i.Tail? {
      ListWritten(s, home, h, e, s');
    } else {
      ListCounted(s, home, h, e, s');
    }
  }

  /** When a thread inserts before or after its step, no other one does. */
  lemma OthersWait(s: State, h: nat, c: Choice, home: Home, s': State, k: nat)
    requires Inv(s, home) && Inv(s', home) && Enabled(s, h, c, home) && s' == Step(s, h, c, home)
        && Alone(|s.pcs|, home)
    requires (Inserting(s.pcs[h]) || Inserting(s'.pcs[h])) && k < |s.pcs| && k != h
    ensures !Inserting(s.pcs[k])
  {
    assert s'.pcs[k] == s.pcs[k];
    if Inserting(s.pcs[k]) {
      if Inserting(s.pcs[h]) {
        OneInserter(s, home, h, k);
      } else {
        OneInserter(s', home, h, k);
      }
    }
  }

  lemma StartInserting(s: State, h: nat, c: Choice, home: Home, m: State)
    requires Inv(s, home) && Enabled(s, h, c, home) && m == Memory(s, h, Act(s, h, c, home).op)
    requires !Inserting(s.pcs[h]) && Inserting(Act(s, h, c, home).pc) && ListBody(ListingOf(s), Idle)
    ensures ListBody(ListingOf(m), Act(s, h, c, home).pc) == true
  {
    var e := Act(s, h, c, home);
    ListEffect(s, h, e.op, m);
    NewNode(ListingOf(s), e.op.n, ListingOf(m));
  }

  lemma ListStep(s: State, h: nat, c: Choice, home: Home, s': State)
    requires Inv(s, home) == true && Inv(s', home) == true && Enabled(s, h, c, home) && s' == Step(s, h, c, home)
    requires Alone(|s.pcs|, home) && ListOk(ListingOf(s), s.pcs)
    ensures ListOk(ListingOf(s'), s'.pcs)
  {
    var e := Act(s, h, c, home);
    var m := Memory(s, h, e.op);
    assert ListingOf(s') == ListingOf(m) && s'.pcs == s.pcs[h := e.pc];
    if Inserting(s.pcs[h]) || Inserting(e.pc) {
      forall k | 0 <= k < |s.pcs| && k != h
        ensures !Inserting(s.pcs[k])
      {
        OthersWait(s, h, c, home, s', k);
      }
      if Inserting(s.pcs[h]) {
        InsertingStep(s, home, h, e, m);
      } else {
        assert NoneInserting(s.pcs);
        StartInserting(s, h, c, home, m);
      }
      OnlyOne(ListingOf(m), s.pcs, h, e.pc);
    } else {
      ListUntouched(s, h, c, home, s');
      Bystander(ListingOf(s), s.pcs, h, e.pc);
    }
  }

  lemma ListInit(s: State, home: Home)
    requires Init(s, home)
    ensures ListSound(s) == true
  {
    var v := ListingOf(s);
    assert LinkAt(v.next, v.prev, v.order, 0);
    assert v.table[SEED] == s.tail;
    assert Whole(v) && Framed(v);
  }

  lemma SameThreads(s: State, s': State, home: Home)
    requires Next(s, s', home)
    ensures |s'.pcs| == |s.pcs|
  {
  }

  lemma ListNext(s: State, s': State, home: Home)
    requires Inv(s, home) == true && Inv(s', home) == true && Next(s, s', home)
    requires Alone(|s.pcs|, home) && ListSound(s) == true
    ensures ListSound(s') == true
  {
    var h: nat, c: Choice :| Enabled(s, h, c, home) && s' == Step(s, h, c, home);
    assert Listed(0);
    ListStep(s, h, c, home, s');
  }

  lemma ListFollows(run: seq<State>, home: Home, k: nat)
    requires Run(run, home) && 0 < k < |run| && Alone(|run[k - 1].pcs|, home) && ListSound(run[k - 1]) == true
    ensures ListSound(run[k]) == true
  {
    RunInv(run, home, k - 1);
    RunInv(run, home, k);
    assert Follows(run, k, home);
    ListNext(run[k - 1], run[k], home);
  }

  lemma {:induction false} ListAlways(run: seq<State>, home: Home, k: nat)
    requires Run(run, home) && k < |run| && Alone(|run[k].pcs|, home)
    ensures ListSound(run[k]) == true
  {
    if k == 0 {
      assert Begun(0);
      ListInit(run[0], home);
    } else {
      assert Follows(run, k, home);
      SameThreads(run[k - 1], run[k], home);
      ListAlways(run, home, k - 1);
      ListFollows(run, home, k);
    }
  }

  /** What a run comes to when no thread is inserting. */
  lemma ListAtRest(v: Listing, pcs: seq<Pc>)
    requires ListOk(v, pcs) == true && NoneInserting(pcs)
    ensures Framed(v) && Whole(v)
  {
    assert ListBody(v, Idle);
  }

  // ----- the theorem

  ghost predicate AllIdle(s: State)
  {
    forall h :: 0 <= h < |s.pcs| ==> s.pcs[h] == Idle
  }

  /** Following next from the seed's entry leads through exactly the entries of the table, and back by prev. */
  ghost predicate ListExact(s: State, order: seq<Node>)
  {
    && order != [] && SEED in s.table && order[0] == s.table[SEED] && order[|order| - 1] == s.tail
    && ListOf(s.next, s.prev, order) && Filed(s.table, order)
  }

  ghost predicate Exact(s: State)
  {
    s.numItems == |s.table| && exists order :: ListExact(s, order)
  }

  lemma ReachableList(s: State, home: Home)
    requires Reachable(s, home) && Alone(|s.pcs|, home)
    ensures ListSound(s) == true
  {
    assert Asked(0);
    var run :| Run(run, home) && run[|run| - 1] == s;
    ListAlways(run, home, |run| - 1);
  }

  /** Without overlapping insertions, list and item count are exact whenever no visit is under way. */
  lemma ExactWhenAlone(s: State, home: Home)
    requires Reachable(s, home) && Alone(|s.pcs|, home) && AllIdle(s)
    ensures Exact(s)
  {
    ReachableList(s, home);
    assert Listed(0);
    ListAtRest(ListingOf(s), s.pcs);
    assert ListExact(s, s.order);
  }

  /**
   * For any number of threads and any assignment of addresses to buckets: list and item count are exact
   * after every run that comes to rest, if and only if there are fewer than two threads or only one
   * bucket that an address can be inserted into.
   */
  lemma ExactIffAlone(threads: nat, num: nat, home: Home)
    requires num > 0 && forall a :: home(a) < num
    ensures (forall s :: Reachable(s, home) && |s.pcs| == threads && AllIdle(s) ==> Exact(s)) <==> Alone(threads, home)
  {
    if Alone(threads, home) {
      forall s | Reachable(s, home) && |s.pcs| == threads && AllIdle(s)
        ensures Exact(s)
      {
        ExactWhenAlone(s, home);
      }
    } else {
      var a, d :| a != 0 && d != 0 && a != SEED && d != SEED && home(a) != home(d);
      SeededIsInitial(threads, num, 1, home);
      var s := ItemCountCanBeWrong(Seeded(threads, num, 1, home), home, a, d);
      assert !Exact(s);
    }
  }
}
