/**
 * The address map shared by the traversal threads: visit's find-then-add under the lock of the
 * address's bucket (transform.c, cstrider_api.c), over the table of uthash_nxform.h.
 *
 * A step is one lock operation, one callback, one access to a bucket or its items under the lock, or
 * one read or one write of the rest: the list through the whole table and the item count, which no
 * lock guards.
 * The theorems hold for any number of threads and buckets and any interleaving.
 */
module ParallelMap {
  import opened Links

  type Addr = int

  /** The entry the table is initialised with. */
  const SEED: Addr := 0xFFFF_FFFF

  datatype Entry = Entry(key: Addr, addr: Addr, hhNext: Node, hhPrev: Node)

  datatype Bucket = Bucket(head: Node, count: int)

  /** Where NXHASH_ADD_KEYPTR is: the access it makes next. */
  datatype Insertion =
    | LoadTail | TailNext(t: Node)            // tail->next = add
    | LoadLast | Prev(t: Node)                // add->prev = tail
    | Tail                                    // tail = add
    | ReadNum | WriteNum(k: int)              // num_items++
    | Count | HhNext | HhPrev | Back | Head   // NXHASH_ADD_TO_BKT

  /** The entry is being put into its bucket, under the lock. */
  predicate InBucket(at: Insertion) { at.Count? || at.HhNext? || at.HhPrev? || at.Back? || at.Head? }

  /** Where a visit is, with the bucket of its address locked. */
  datatype Stage =
    | Look                                    // find_mapping in visit, before it reads the chain
    | Walk(cur: Node)                         // at an item of the chain
    | Call                                    // not found: the first-visit callback
    | Again(o: Addr)                          // find_mapping in add_mapping
    | Rewalk(o: Addr, cur: Node)
    | Make(o: Addr)                           // not found: a new entry
    | Insert(o: Addr, n: Node, at: Insertion)
    | Leave                                   // the unlock

  datatype Pc = Idle | Busy(a: Addr, stage: Stage)

  /** The callbacks: first visits with the address they chose, later visits with the one they were given. */
  datatype Event = First(thread: nat, a: Addr, o: Addr) | Seen(thread: nat, a: Addr, o: Addr)

  /**
   * The shared memory, and three auxiliary records: the chains, the entry of each mapped address, and
   * the nodes that have been the tail of the list, in order.
   */
  datatype State = State(
    pcs: seq<Pc>, holders: seq<int>,
    buckets: seq<Bucket>, nodes: map<Node, Entry>,
    next: Field, prev: Field, tail: Node, numItems: int,
    log: seq<Event>, chains: seq<seq<Node>>, table: map<Addr, Node>, order: seq<Node>)

  /** What the environment decides: the address visited, the callback's answer, the allocated node. */
  datatype Choice = Go | Start(a: Addr) | Null(o: Addr) | Answer(o: Addr) | New(n: Node)

  type Home = Addr -> nat

  predicate Sized(s: State)
  {
    |s.holders| == |s.buckets| == |s.chains| > 0
  }

  /** The callback maps a non-null address to a non-null one; allocation returns a new node. */
  predicate Enabled(s: State, h: nat, c: Choice, home: Home)
  {
    && Sized(s) && h < |s.pcs|
    && match s.pcs[h]
       case Idle => (c.Start? && c.a != 0 && home(c.a) < |s.holders| && s.holders[home(c.a)] == -1) || c.Null?
       case Busy(_, Call) => c.Answer? && c.o != 0
       case Busy(_, Make(_)) => c.New? && c.n != 0 && c.n !in s.nodes
       case Busy(_, _) => c.Go?
  }

  function Get(nodes: map<Node, Entry>, n: Node): Entry
  {
    if n in nodes then nodes[n] else Entry(0, 0, 0, 0)
  }

  function BucketAt(buckets: seq<Bucket>, b: nat): Bucket
  {
    if b < |buckets| then buckets[b] else Bucket(0, 0)
  }

  /** What a step does to the shared memory. */
  datatype Op =
    | Nothing
    | Acquire(b: nat)
    | Release(b: nat)
    | Note(e: Event)
    | Create(n: Node, a: Addr, o: Addr)
    | SetNext(t: Node, n: Node)
    | SetPrev(n: Node, t: Node)
    | SetTail(n: Node)
    | SetNum(k: int)
    | SetCount(b: nat, k: int)
    | SetHhNext(n: Node, v: Node)
    | SetHhPrev(n: Node, v: Node)
    | Publish(b: nat, n: Node, a: Addr)

  datatype Effect = Effect(pc: Pc, op: Op)

  /** One step of NXHASH_ADD_KEYPTR for node `n`. */
  function InsertStep(s: State, a: Addr, o: Addr, n: Node, at: Insertion, b: nat): Effect
  {
    var bucket := BucketAt(s.buckets, b);
    match at
    case LoadTail => Effect(Busy(a, Insert(o, n, TailNext(s.tail))), Nothing)
    case TailNext(t) => Effect(Busy(a, Insert(o, n, LoadLast)), SetNext(t, n))
    case LoadLast => Effect(Busy(a, Insert(o, n, Prev(s.tail))), Nothing)
    case Prev(t) => Effect(Busy(a, Insert(o, n, Tail)), SetPrev(n, t))
    case Tail => Effect(Busy(a, Insert(o, n, ReadNum)), SetTail(n))
    case ReadNum => Effect(Busy(a, Insert(o, n, WriteNum(s.numItems))), Nothing)
    case WriteNum(k) => Effect(Busy(a, Insert(o, n, Count)), SetNum(k + 1))
    case Count => Effect(Busy(a, Insert(o, n, HhNext)), SetCount(b, bucket.count + 1))
    case HhNext => Effect(Busy(a, Insert(o, n, HhPrev)), SetHhNext(n, bucket.head))
    case HhPrev => Effect(Busy(a, Insert(o, n, Back)), SetHhPrev(n, 0))
    case Back => Effect(Busy(a, Insert(o, n, Head)), if bucket.head != 0 then SetHhPrev(bucket.head, n) else Nothing)
    case Head => Effect(Busy(a, Leave), Publish(b, n, a))
  }

  function Act(s: State, h: nat, c: Choice, home: Home): Effect
    requires Enabled(s, h, c, home)
  {
    match s.pcs[h]
    case Idle => if c.Null? then Effect(Idle, Note(First(h, 0, c.o))) else Effect(Busy(c.a, Look), Acquire(home(c.a)))
    case Busy(a, stage) =>
      match stage
      case Look => Effect(Busy(a, Walk(BucketAt(s.buckets, home(a)).head)), Nothing)
      case Walk(cur) =>
        var e := Get(s.nodes, cur);
        if cur == 0 then Effect(Busy(a, Call), Nothing)
        else if e.key != a then Effect(Busy(a, Walk(e.hhNext)), Nothing)
        else if e.addr == 0 then Effect(Busy(a, Call), Nothing)
        else Effect(Busy(a, Leave), Note(Seen(h, a, e.addr)))
      case Call => Effect(Busy(a, Again(c.o)), Note(First(h, a, c.o)))
      case Again(o) => Effect(Busy(a, Rewalk(o, BucketAt(s.buckets, home(a)).head)), Nothing)
      case Rewalk(o, cur) =>
        var e := Get(s.nodes, cur);
        if cur == 0 then Effect(Busy(a, Make(o)), Nothing)
        else if e.key != a then Effect(Busy(a, Rewalk(o, e.hhNext)), Nothing)
        else if e.addr == 0 then Effect(Busy(a, Make(o)), Nothing)
        else Effect(Busy(a, Leave), Nothing)
      case Make(o) => Effect(Busy(a, Insert(o, c.n, LoadTail)), Create(c.n, a, o))
      case Insert(o, n, at) => InsertStep(s, a, o, n, at, home(a))
      case Leave => Effect(Idle, Release(home(a)))
  }

  function Memory(s: State, h: nat, op: Op): (s': State)
    ensures Sized(s) ==> Sized(s') && |s'.holders| == |s.holders| && s'.pcs == s.pcs
  {
    match op
    case Nothing => s
    case Acquire(b) => if b < |s.holders| then s.(holders := s.holders[b := h]) else s
    case Release(b) => if b < |s.holders| then s.(holders := s.holders[b := -1]) else s
    case Note(e) => s.(log := s.log + [e])
    case Create(n, a, o) => s.(nodes := s.nodes[n := Entry(a, o, 0, 0)], next := s.next[n := 0])
    case SetNext(t, n) => s.(next := s.next[t := n])
    case SetPrev(n, t) => s.(prev := s.prev[n := t])
    case SetTail(n) => s.(tail := n, order := s.order + [n])
    case SetNum(k) => s.(numItems := k)
    case SetCount(b, k) => if b < |s.buckets| then s.(buckets := s.buckets[b := s.buckets[b].(count := k)]) else s
    case SetHhNext(n, v) => s.(nodes := s.nodes[n := Get(s.nodes, n).(hhNext := v)])
    case SetHhPrev(n, v) => s.(nodes := s.nodes[n := Get(s.nodes, n).(hhPrev := v)])
    case Publish(b, n, a) =>
      if b < |s.buckets| && b < |s.chains| then
        s.(buckets := s.buckets[b := s.buckets[b].(head := n)], chains := s.chains[b := [n] + s.chains[b]],
            table := s.table[a := n])
      else s
  }

  function Step(s: State, h: nat, c: Choice, home: Home): (r: State)
    requires Enabled(s, h, c, home)
    ensures Sized(r) && |r.holders| == |s.holders| && |r.pcs| == |s.pcs|
  {
    var e := Act(s, h, c, home);
    var s' := Memory(s, h, e.op);
    s'.(pcs := s.pcs[h := e.pc])
  }

  /** After init_parallel_tbls: one entry, no lock taken, every thread between visits. */
  ghost predicate Init(s: State, home: Home)
  {
    && Sized(s) && (forall a :: home(a) < |s.buckets|)
    && (forall h :: 0 <= h < |s.pcs| ==> s.pcs[h] == Idle) && (forall b :: 0 <= b < |s.holders| ==> s.holders[b] == -1)
    && s.log == [] && s.tail != 0 && s.numItems == 1 && s.order == [s.tail] && At(s.next, s.tail) == 0
        && At(s.prev, s.tail) == 0
    && s.nodes == map[s.tail := Entry(SEED, SEED, 0, 0)] && s.table == map[SEED := s.tail]
    && (forall b :: 0 <= b < |s.buckets| ==>
          s.buckets[b] == (if b == home(SEED) then Bucket(s.tail, 1) else Bucket(0, 0))
              && s.chains[b] == if b == home(SEED) then [s.tail] else [])
  }

  ghost predicate Next(s: State, s': State, home: Home)
  {
    exists h: nat, c: Choice :: Enabled(s, h, c, home) && s' == Step(s, h, c, home)
  }

  ghost predicate Begun(i: int) { true }

  /** `Init`, in view only where `Begun` is mentioned. */
  ghost predicate Starts(s: State, home: Home)
  {
    (forall i {:trigger Begun(i)} :: Begun(i) ==> Init(s, home)) == true
  }

  ghost predicate Run(run: seq<State>, home: Home)
  {
    && run != [] && Starts(run[0], home)
    && (forall i {:trigger Follows(run, i, home)} :: 0 < i < |run| ==> Follows(run, i, home))
  }

  ghost predicate Follows(run: seq<State>, i: nat, home: Home)
    requires 0 < i < |run|
  {
    Next(run[i - 1], run[i], home)
  }

  // ----- the invariant of one bucket

  /** Item `i` of a chain; `front` is what the first item points back to. */
  ghost predicate Linked(nodes: map<Node, Entry>, c: seq<Node>, front: Node, i: nat)
    requires i < |c|
  {
    c[i] in nodes && c[i] != 0 && nodes[c[i]].hhNext == Nth(c, i + 1)
        && nodes[c[i]].hhPrev == if i == 0 then front else c[i - 1]
  }

  ghost predicate Chained(nodes: map<Node, Entry>, c: seq<Node>, front: Node)
  {
    Distinct(c) && forall i {:trigger Linked(nodes, c, front, i)} :: 0 <= i < |c| ==> Linked(nodes, c, front, i)
  }

  /** The chain of bucket `b` holds exactly the entries of the mapped addresses that belong there. */
  ghost predicate Mapped(nodes: map<Node, Entry>, c: seq<Node>, table: map<Addr, Node>, home: Home, b: nat)
  {
    && (forall n :: n in c ==>
          n in nodes && nodes[n].addr != 0 && home(nodes[n].key) == b && nodes[n].key in table
          && table[nodes[n].key] == n)
    && (forall a :: a in table && home(a) == b ==> table[a] in c && table[a] in nodes && nodes[table[a]].key == a)
  }

  ghost predicate WalkedTo(nodes: map<Node, Entry>, c: seq<Node>, a: Addr, cur: Node)
  {
    exists p {:trigger Nth(c, p)} :: 0 <= p <= |c| && cur == Nth(c, p) && forall j :: 0 <= j < p ==>
          Get(nodes, c[j]).key != a
  }

  ghost predicate InsertionOk(e: Entry, bucket: Bucket, at: Insertion)
  {
    match at
    case HhPrev => e.hhNext == bucket.head
    case Back => e.hhNext == bucket.head && e.hhPrev == 0
    case Head => e.hhNext == bucket.head && e.hhPrev == 0
    case _ => true
  }

  /** The new entry of an insertion. */
  ghost predicate NewOk(nodes: map<Node, Entry>, bucket: Bucket, c: seq<Node>, a: Addr, o: Addr, n: Node, at: Insertion)
  {
    n != 0 && n !in c && n in nodes && nodes[n].key == a && nodes[n].addr == o && InsertionOk(nodes[n], bucket, at)
  }

  ghost predicate StageOk(nodes: map<Node, Entry>, bucket: Bucket, c: seq<Node>, table: map<Addr, Node>, pc: Pc)
  {
    match pc
    case Idle => true
    case Busy(a, stage) =>
      match stage
      case Look => true
      case Walk(cur) => WalkedTo(nodes, c, a, cur)
      case Call => a !in table
      case Again(o) => a !in table && o != 0
      case Rewalk(o, cur) => a !in table && o != 0 && WalkedTo(nodes, c, a, cur)
      case Make(o) => a !in table && o != 0
      case Insert(o, n, at) => a !in table && o != 0 && NewOk(nodes, bucket, c, a, o, n, at)
      case Leave => a in table
  }

  /** One when the count is ahead of the chain. */
  function Ahead(pc: Pc): int
  {
    match pc
    case Busy(_, Insert(_, _, HhNext)) => 1
    case Busy(_, Insert(_, _, HhPrev)) => 1
    case Busy(_, Insert(_, _, Back)) => 1
    case Busy(_, Insert(_, _, Head)) => 1
    case _ => 0
  }

  /** What the first item of the chain points back to. */
  function FrontOf(pc: Pc): Node
  {
    match pc
    case Busy(_, Insert(_, n, Head)) => n
    case _ => 0
  }

  /** A first visit that is not in the table yet. */
  function Pending(pc: Pc, a: Addr): seq<Addr>
  {
    match pc
    case Idle => []
    case Busy(k, stage) =>
      if k != a then [] else
      match stage
      case Again(o) => [o]
      case Rewalk(o, _) => [o]
      case Make(o) => [o]
      case Insert(o, _, _) => [o]
      case _ => []
  }

  /** The answers of the first-visit callbacks for an address, in order. */
  function Firsts(log: seq<Event>, a: Addr): seq<Addr>
  {
    if log == [] then []
    else
      var e := log[|log| - 1];
      Firsts(log[..|log| - 1], a) + (if e.First? && e.a == a then [e.o] else [])
  }

  function Expected(nodes: map<Node, Entry>, table: map<Addr, Node>, pc: Pc, a: Addr): seq<Addr>
  {
    if a !in table then Pending(pc, a) else if a == SEED then [] else [Get(nodes, table[a]).addr]
  }

  ghost predicate Logged(log: seq<Event>, nodes: map<Node, Entry>, table: map<Addr, Node>, pc: Pc, home: Home, b: nat)
  {
    forall a {:trigger Firsts(log, a)} :: a != 0 && home(a) == b ==> Firsts(log, a) == Expected(nodes, table, pc, a)
  }

  /** What concerns one bucket, with the program counter of the thread that holds it. */
  datatype View = View(pc: Pc, bucket: Bucket, c: seq<Node>, nodes: map<Node, Entry>, table: map<Addr, Node>,
      log: seq<Event>)

  ghost predicate BucketBody(v: View, home: Home, b: nat)
  {
    match v
    case View(pc, bucket, c, nodes, table, log) =>
      && Chained(nodes, c, FrontOf(pc)) && bucket.head == Nth(c, 0) && bucket.count == |c| + Ahead(pc)
      && Mapped(nodes, c, table, home, b) && StageOk(nodes, bucket, c, table, pc)
          && Logged(log, nodes, table, pc, home, b)
      && (pc.Busy? ==> home(pc.a) == b && pc.a != 0)
      && (SEED in table && (home(SEED) == b ==> table[SEED] in nodes && nodes[table[SEED]].addr == SEED))
  }

  ghost predicate Opened(i: int) { true }

  /** `BucketBody`, in view only where `Opened` is mentioned. */
  ghost predicate BucketOk(v: View, home: Home, b: nat)
  {
    (forall i {:trigger Opened(i)} :: Opened(i) ==> BucketBody(v, home, b)) == true
  }

  function HolderPc(s: State, b: nat): Pc
    requires b < |s.holders|
  {
    if 0 <= s.holders[b] < |s.pcs| then s.pcs[s.holders[b]] else Idle
  }

  function ViewOf(s: State, b: nat): View
    requires Sized(s) && b < |s.holders|
  {
    View(HolderPc(s, b), s.buckets[b], s.chains[b], s.nodes, s.table, s.log)
  }

  /** A thread in a visit holds the lock of its bucket, and nobody else holds it. */
  ghost predicate LocksOk(pcs: seq<Pc>, holders: seq<int>, home: Home)
  {
    && (forall h :: 0 <= h < |pcs| && pcs[h].Busy? ==> home(pcs[h].a) < |holders| && holders[home(pcs[h].a)] == h)
    && (forall b :: 0 <= b < |holders| && holders[b] != -1 ==>
          0 <= holders[b] < |pcs| && pcs[holders[b]].Busy? && home(pcs[holders[b]].a) == b)
  }

  /** A later visit was given what an earlier first visit chose. */
  ghost predicate Backed(log: seq<Event>, j: nat)
    requires j < |log|
  {
    log[j].Seen? ==> (log[j].a == SEED && log[j].o == SEED) || exists i ::
          0 <= i < j && log[i].First? && log[i].a == log[j].a && log[i].o == log[j].o
  }

  ghost predicate AllBacked(log: seq<Event>)
  {
    forall j {:trigger Backed(log, j)} :: 0 <= j < |log| ==> Backed(log, j)
  }

  ghost predicate Inv(s: State, home: Home)
  {
    && Sized(s) && (forall a :: home(a) < |s.holders|) && LocksOk(s.pcs, s.holders, home) && AllBacked(s.log)
        && s.tail in s.nodes
    && (forall b {:trigger ViewOf(s, b)} :: 0 <= b < |s.holders| ==> BucketOk(ViewOf(s, b), home, b))
  }

  // ----- steps, as one bucket sees them

  lemma Facts(v: View, home: Home, b: nat)
    requires BucketOk(v, home, b)
    ensures BucketBody(v, home, b)
  {
    assert Opened(0);
  }

  /** A step that concerns other buckets. */
  lemma Elsewhere(v: View, v': View, home: Home, b: nat)
    requires BucketOk(v, home, b) && v'.pc == v.pc && v'.bucket == v.bucket && v'.c == v.c
    requires forall n :: n in v.nodes && home(v.nodes[n].key) == b ==> n in v'.nodes && v'.nodes[n] == v.nodes[n]
    requires forall a :: home(a) == b ==>
          (a in v'.table <==> a in v.table) && (a in v.table ==> v'.table[a] == v.table[a])
    requires forall a {:trigger Firsts(v'.log, a)} :: a != 0 && home(a) == b ==> Firsts(v'.log, a) == Firsts(v.log, a)
    requires SEED in v'.table
    ensures BucketOk(v', home, b)
  {
    Facts(v, home, b);
    assert Chained(v'.nodes, v'.c, FrontOf(v'.pc)) by {
      forall i | 0 <= i < |v'.c|
        ensures Linked(v'.nodes, v'.c, FrontOf(v'.pc), i)
      {
        assert Linked(v.nodes, v.c, FrontOf(v.pc), i) && v.c[i] in v.c;
      }
    }
    StageElsewhere(v, v', home, b);
  }

  lemma StageElsewhere(v: View, v': View, home: Home, b: nat)
    requires BucketBody(v, home, b) && v'.pc == v.pc && v'.bucket == v.bucket && v'.c == v.c
    requires forall n :: n in v.nodes && home(v.nodes[n].key) == b ==> n in v'.nodes && v'.nodes[n] == v.nodes[n]
    requires forall a :: home(a) == b ==> (a in v'.table <==> a in v.table)
    ensures StageOk(v'.nodes, v'.bucket, v'.c, v'.table, v'.pc)
  {
    assert forall n :: n in v.c ==> Get(v'.nodes, n) == Get(v.nodes, n);
    if v.pc.Busy? && (v.pc.stage.Walk? || v.pc.stage.Rewalk?) {
      WalkedFrame(v.nodes, v'.nodes, v.c, v.pc.a, v.pc.stage.cur);
    }
  }

  lemma WalkedFrame(nodes: map<Node, Entry>, nodes': map<Node, Entry>, c: seq<Node>, a: Addr, cur: Node)
    requires WalkedTo(nodes, c, a, cur) && forall n :: n in c ==> Get(nodes', n).key == Get(nodes, n).key
    ensures WalkedTo(nodes', c, a, cur)
  {
    var p :| 0 <= p <= |c| && cur == Nth(c, p) && forall j :: 0 <= j < p ==> Get(nodes, c[j]).key != a;
    assert forall j :: 0 <= j < p ==> c[j] in c;
  }

  /** The thread in the bucket moves on without writing to it. */
  lemma Advance(v: View, pc: Pc, home: Home, b: nat)
    requires BucketOk(v, home, b) && FrontOf(pc) == FrontOf(v.pc) && Ahead(pc) == Ahead(v.pc)
    requires StageOk(v.nodes, v.bucket, v.c, v.table, pc) && (pc.Busy? ==> home(pc.a) == b && pc.a != 0)
    requires forall a :: a !in v.table ==> Pending(pc, a) == Pending(v.pc, a)
    ensures BucketOk(v.(pc := pc), home, b)
  {
    Facts(v, home, b);
  }

  /** A bucket being read: its first item, its items, and what the end of the walk means. */
  lemma WalkStart(v: View, home: Home, b: nat, a: Addr)
    requires BucketOk(v, home, b)
    ensures WalkedTo(v.nodes, v.c, a, v.bucket.head)
  {
    Facts(v, home, b);
    assert v.bucket.head == Nth(v.c, 0);
  }

  lemma WalkNext(v: View, home: Home, b: nat, a: Addr, cur: Node)
    requires BucketOk(v, home, b) && WalkedTo(v.nodes, v.c, a, cur) && cur != 0
    ensures cur in v.c && cur in v.nodes
    ensures v.nodes[cur].key != a ==> WalkedTo(v.nodes, v.c, a, v.nodes[cur].hhNext)
    ensures v.nodes[cur].key == a ==> a in v.table && v.table[a] == cur && v.nodes[cur].addr != 0
  {
    Facts(v, home, b);
    var p :| 0 <= p <= |v.c| && cur == Nth(v.c, p) && forall j :: 0 <= j < p ==> Get(v.nodes, v.c[j]).key != a;
    assert Linked(v.nodes, v.c, FrontOf(v.pc), p);
    if v.nodes[cur].key != a {
      assert v.nodes[cur].hhNext == Nth(v.c, p + 1);
    }
  }

  lemma WalkEnd(v: View, home: Home, b: nat, a: Addr)
    requires BucketOk(v, home, b) && WalkedTo(v.nodes, v.c, a, 0) && home(a) == b
    ensures a !in v.table
  {
    Facts(v, home, b);
    NoNull(v.nodes, v.c, FrontOf(v.pc));
    var p :| 0 <= p <= |v.c| && 0 == Nth(v.c, p) && forall j :: 0 <= j < p ==> Get(v.nodes, v.c[j]).key != a;
    assert forall n :: n in v.c ==> Get(v.nodes, n).key != a;
  }

  lemma NoNull(nodes: map<Node, Entry>, c: seq<Node>, front: Node)
    requires Chained(nodes, c, front)
    ensures forall i :: 0 <= i < |c| ==> c[i] != 0
  {
    forall i | 0 <= i < |c|
      ensures c[i] != 0
    {
      assert Linked(nodes, c, front, i);
    }
  }

  lemma FirstsMore(log: seq<Event>, e: Event, a: Addr)
    ensures Firsts(log + [e], a) == Firsts(log, a) + (if e.First? && e.a == a then [e.o] else [])
  {
    assert (log + [e])[..|log|] == log;
  }

  /** A later visit: the callback is given the mapping. */
  lemma NoteSeen(v: View, home: Home, b: nat, e: Event, pc: Pc)
    requires BucketOk(v, home, b) && e.Seen? && v.pc.Busy? && v.pc.stage.Walk? && pc == Busy(v.pc.a, Leave)
        && v.pc.a in v.table
    ensures BucketOk(v.(pc := pc, log := v.log + [e]), home, b)
  {
    Facts(v, home, b);
    forall a
      ensures Firsts(v.log + [e], a) == Firsts(v.log, a)
    {
      FirstsMore(v.log, e, a);
    }
  }

  /** The first visit: the callback chooses the mapping. */
  lemma NoteFirst(v: View, home: Home, b: nat, e: Event, pc: Pc)
    requires BucketOk(v, home, b) && v.pc.Busy? && v.pc.stage.Call? && e.First? && e.a == v.pc.a && e.o != 0
    requires pc == Busy(v.pc.a, Again(e.o))
    ensures BucketOk(v.(pc := pc, log := v.log + [e]), home, b)
  {
    Facts(v, home, b);
    forall a | a != 0 && home(a) == b
      ensures Firsts(v.log + [e], a) == Expected(v.nodes, v.table, pc, a)
    {
      FirstsMore(v.log, e, a);
      assert Firsts(v.log, a) == Expected(v.nodes, v.table, v.pc, a);
    }
  }

  /** Nodes outside the chain may change. */
  lemma ChainFrame(nodes: map<Node, Entry>, nodes': map<Node, Entry>, c: seq<Node>, front: Node)
    requires Chained(nodes, c, front) && forall n :: n in c ==> n in nodes' && n in nodes && nodes'[n] == nodes[n]
    ensures Chained(nodes', c, front)
  {
    forall i | 0 <= i < |c|
      ensures Linked(nodes', c, front, i)
    {
      assert Linked(nodes, c, front, i) && c[i] in c;
    }
  }

  /** A write to the new entry, or its creation. */
  lemma OwnNode(v: View, home: Home, b: nat, n: Node, e: Entry, pc: Pc)
    requires BucketOk(v, home, b) && n !in v.c && v.pc.Busy? && pc.Busy? && pc.a == v.pc.a
        && FrontOf(pc) == FrontOf(v.pc) && Ahead(pc) == Ahead(v.pc)
    requires StageOk(v.nodes[n := e], v.bucket, v.c, v.table, pc)
    requires forall a :: a !in v.table ==> Pending(pc, a) == Pending(v.pc, a)
    ensures BucketOk(v.(pc := pc, nodes := v.nodes[n := e]), home, b)
  {
    Facts(v, home, b);
    var nodes' := v.nodes[n := e];
    ChainFrame(v.nodes, nodes', v.c, FrontOf(v.pc));
    forall a | a != 0 && home(a) == b
      ensures Firsts(v.log, a) == Expected(nodes', v.table, pc, a)
    {
      assert Firsts(v.log, a) == Expected(v.nodes, v.table, v.pc, a);
    }
  }

  lemma CountStep(v: View, home: Home, b: nat, pc: Pc)
    requires BucketOk(v, home, b) && v.pc.Busy? && v.pc.stage.Insert? && v.pc.stage.at == Count
    requires pc == Busy(v.pc.a, v.pc.stage.(at := HhNext))
    ensures BucketOk(v.(pc := pc, bucket := v.bucket.(count := v.bucket.count + 1)), home, b)
  {
    Facts(v, home, b);
    forall a | a != 0 && home(a) == b
      ensures Firsts(v.log, a) == Expected(v.nodes, v.table, pc, a)
    {
      assert Firsts(v.log, a) == Expected(v.nodes, v.table, v.pc, a);
    }
  }

  /** The old first item points back to the new one. */
  lemma BackChain(nodes: map<Node, Entry>, c: seq<Node>, n: Node)
    requires Chained(nodes, c, 0) && c != []
    ensures c[0] in nodes && Chained(nodes[c[0] := nodes[c[0]].(hhPrev := n)], c, n)
  {
    assert Linked(nodes, c, 0, 0);
    var nodes' := nodes[c[0] := nodes[c[0]].(hhPrev := n)];
    forall i | 0 <= i < |c|
      ensures Linked(nodes', c, n, i)
    {
      assert Linked(nodes, c, 0, i);
    }
  }

  lemma BackStep(v: View, home: Home, b: nat, pc: Pc, nodes: map<Node, Entry>)
    requires BucketOk(v, home, b) && v.pc.Busy? && v.pc.stage.Insert? && v.pc.stage.at == Back
    requires pc == Busy(v.pc.a, v.pc.stage.(at := Head))
    requires nodes == if v.bucket.head != 0 then v.nodes[v.bucket.head := Get(v.nodes,
        v.bucket.head).(hhPrev := v.pc.stage.n)] else v.nodes
    ensures BucketOk(v.(pc := pc, nodes := nodes), home, b)
  {
    Facts(v, home, b);
    if v.c != [] {
      assert Linked(v.nodes, v.c, 0, 0);
      BackChain(v.nodes, v.c, v.pc.stage.n);
    }
    forall a | a != 0 && home(a) == b
      ensures Firsts(v.log, a) == Expected(nodes, v.table, pc, a)
    {
      assert Firsts(v.log, a) == Expected(v.nodes, v.table, v.pc, a);
    }
  }

  lemma PublishChain(nodes: map<Node, Entry>, c: seq<Node>, n: Node)
    requires Chained(nodes, c, n) && n != 0 && n !in c && n in nodes && nodes[n].hhNext == Nth(c, 0)
        && nodes[n].hhPrev == 0
    ensures Chained(nodes, [n] + c, 0)
  {
    var c' := [n] + c;
    forall i | 0 <= i < |c'|
      ensures Linked(nodes, c', 0, i)
    {
      if i > 0 {
        assert Linked(nodes, c, n, i - 1);
      }
    }
  }

  lemma PublishMapped(nodes: map<Node, Entry>, c: seq<Node>, table: map<Addr, Node>, home: Home, b: nat, n: Node,
      a: Addr)
    requires Mapped(nodes, c, table, home, b) && n in nodes && nodes[n].key == a && nodes[n].addr != 0 && home(a) == b
        && a !in table
    ensures Mapped(nodes, [n] + c, table[a := n], home, b)
  {
  }

  lemma HeadStep(v: View, home: Home, b: nat, pc: Pc, n: Node)
    requires BucketOk(v, home, b) && v.pc.Busy? && v.pc.stage.Insert? && v.pc.stage.at == Head && n == v.pc.stage.n
    requires pc == Busy(v.pc.a, Leave)
    ensures BucketOk(v.(pc := pc, bucket := v.bucket.(head := n), c := [n] + v.c, table := v.table[v.pc.a := n]),
        home, b)
  {
    Facts(v, home, b);
    PublishChain(v.nodes, v.c, n);
    PublishMapped(v.nodes, v.c, v.table, home, b, n, v.pc.a);
    var table := v.table[v.pc.a := n];
    forall a | a != 0 && home(a) == b
      ensures Firsts(v.log, a) == Expected(v.nodes, table, pc, a)
    {
      assert Firsts(v.log, a) == Expected(v.nodes, v.table, v.pc, a);
    }
  }

  // ----- every step keeps the invariant

  lemma OwnView(s: State, home: Home, b: nat)
    requires Inv(s, home) && b < |s.holders|
    ensures BucketOk(ViewOf(s, b), home, b)
  {
  }

  /** The thread's own bucket. */
  lemma Holding(s: State, h: nat, home: Home)
    requires Inv(s, home) && h < |s.pcs| && s.pcs[h].Busy?
    ensures home(s.pcs[h].a) < |s.holders| && s.holders[home(s.pcs[h].a)] == h
    ensures BucketOk(ViewOf(s, home(s.pcs[h].a)), home, home(s.pcs[h].a)) && HolderPc(s, home(s.pcs[h].a)) == s.pcs[h]
    ensures s.pcs[h].a != 0
  {
    OwnView(s, home, home(s.pcs[h].a));
    Facts(ViewOf(s, home(s.pcs[h].a)), home, home(s.pcs[h].a));
  }

  /** The operation writes to nothing of buckets other than `b`. */
  ghost predicate Local(op: Op, nodes: map<Node, Entry>, home: Home, b: int)
  {
    match op
    case Acquire(k) => k == b
    case Release(k) => k == b
    case Note(e) => e.a == 0 || home(e.a) == b
    case Create(n, _, _) => n !in nodes
    case SetCount(k, _) => k == b
    case SetHhNext(n, _) => n in nodes && home(nodes[n].key) == b
    case SetHhPrev(n, _) => n in nodes && home(nodes[n].key) == b
    case Publish(k, _, a) => k == b && home(a) == b
    case _ => true
  }

  lemma InsertIsLocal(s: State, h: nat, home: Home, b: nat)
    requires Inv(s, home) && h < |s.pcs| && s.pcs[h].Busy? && s.pcs[h].stage.Insert? && b == home(s.pcs[h].a)
    ensures var p := s.pcs[h]; Local(InsertStep(s, p.a, p.stage.o, p.stage.n, p.stage.at, b).op, s.nodes, home, b)
  {
    Holding(s, h, home);
    var v := ViewOf(s, b);
    Facts(v, home, b);
    assert v.c != [] ==> v.c[0] in v.c;
  }

  lemma StepIsLocal(s: State, h: nat, c: Choice, home: Home)
    requires Inv(s, home) && Enabled(s, h, c, home)
    ensures Local(Act(s, h, c, home).op, s.nodes, home,
        if s.pcs[h].Busy? then home(s.pcs[h].a) else if c.Start? then home(c.a) else -1)
  {
    if s.pcs[h].Busy? && s.pcs[h].stage.Insert? {
      InsertIsLocal(s, h, home, home(s.pcs[h].a));
    }
  }

  lemma FirstsElsewhere(log: seq<Event>, e: Event, home: Home, b: int, b': nat)
    requires (e.a == 0 || home(e.a) == b) && b != b'
    ensures forall a {:trigger Firsts(log + [e], a)} :: a != 0 && home(a) == b' ==>
          Firsts(log + [e], a) == Firsts(log, a)
  {
    forall a | a != 0 && home(a) == b'
      ensures Firsts(log + [e], a) == Firsts(log, a)
    {
      FirstsMore(log, e, a);
    }
  }

  /** An entry that belongs to bucket `b`, or is new, is written. */
  lemma NodeElsewhere(v: View, home: Home, b: int, b': nat, n: Node, e: Entry)
    requires BucketOk(v, home, b') && b != b' && (n in v.nodes ==> home(v.nodes[n].key) == b)
    ensures BucketOk(v.(nodes := v.nodes[n := e]), home, b')
  {
    Facts(v, home, b');
    Elsewhere(v, v.(nodes := v.nodes[n := e]), home, b');
  }

  lemma PublishElsewhere(v: View, home: Home, b: int, b': nat, n: Node, a: Addr)
    requires BucketOk(v, home, b') && b != b' && home(a) == b
    ensures BucketOk(v.(table := v.table[a := n]), home, b')
  {
    Facts(v, home, b');
    Elsewhere(v, v.(table := v.table[a := n]), home, b');
  }

  lemma NoteElsewhere(v: View, home: Home, b: int, b': nat, e: Event)
    requires BucketOk(v, home, b') && b != b' && (e.a == 0 || home(e.a) == b)
    ensures BucketOk(v.(log := v.log + [e]), home, b')
  {
    Facts(v, home, b');
    FirstsElsewhere(v.log, e, home, b, b');
    Elsewhere(v, v.(log := v.log + [e]), home, b');
  }

  /** The views of other buckets, after a local operation. */
  lemma MemoryElsewhere(s: State, h: nat, op: Op, home: Home, b: int, b': nat, s': State)
    requires Inv(s, home) && Local(op, s.nodes, home, b) && b != b' && b' < |s.holders| && s' == Memory(s, h, op)
    ensures s'.holders[b'] == s.holders[b'] && BucketOk(ViewOf(s', b'), home, b')
  {
    var v := ViewOf(s, b');
    OwnView(s, home, b');
    match op
    case Note(e) => NoteElsewhere(v, home, b, b', e);
    case Create(n, a, o) => NodeElsewhere(v, home, b, b', n, Entry(a, o, 0, 0));
    case SetHhNext(n, x) => NodeElsewhere(v, home, b, b', n, Get(s.nodes, n).(hhNext := x));
    case SetHhPrev(n, x) => NodeElsewhere(v, home, b, b', n, Get(s.nodes, n).(hhPrev := x));
    case Publish(_, n, a) => PublishElsewhere(v, home, b, b', n, a);
    case _ =>
  }

  lemma OthersKept(s: State, h: nat, c: Choice, home: Home, b: int, b': nat, s': State)
    requires Inv(s, home) && Enabled(s, h, c, home) && s' == Step(s, h, c, home) && b' < |s.holders| && b != b'
    requires b == if s.pcs[h].Busy? then home(s.pcs[h].a) else if c.Start? then home(c.a) else -1
    ensures BucketOk(ViewOf(s', b'), home, b')
  {
    StepIsLocal(s, h, c, home);
    var op := Act(s, h, c, home).op;
    var m := Memory(s, h, op);
    MemoryElsewhere(s, h, op, home, b, b', m);
    assert HolderPc(s', b') == HolderPc(m, b');
  }

  // ----- the step in its own bucket

  lemma OwnAcquire(s: State, h: nat, c: Choice, home: Home, s': State)
    requires Inv(s, home) && Enabled(s, h, c, home) && s.pcs[h].Idle? && c.Start? && s' == Step(s, h, c, home)
    ensures BucketOk(ViewOf(s', home(c.a)), home, home(c.a))
  {
    var b := home(c.a);
    OwnView(s, home, b);
    Advance(ViewOf(s, b), Busy(c.a, Look), home, b);
    assert ViewOf(s', b) == ViewOf(s, b).(pc := Busy(c.a, Look));
  }

  lemma OwnRelease(s: State, h: nat, c: Choice, home: Home, b: nat, s': State)
    requires Inv(s, home) && Enabled(s, h, c, home) && s.pcs[h].Busy? && s.pcs[h].stage.Leave?
        && b == home(s.pcs[h].a) && s' == Step(s, h, c, home)
    requires b < |s.holders|
    ensures BucketOk(ViewOf(s', b), home, b)
  {
    Holding(s, h, home);
    Advance(ViewOf(s, b), Idle, home, b);
    assert ViewOf(s', b) == ViewOf(s, b).(pc := Idle);
  }

  /** A walk over the chain: on, not found, or found. */
  lemma OwnWalk(s: State, h: nat, c: Choice, home: Home, b: nat, s': State)
    requires Inv(s, home) && Enabled(s, h, c, home) && s.pcs[h].Busy? && b == home(s.pcs[h].a)
        && s' == Step(s, h, c, home) && b < |s.holders|
    requires s.pcs[h].stage.Walk? || s.pcs[h].stage.Rewalk?
    ensures BucketOk(ViewOf(s', b), home, b)
  {
    Holding(s, h, home);
    var v, p := ViewOf(s, b), s.pcs[h];
    Facts(v, home, b);
    if p.stage.cur == 0 {
      WalkEnd(v, home, b, p.a);
    } else {
      WalkNext(v, home, b, p.a, p.stage.cur);
    }
    var e := Act(s, h, c, home);
    if e.op.Note? {
      NoteSeen(v, home, b, e.op.e, e.pc);
    } else {
      Advance(v, e.pc, home, b);
    }
  }

  /** The start of a walk, the callback and the new entry. */
  lemma OwnVisit(s: State, h: nat, c: Choice, home: Home, b: nat, s': State)
    requires Inv(s, home) && Enabled(s, h, c, home) && s.pcs[h].Busy? && b == home(s.pcs[h].a)
        && s' == Step(s, h, c, home) && b < |s.holders|
    requires s.pcs[h].stage.Look? || s.pcs[h].stage.Again? || s.pcs[h].stage.Call? || s.pcs[h].stage.Make?
    ensures BucketOk(ViewOf(s', b), home, b)
  {
    Holding(s, h, home);
    var v, p := ViewOf(s, b), s.pcs[h];
    Facts(v, home, b);
    WalkStart(v, home, b, p.a);
    var e := Act(s, h, c, home);
    match p.stage
    case Call => NoteFirst(v, home, b, e.op.e, e.pc);
    case Make(o) => OwnNode(v, home, b, c.n, Entry(p.a, o, 0, 0), e.pc);
    case _ => Advance(v, e.pc, home, b);
  }

  /** The unlocked writes of an insertion. */
  lemma OwnUnlocked(s: State, h: nat, c: Choice, home: Home, b: nat, s': State)
    requires Inv(s, home) && Enabled(s, h, c, home) && s.pcs[h].Busy? && b == home(s.pcs[h].a)
        && s' == Step(s, h, c, home) && b < |s.holders|
    requires s.pcs[h].stage.Insert?
    requires !InBucket(s.pcs[h].stage.at)
    ensures BucketOk(ViewOf(s', b), home, b)
  {
    Holding(s, h, home);
    var v := ViewOf(s, b);
    Facts(v, home, b);
    Advance(v, Act(s, h, c, home).pc, home, b);
  }

  /** The writes of an insertion to the bucket, before its entry is there. */
  lemma OwnLocked(s: State, h: nat, c: Choice, home: Home, b: nat, s': State)
    requires Inv(s, home) && Enabled(s, h, c, home) && s.pcs[h].Busy? && b == home(s.pcs[h].a)
        && s' == Step(s, h, c, home) && b < |s.holders|
    requires s.pcs[h].stage.Insert?
    requires var i := s.pcs[h].stage.at; i.Count? || i.HhNext? || i.HhPrev?
    ensures BucketOk(ViewOf(s', b), home, b)
  {
    Holding(s, h, home);
    var v, p := ViewOf(s, b), s.pcs[h];
    Facts(v, home, b);
    var pc := Act(s, h, c, home).pc;
    var n := p.stage.n;
    match p.stage.at
    case Count => CountStep(v, home, b, pc);
    case HhNext => OwnNode(v, home, b, n, Get(s.nodes, n).(hhNext := v.bucket.head), pc);
    case HhPrev => OwnNode(v, home, b, n, Get(s.nodes, n).(hhPrev := 0), pc);
  }

  /** The writes of an insertion that put its entry into the chain. */
  lemma OwnLinked(s: State, h: nat, c: Choice, home: Home, b: nat, s': State)
    requires Inv(s, home) && Enabled(s, h, c, home) && s.pcs[h].Busy? && b == home(s.pcs[h].a)
        && s' == Step(s, h, c, home) && b < |s.holders|
    requires s.pcs[h].stage.Insert? && (s.pcs[h].stage.at.Back? || s.pcs[h].stage.at.Head?)
    ensures BucketOk(ViewOf(s', b), home, b)
  {
    Holding(s, h, home);
    var v, p := ViewOf(s, b), s.pcs[h];
    var pc := Act(s, h, c, home).pc;
    if p.stage.at.Back? {
      BackStep(v, home, b, pc, s'.nodes);
    } else {
      HeadStep(v, home, b, pc, p.stage.n);
    }
  }

  lemma OwnKept(s: State, h: nat, c: Choice, home: Home, b: nat, s': State)
    requires Inv(s, home) && Enabled(s, h, c, home) && s.pcs[h].Busy? && b == home(s.pcs[h].a)
        && s' == Step(s, h, c, home) && b < |s.holders|
    ensures BucketOk(ViewOf(s', b), home, b)
  {
    match s.pcs[h].stage
    case Walk(_) => OwnWalk(s, h, c, home, b, s');
    case Rewalk(_, _) => OwnWalk(s, h, c, home, b, s');
    case Leave => OwnRelease(s, h, c, home, b, s');
    case Insert(_, _, at) =>
      if at.Count? || at.HhNext? || at.HhPrev? {
        OwnLocked(s, h, c, home, b, s');
      } else if at.Back? || at.Head? {
        OwnLinked(s, h, c, home, b, s');
      } else {
        OwnUnlocked(s, h, c, home, b, s');
      }
    case _ => OwnVisit(s, h, c, home, b, s');
  }

  lemma ActLocks(s: State, h: nat, c: Choice, home: Home, e: Effect)
    requires Enabled(s, h, c, home) && e == Act(s, h, c, home)
    ensures s.pcs[h].Busy? && e.pc.Busy? ==> e.pc.a == s.pcs[h].a && !e.op.Acquire? && !e.op.Release?
    ensures s.pcs[h].Busy? && e.pc.Idle? ==> e.op == Release(home(s.pcs[h].a))
    ensures s.pcs[h].Idle? && e.pc.Busy? ==>
          e.op == Acquire(home(e.pc.a)) && home(e.pc.a) < |s.holders| && s.holders[home(e.pc.a)] == -1
    ensures s.pcs[h].Idle? && e.pc.Idle? ==> e.op.Note?
  {
  }

  lemma MemoryLocks(s: State, h: nat, op: Op)
    ensures Memory(s, h, op).holders ==
            if op.Acquire? && op.b < |s.holders| then s.holders[op.b := h]
            else if op.Release? && op.b < |s.holders| then s.holders[op.b := -1] else s.holders
  {
  }

  lemma LocksMove(pcs: seq<Pc>, holders: seq<int>, home: Home, h: nat, pc: Pc, holders': seq<int>)
    requires LocksOk(pcs, holders, home) && h < |pcs| && forall a :: home(a) < |holders|
    requires pcs[h].Busy? && pc.Busy? ==> pc.a == pcs[h].a && holders' == holders
    requires pcs[h].Busy? && pc.Idle? ==> holders' == holders[home(pcs[h].a) := -1]
    requires pcs[h].Idle? && pc.Busy? ==> holders[home(pc.a)] == -1 && holders' == holders[home(pc.a) := h]
    requires pcs[h].Idle? && pc.Idle? ==> holders' == holders
    ensures LocksOk(pcs[h := pc], holders', home)
  {
  }

  lemma LocksKept(s: State, h: nat, c: Choice, home: Home, s': State)
    requires Inv(s, home) && Enabled(s, h, c, home) && s' == Step(s, h, c, home)
    ensures LocksOk(s'.pcs, s'.holders, home)
  {
    var e := Act(s, h, c, home);
    ActLocks(s, h, c, home, e);
    MemoryLocks(s, h, e.op);
    LocksMove(s.pcs, s.holders, home, h, e.pc, s'.holders);
  }

  lemma {:induction false} FirstsHas(log: seq<Event>, a: Addr, o: Addr)
    requires Firsts(log, a) == [o]
    ensures exists i :: 0 <= i < |log| && log[i].First? && log[i].a == a && log[i].o == o
  {
    var init, e := log[..|log| - 1], log[|log| - 1];
    if e.First? && e.a == a {
      assert Firsts(log, a)[|Firsts(init, a)|] == e.o;
    } else {
      FirstsHas(init, a, o);
      var i :| 0 <= i < |init| && init[i].First? && init[i].a == a && init[i].o == o;
      assert log[i] == init[i];
    }
  }

  lemma BackedMore(log: seq<Event>, e: Event)
    requires AllBacked(log) && (e.Seen? ==> (e.a == SEED && e.o == SEED) || Firsts(log, e.a) == [e.o])
    ensures AllBacked(log + [e])
  {
    var log' := log + [e];
    forall j | 0 <= j < |log'|
      ensures Backed(log', j)
    {
      if j < |log| {
        assert Backed(log, j);
        if log[j].Seen? && !(log[j].a == SEED && log[j].o == SEED) {
          var i :| 0 <= i < j && log[i].First? && log[i].a == log[j].a && log[i].o == log[j].o;
          assert log'[i] == log[i];
        }
      } else if e.Seen? && !(e.a == SEED && e.o == SEED) {
        FirstsHas(log, e.a, e.o);
        var i :| 0 <= i < |log| && log[i].First? && log[i].a == e.a && log[i].o == e.o;
        assert log'[i] == log[i];
      }
    }
  }

  /** The mapping that a walk finds was chosen by a first visit, or is the seed. */
  lemma FoundIsFirst(v: View, home: Home, b: nat, a: Addr, cur: Node)
    requires BucketOk(v, home, b) && WalkedTo(v.nodes, v.c, a, cur) && cur != 0 && home(a) == b && a != 0
        && Get(v.nodes, cur).key == a
    ensures (a == SEED && Get(v.nodes, cur).addr == SEED) || Firsts(v.log, a) == [Get(v.nodes, cur).addr]
  {
    WalkNext(v, home, b, a, cur);
    Facts(v, home, b);
    assert Firsts(v.log, a) == Expected(v.nodes, v.table, v.pc, a);
  }

  lemma SeenIsFirst(s: State, h: nat, c: Choice, home: Home, e: Event)
    requires Inv(s, home) && Enabled(s, h, c, home) && Act(s, h, c, home).op == Note(e) && e.Seen?
    ensures (e.a == SEED && e.o == SEED) || Firsts(s.log, e.a) == [e.o]
  {
    Holding(s, h, home);
    var p := s.pcs[h];
    var v := ViewOf(s, home(p.a));
    Facts(v, home, home(p.a));
    FoundIsFirst(v, home, home(p.a), p.a, p.stage.cur);
  }

  lemma MemoryLog(s: State, h: nat, op: Op)
    ensures Memory(s, h, op).log == if op.Note? then s.log + [op.e] else s.log
  {
  }

  lemma LogKept(s: State, h: nat, c: Choice, home: Home, s': State)
    requires Inv(s, home) && Enabled(s, h, c, home) && s' == Step(s, h, c, home)
    ensures AllBacked(s'.log)
  {
    var op := Act(s, h, c, home).op;
    MemoryLog(s, h, op);
    if op.Note? {
      if op.e.Seen? {
        SeenIsFirst(s, h, c, home, op.e);
      }
      BackedMore(s.log, op.e);
    }
  }

  lemma MemoryTail(s: State, h: nat, op: Op)
    requires s.tail in s.nodes && (op.SetTail? ==> op.n in s.nodes)
    ensures Memory(s, h, op).tail in Memory(s, h, op).nodes
  {
  }

  lemma TailKept(s: State, h: nat, c: Choice, home: Home, s': State)
    requires Inv(s, home) && Enabled(s, h, c, home) && s' == Step(s, h, c, home)
    ensures s'.tail in s'.nodes
  {
    var op := Act(s, h, c, home).op;
    if op.SetTail? {
      Holding(s, h, home);
      Facts(ViewOf(s, home(s.pcs[h].a)), home, home(s.pcs[h].a));
    }
    MemoryTail(s, h, op);
  }

  lemma StepKeeps(s: State, h: nat, c: Choice, home: Home, s': State)
    requires Inv(s, home) && Enabled(s, h, c, home) && s' == Step(s, h, c, home)
    ensures Inv(s', home)
  {
    LocksKept(s, h, c, home, s');
    LogKept(s, h, c, home, s');
    TailKept(s, h, c, home, s');
    var own := if s.pcs[h].Busy? then home(s.pcs[h].a) else if c.Start? then home(c.a) else -1;
    forall b | 0 <= b < |s'.holders|
      ensures BucketOk(ViewOf(s', b), home, b)
    {
      if b != own {
        OthersKept(s, h, c, home, own, b, s');
      } else if s.pcs[h].Busy? {
        OwnKept(s, h, c, home, b, s');
      } else {
        OwnAcquire(s, h, c, home, s');
      }
    }
  }

  lemma InitBucket(s: State, home: Home, b: nat)
    requires Init(s, home) && b < |s.holders|
    ensures BucketOk(ViewOf(s, b), home, b)
  {
    var v := ViewOf(s, b);
    forall i | 0 <= i < |v.c|
      ensures Linked(v.nodes, v.c, 0, i)
    {
    }
    assert BucketBody(v, home, b);
  }

  lemma InitInv(s: State, home: Home)
    requires Init(s, home)
    ensures Inv(s, home)
  {
    forall b | 0 <= b < |s.holders|
      ensures BucketOk(ViewOf(s, b), home, b)
    {
      InitBucket(s, home, b);
    }
  }

  lemma {:induction false} RunInv(run: seq<State>, home: Home, k: nat)
    requires Run(run, home) && k < |run|
    ensures Inv(run[k], home) == true
  {
    if k == 0 {
      assert Begun(0);
      InitInv(run[0], home);
    } else {
      RunInv(run, home, k - 1);
      assert Follows(run, k, home);
      var h: nat, c: Choice :| Enabled(run[k - 1], h, c, home) && run[k] == Step(run[k - 1], h, c, home);
      StepKeeps(run[k - 1], h, c, home, run[k]);
    }
  }

  ghost predicate Asked(i: int) { true }

  /** Some run ends in the state; in view only where `Asked` is mentioned. */
  ghost predicate Reachable(s: State, home: Home)
  {
    (forall i {:trigger Asked(i)} :: Asked(i) ==> exists run :: Run(run, home) && run[|run| - 1] == s) == true
  }

  lemma ReachableInv(s: State, home: Home)
    requires Reachable(s, home)
    ensures Inv(s, home) == true
  {
    assert Asked(0);
    var run :| Run(run, home) && run[|run| - 1] == s;
    RunInv(run, home, |run| - 1);
  }

  // ----- what holds in every reachable state

  lemma {:induction false} TwoFirsts(log: seq<Event>, a: Addr, i: nat, j: nat)
    requires i < j < |log| && log[i].First? && log[j].First? && log[i].a == a == log[j].a
    ensures |Firsts(log, a)| >= 2
  {
    var init := log[..|log| - 1];
    if j < |log| - 1 {
      TwoFirsts(init, a, i, j);
    } else {
      OneFirst(init, a, i);
    }
  }

  lemma {:induction false} OneFirst(log: seq<Event>, a: Addr, i: nat)
    requires i < |log| && log[i].First? && log[i].a == a
    ensures |Firsts(log, a)| >= 1
  {
    if i < |log| - 1 {
      OneFirst(log[..|log| - 1], a, i);
    }
  }

  /** At most one thread makes the first-visit callback for an address. */
  lemma FirstVisitOnce(s: State, home: Home, i: nat, j: nat)
    requires Reachable(s, home) && i < j < |s.log| && s.log[i].First? && s.log[j].First? && s.log[i].a != 0
    ensures s.log[i].a != s.log[j].a
  {
    ReachableInv(s, home);
    var a := s.log[i].a;
    var b := home(a);
    OwnView(s, home, b);
    Facts(ViewOf(s, b), home, b);
    assert |Expected(s.nodes, s.table, HolderPc(s, b), a)| <= 1;
    assert Firsts(s.log, a) == Expected(s.nodes, s.table, HolderPc(s, b), a);
    if s.log[j].a == a {
      TwoFirsts(s.log, a, i, j);
    }
  }

  /** Every other visit is given the address which the one first visit, made before it, chose. */
  lemma OthersSeeTheMapping(s: State, home: Home, j: nat)
    requires Reachable(s, home) && j < |s.log| && s.log[j].Seen? && s.log[j].a != SEED
    ensures exists i :: 0 <= i < j && s.log[i].First? && s.log[i].a == s.log[j].a && s.log[i].o == s.log[j].o
  {
    ReachableInv(s, home);
    assert Backed(s.log, j);
  }

  /** A bucket that nobody holds is exact: links both ways, count, and exactly the addresses visited. */
  lemma FreeBucketExact(s: State, home: Home, b: nat)
    requires Reachable(s, home) && b < |s.holders| && s.holders[b] == -1
    ensures b < |s.buckets| == |s.chains|
    ensures Chained(s.nodes, s.chains[b], 0) && s.buckets[b] == Bucket(Nth(s.chains[b], 0), |s.chains[b]|)
    ensures Mapped(s.nodes, s.chains[b], s.table, home, b)
    ensures forall a :: a != 0 && home(a) == b ==>
          Firsts(s.log, a) == if a in s.table && a != SEED then [Get(s.nodes, s.table[a]).addr] else []
  {
    ReachableInv(s, home);
    OwnView(s, home, b);
    Facts(ViewOf(s, b), home, b);
    forall a | a != 0 && home(a) == b
      ensures Firsts(s.log, a) == Expected(s.nodes, s.table, Idle, a)
    {
      assert Firsts(s.log, a) == Expected(s.nodes, s.table, HolderPc(s, b), a);
    }
  }

  // ----- what does not hold: the list through the whole table and the item count

  lemma Extend(run: seq<State>, home: Home, h: nat, c: Choice)
    requires Run(run, home) && Enabled(run[|run| - 1], h, c, home)
    ensures Run(run + [Step(run[|run| - 1], h, c, home)], home)
  {
    var run' := run + [Step(run[|run| - 1], h, c, home)];
    forall i | 0 < i < |run'|
      ensures Follows(run', i, home)
    {
      if i < |run| {
        assert Follows(run, i, home);
      }
    }
  }

  /** One more step: its effect, and what the memory is after it. */
  lemma Take(s: State, home: Home, h: nat, c: Choice, pc: Pc, op: Op, s': State)
    requires Reachable(s, home) && Enabled(s, h, c, home) && Act(s, h, c, home) == Effect(pc, op)
    requires s' == Memory(s, h, op).(pcs := s.pcs[h := pc])
    ensures Reachable(s', home)
  {
    assert Asked(0);
    var run :| Run(run, home) && run[|run| - 1] == s;
    Extend(run, home, h, c);
    var run' := run + [Step(s, h, c, home)];
    assert run'[|run'| - 1] == s';
  }

  function With(s: State, h: nat, pc: Pc): State
    requires h < |s.pcs|
  {
    s.(pcs := s.pcs[h := pc])
  }

  lemma WithTwice(s: State, h: nat, p: Pc, q: Pc)
    requires h < |s.pcs|
    ensures With(With(s, h, p), h, q) == With(s, h, q)
  {
    assert s.pcs[h := p][h := q] == s.pcs[h := q];
  }

  /** A walk for an address that is not mapped runs to the end of the chain. */
  lemma {:induction false} WalkThrough(s: State, home: Home, h: nat, a: Addr, cur: Node, c: seq<Node>, p: nat)
    requires h < |s.pcs| && Reachable(With(s, h, Busy(a, Walk(cur))), home) && a !in s.table
    requires home(a) < |s.chains| && c == s.chains[home(a)] && p <= |c| && cur == Nth(c, p)
    ensures Reachable(With(s, h, Busy(a, Call)), home)
    decreases |c| - p
  {
    var t := With(s, h, Busy(a, Walk(cur)));
    ReachableInv(t, home);
    if cur == 0 {
      WithTwice(s, h, Busy(a, Walk(cur)), Busy(a, Call));
      Take(t, home, h, Go, Busy(a, Call), Nothing, With(s, h, Busy(a, Call)));
    } else {
      var nxt := NextInChain(t, home, h, p);
      WithTwice(s, h, Busy(a, Walk(cur)), Busy(a, Walk(nxt)));
      Take(t, home, h, Go, Busy(a, Walk(nxt)), Nothing, With(s, h, Busy(a, Walk(nxt))));
      WalkThrough(s, home, h, a, nxt, c, p + 1);
    }
  }

  lemma NextInChain(t: State, home: Home, h: nat, p: nat) returns (nxt: Node)
    requires Inv(t, home) && h < |t.pcs| && t.pcs[h].Busy? && t.pcs[h].a !in t.table && home(t.pcs[h].a) < |t.chains|
    requires p < |t.chains[home(t.pcs[h].a)]|
    ensures Get(t.nodes, t.chains[home(t.pcs[h].a)][p]).hhNext == nxt == Nth(t.chains[home(t.pcs[h].a)], p + 1)
    ensures Get(t.nodes, t.chains[home(t.pcs[h].a)][p]).key != t.pcs[h].a
  {
    Holding(t, h, home);
    var b := home(t.pcs[h].a);
    var v := ViewOf(t, b);
    Facts(v, home, b);
    assert Linked(v.nodes, v.c, FrontOf(v.pc), p) && v.c[p] in v.c;
    nxt := Nth(v.c, p + 1);
  }

  lemma {:induction false} RewalkThrough(s: State, home: Home, h: nat, a: Addr, o: Addr, cur: Node, c: seq<Node>,
      p: nat)
    requires h < |s.pcs| && Reachable(With(s, h, Busy(a, Rewalk(o, cur))), home) && a !in s.table
    requires home(a) < |s.chains| && c == s.chains[home(a)] && p <= |c| && cur == Nth(c, p)
    ensures Reachable(With(s, h, Busy(a, Make(o))), home)
    decreases |c| - p
  {
    var t := With(s, h, Busy(a, Rewalk(o, cur)));
    ReachableInv(t, home);
    if cur == 0 {
      WithTwice(s, h, Busy(a, Rewalk(o, cur)), Busy(a, Make(o)));
      Take(t, home, h, Go, Busy(a, Make(o)), Nothing, With(s, h, Busy(a, Make(o))));
    } else {
      var nxt := NextInChain(t, home, h, p);
      WithTwice(s, h, Busy(a, Rewalk(o, cur)), Busy(a, Rewalk(o, nxt)));
      Take(t, home, h, Go, Busy(a, Rewalk(o, nxt)), Nothing, With(s, h, Busy(a, Rewalk(o, nxt))));
      RewalkThrough(s, home, h, a, o, nxt, c, p + 1);
    }
  }

  /** An unmapped address whose bucket is free can be visited up to the callback. */
  lemma ReachCall(s: State, home: Home, h: nat, a: Addr, l: State)
    requires Reachable(s, home) && h < |s.pcs| && s.pcs[h] == Idle && a != 0 && a !in s.table
        && |s.holders| == |s.chains|
    requires home(a) < |s.holders| && s.holders[home(a)] == -1 && l == s.(holders := s.holders[home(a) := h])
    ensures Reachable(With(l, h, Busy(a, Call)), home)
  {
    ReachableInv(s, home);
    var b := home(a);
    var t := With(l, h, Busy(a, Look));
    Take(s, home, h, Start(a), Busy(a, Look), Acquire(b), t);
    OwnView(s, home, b);
    Facts(ViewOf(s, b), home, b);
    var first := s.buckets[b].head;
    WithTwice(l, h, Busy(a, Look), Busy(a, Walk(first)));
    Take(t, home, h, Go, Busy(a, Walk(first)), Nothing, With(l, h, Busy(a, Walk(first))));
    WalkThrough(l, home, h, a, first, s.chains[b], 0);
  }

  /** From the callback to the new entry. */
  lemma ReachMake(l: State, home: Home, h: nat, a: Addr, o: Addr, m: State)
    requires h < |l.pcs| && Reachable(With(l, h, Busy(a, Call)), home) && a !in l.table && o != 0
    requires m == l.(log := l.log + [First(h, a, o)])
    ensures Reachable(With(m, h, Busy(a, Make(o))), home)
  {
    var t := With(l, h, Busy(a, Call));
    ReachableInv(t, home);
    var b := home(a);
    WithTwice(m, h, Busy(a, Call), Busy(a, Again(o)));
    Take(t, home, h, Answer(o), Busy(a, Again(o)), Note(First(h, a, o)), With(m, h, Busy(a, Again(o))));
    OwnView(t, home, b);
    Facts(ViewOf(t, b), home, b);
    var first := l.buckets[b].head;
    WithTwice(m, h, Busy(a, Again(o)), Busy(a, Rewalk(o, first)));
    Take(With(m, h, Busy(a, Again(o))), home, h, Go, Busy(a, Rewalk(o, first)), Nothing,
        With(m, h, Busy(a, Rewalk(o, first))));
    RewalkThrough(m, home, h, a, o, first, l.chains[b], 0);
  }

  /** A first visit up to the insertion: the bucket is locked and the new entry exists. */
  function Arrived(s: State, home: Home, h: nat, a: Addr, o: Addr, n: Node): State
    requires h < |s.pcs| && home(a) < |s.holders|
  {
    s.(holders := s.holders[home(a) := h], log := s.log + [First(h, a, o)], nodes := s.nodes[n := Entry(a, o, 0, 0)],
       next := s.next[n := 0], pcs := s.pcs[h := Busy(a, Insert(o, n, LoadTail))])
  }

  lemma Arrive(s: State, home: Home, h: nat, a: Addr, o: Addr, n: Node)
    requires Reachable(s, home) && h < |s.pcs| && s.pcs[h] == Idle && a != 0 && a !in s.table && o != 0 && n != 0
        && n !in s.nodes
    requires home(a) < |s.holders| && s.holders[home(a)] == -1
    ensures Reachable(Arrived(s, home, h, a, o, n), home)
  {
    ReachableInv(s, home);
    var l := s.(holders := s.holders[home(a) := h]);
    var m := l.(log := l.log + [First(h, a, o)]);
    ReachCall(s, home, h, a, l);
    ReachMake(l, home, h, a, o, m);
    var t := With(m, h, Busy(a, Make(o)));
    var r := Arrived(s, home, h, a, o, n);
    assert t.pcs[h := r.pcs[h]] == r.pcs;
    Take(t, home, h, New(n), r.pcs[h], Create(n, a, o), r);
  }

  /** The part of the memory that is not guarded by bucket locks, and the mapped addresses. */
  datatype Shared = Shared(next: Field, tail: Node, numItems: int, table: map<Addr, Node>)

  function SharedOf(s: State): Shared { Shared(s.next, s.tail, s.numItems, s.table) }

  function NextPc(a: Addr, o: Addr, n: Node, at: Insertion, m: Shared): Pc
  {
    match at
    case LoadTail => Busy(a, Insert(o, n, TailNext(m.tail)))
    case TailNext(_) => Busy(a, Insert(o, n, LoadLast))
    case LoadLast => Busy(a, Insert(o, n, Prev(m.tail)))
    case Prev(_) => Busy(a, Insert(o, n, Tail))
    case Tail => Busy(a, Insert(o, n, ReadNum))
    case ReadNum => Busy(a, Insert(o, n, WriteNum(m.numItems)))
    case WriteNum(_) => Busy(a, Insert(o, n, Count))
    case Count => Busy(a, Insert(o, n, HhNext))
    case HhNext => Busy(a, Insert(o, n, HhPrev))
    case HhPrev => Busy(a, Insert(o, n, Back))
    case Back => Busy(a, Insert(o, n, Head))
    case Head => Busy(a, Leave)
  }

  function Written(m: Shared, a: Addr, n: Node, at: Insertion): Shared
  {
    match at
    case TailNext(t) => m.(next := m.next[t := n])
    case Tail => m.(tail := n)
    case WriteNum(k) => m.(numItems := k + 1)
    case Head => m.(table := m.table[a := n])
    case _ => m
  }

  /** The next write of an insertion. */
  lemma Write(s: State, home: Home, h: nat, a: Addr, o: Addr, n: Node, at: Insertion) returns (s': State)
    requires Reachable(s, home) && h < |s.pcs| && s.pcs[h] == Busy(a, Insert(o, n, at))
    ensures Reachable(s', home) && s'.pcs == s.pcs[h := NextPc(a, o, n, at, SharedOf(s))]
        && SharedOf(s') == Written(SharedOf(s), a, n, at)
  {
    ReachableInv(s, home);
    var e := InsertStep(s, a, o, n, at, home(a));
    s' := Memory(s, h, e.op).(pcs := s.pcs[h := e.pc]);
    assert home(a) < |s.holders|;
    Take(s, home, h, Go, e.pc, e.op, s');
  }

  /** Two writes in a row. */
  lemma WriteTwo(s: State, home: Home, h: nat, a: Addr, o: Addr, n: Node, at: Insertion, at': Insertion,
      base: seq<Pc>) returns (s': State)
    requires Reachable(s, home) && h < |base| && s.pcs == base[h := Busy(a, Insert(o, n, at))]
    requires Busy(a, Insert(o, n, at')) == NextPc(a, o, n, at, SharedOf(s))
    ensures Reachable(s', home) && s'.pcs == base[h := NextPc(a, o, n, at', Written(SharedOf(s), a, n, at))]
    ensures SharedOf(s') == Written(Written(SharedOf(s), a, n, at), a, n, at')
  {
    var t := Write(s, home, h, a, o, n, at);
    s' := Write(t, home, h, a, o, n, at');
    Overwrite(base, h, s.pcs[h], t.pcs[h]);
    Overwrite(base, h, t.pcs[h], s'.pcs[h]);
  }

  lemma Overwrite(base: seq<Pc>, h: nat, x: Pc, y: Pc)
    requires h < |base|
    ensures base[h := x][h := y] == base[h := y]
  {
  }

  /** The rest of an insertion, under the lock, and the unlock. */
  lemma FinishInsert(s: State, home: Home, h: nat, a: Addr, o: Addr, n: Node, base: seq<Pc>) returns (s': State)
    requires Reachable(s, home) && h < |base| && s.pcs == base[h := Busy(a, Insert(o, n, Count))]
    ensures Reachable(s', home) && s'.pcs == base[h := Idle] && SharedOf(s') == SharedOf(s).(table := s.table[a := n])
  {
    var t := WriteTwo(s, home, h, a, o, n, Count, HhNext, base);
    t := WriteTwo(t, home, h, a, o, n, HhPrev, Back, base);
    var u := Write(t, home, h, a, o, n, Head);
    Overwrite(base, h, t.pcs[h], u.pcs[h]);
    s' := Depart(u, home, h, a);
    Overwrite(base, h, u.pcs[h], Idle);
  }

  lemma Depart(s: State, home: Home, h: nat, a: Addr) returns (s': State)
    requires Reachable(s, home) && h < |s.pcs| && s.pcs[h] == Busy(a, Leave)
    ensures Reachable(s', home) && s'.pcs == s.pcs[h := Idle] && SharedOf(s') == SharedOf(s)
  {
    ReachableInv(s, home);
    s' := s.(holders := s.holders[home(a) := -1], pcs := s.pcs[h := Idle]);
    Take(s, home, h, Go, Idle, Release(home(a)), s');
  }

  /** The same write by one thread and then by another. */
  lemma WriteBoth(s: State, home: Home, h: nat, k: nat, x: Visit, y: Visit, at: Insertion, base: seq<Pc>)
      returns (s': State)
    requires Reachable(s, home) && h < |base| && k < |base| && h != k
    requires s.pcs == base[h := Busy(x.a, Insert(x.o, x.n, at))][k := Busy(y.a, Insert(y.o, y.n, at))]
    ensures Reachable(s', home)
    ensures var m := Written(SharedOf(s), x.a, x.n, at);
            && s'.pcs == base[h := NextPc(x.a, x.o, x.n, at, SharedOf(s))][k := NextPc(y.a, y.o, y.n, at, m)]
            && SharedOf(s') == Written(m, y.a, y.n, at)
  {
    var t := Write(s, home, h, x.a, x.o, x.n, at);
    s' := Write(t, home, k, y.a, y.o, y.n, at);
    assert s'.pcs == base[h := t.pcs[h]][k := s'.pcs[k]];
  }

  /** A first visit: its address, the callback's answer and the new entry. */
  datatype Visit = Visiting(a: Addr, o: Addr, n: Node)

  /** Two insertions whose writes to the list and to the item count alternate. */
  lemma Alternate(s: State, home: Home, h: nat, k: nat, x: Visit, y: Visit, base: seq<Pc>) returns (t: State)
    requires Reachable(s, home) && h < |base| && k < |base| && h != k
    requires s.pcs == base[h := Busy(x.a, Insert(x.o, x.n, LoadTail))][k := Busy(y.a, Insert(y.o, y.n, LoadTail))]
    ensures Reachable(t, home) && t.pcs == base[h := Busy(x.a, Insert(x.o, x.n, Count))][k := Busy(y.a,
        Insert(y.o, y.n, Count))]
    ensures t.next == s.next[s.tail := x.n][s.tail := y.n] && t.numItems == s.numItems + 1 && t.table == s.table
  {
    var i := s.numItems;
    t := WriteBoth(s, home, h, k, x, y, LoadTail, base);
    t := WriteBoth(t, home, h, k, x, y, TailNext(s.tail), base);
    t := WriteBoth(t, home, h, k, x, y, LoadLast, base);
    t := WriteBoth(t, home, h, k, x, y, Prev(s.tail), base);
    t := WriteBoth(t, home, h, k, x, y, Tail, base);
    t := WriteBoth(t, home, h, k, x, y, ReadNum, base);
    t := WriteBoth(t, home, h, k, x, y, WriteNum(i), base);
  }

  /** Two threads that can both make a first visit, in different buckets. */
  ghost predicate CanOverlap(s: State, home: Home, h: nat, k: nat, x: Visit, y: Visit)
  {
    && h < |s.pcs| && k < |s.pcs| && h != k && s.pcs[h] == Idle && s.pcs[k] == Idle
    && x.a != 0 && y.a != 0 && x.a !in s.table && y.a !in s.table && home(x.a) != home(y.a) && x.o != 0 && y.o != 0
    && home(x.a) < |s.holders| && home(y.a) < |s.holders| && s.holders[home(x.a)] == -1 && s.holders[home(y.a)] == -1
    && x.n != 0 && y.n != 0 && x.n != y.n && x.n !in s.nodes && y.n !in s.nodes
  }

  lemma ArriveBoth(s: State, home: Home, h: nat, k: nat, x: Visit, y: Visit) returns (t: State)
    requires Reachable(s, home) && CanOverlap(s, home, h, k, x, y)
    ensures Reachable(t, home) && SharedOf(t) == SharedOf(s).(next := s.next[x.n := 0][y.n := 0])
    ensures t.pcs == s.pcs[h := Busy(x.a, Insert(x.o, x.n, LoadTail))][k := Busy(y.a, Insert(y.o, y.n, LoadTail))]
  {
    Arrive(s, home, h, x.a, x.o, x.n);
    var s1 := Arrived(s, home, h, x.a, x.o, x.n);
    Arrive(s1, home, k, y.a, y.o, y.n);
    t := Arrived(s1, home, k, y.a, y.o, y.n);
  }

  /**
   * Whenever two first visits can overlap, both can complete with the item count raised by one only
   * and with the first one's entry in no next link of the table-wide list.
   */
  lemma RaceLosesAnItem(s: State, home: Home, h: nat, k: nat, x: Visit, y: Visit) returns (s': State)
    requires Reachable(s, home) && CanOverlap(s, home, h, k, x, y)
    ensures Reachable(s', home) && s'.pcs == s.pcs && s'.table == s.table[x.a := x.n][y.a := y.n]
    ensures s'.numItems == s.numItems + 1
    ensures At(s'.next, s.tail) == y.n && At(s'.next, y.n) == 0
        && forall t :: At(s'.next, t) == x.n ==> At(s.next, t) == x.n
  {
    ReachableInv(s, home);
    var t := ArriveBoth(s, home, h, k, x, y);
    t := Alternate(t, home, h, k, x, y, s.pcs);
    var base := s.pcs[h := Busy(x.a, Insert(x.o, x.n, Count))];
    t := FinishInsert(t, home, k, y.a, y.o, y.n, base);
    assert t.pcs == s.pcs[h := Busy(x.a, Insert(x.o, x.n, Count))];
    t := FinishInsert(t, home, h, x.a, x.o, x.n, s.pcs);
    assert t.pcs == s.pcs;
    s' := t;
  }

  /** The state that init_parallel_tbls leaves. */
  function Seeded(threads: nat, num: nat, seed: Node, home: Home): State
  {
    State(
      seq(threads, _ => Idle), seq(num, _ => -1),
      seq(num, b => if b == home(SEED) then Bucket(seed, 1) else Bucket(0, 0)),
      map[seed := Entry(SEED, SEED, 0, 0)],
      map[], map[], seed, 1, [],
      seq(num, b => if b == home(SEED) then [seed] else []), map[SEED := seed], [seed])
  }

  /** Such a state is initial, for any number of threads and buckets. */
  lemma SeededIsInitial(threads: nat, num: nat, seed: Node, home: Home)
    requires num > 0 && seed != 0 && forall a :: home(a) < num
    ensures Init(Seeded(threads, num, seed, home), home) && Reachable(Seeded(threads, num, seed, home), home)
  {
    var s := Seeded(threads, num, seed, home);
    assert Init(s, home);
    assert Run([s], home) && [s][0] == s;
  }

  /** Already from the initial state, with two threads and two buckets in use, the item count can come out wrong. */
  lemma ItemCountCanBeWrong(s: State, home: Home, a: Addr, d: Addr) returns (s': State)
    requires Init(s, home) && |s.pcs| >= 2 && a != 0 && d != 0 && a != SEED && d != SEED && home(a) != home(d)
    ensures Reachable(s', home) && s'.pcs == s.pcs && (forall h :: 0 <= h < |s'.pcs| ==> s'.pcs[h] == Idle)
    ensures s'.numItems == 2 && |s'.table| == 3
  {
    assert Run([s], home) && [s][0] == s;
    var n := if s.tail == 1 then 2 else 1;
    var m := if s.tail == 3 then 4 else 3;
    s' := RaceLosesAnItem(s, home, 0, 1, Visiting(a, 1, n), Visiting(d, 1, m));
    assert s'.table.Keys == {SEED, a, d};
    assert |s'.table| == |s'.table.Keys|;
  }

  /** A visit that is about to end has its address mapped. */
  lemma LeavingIsMapped(s: State, home: Home, h: nat)
    requires Inv(s, home) && h < |s.pcs| && s.pcs[h].Busy? && s.pcs[h].stage.Leave?
    ensures s.pcs[h].a in s.table && s.pcs[h].a != 0 && (s.pcs[h].a != SEED ==> Firsts(s.log, s.pcs[h].a) != [])
  {
    Holding(s, h, home);
    var b := home(s.pcs[h].a);
    Facts(ViewOf(s, b), home, b);
    assert Firsts(s.log, s.pcs[h].a) == Expected(s.nodes, s.table, s.pcs[h], s.pcs[h].a);
  }

  lemma ReachStep(s: State, home: Home, h: nat, c: Choice)
    requires Reachable(s, home) && Enabled(s, h, c, home)
    ensures Reachable(Step(s, h, c, home), home)
  {
    var e := Act(s, h, c, home);
    Take(s, home, h, c, e.pc, e.op, Step(s, h, c, home));
  }
}
