/** EventLockFreeQueue: any number of producers, one consumer, an eventfd, and
    a counter that is bumped only after the element is in the queue.

    Every atomic access is one step of `Next`; the threads interleave freely.
    The concurrent queue itself is taken by contract: elements of one producer
    come out in order, a bulk dequeue hands out between 1 and 32 elements, and
    it returns none only if the queue was empty at some moment of the call.
 */
module LockFreeQueue {

  const MOD: int := 0x1_0000_0000_0000_0000

  type Word = x: int | 0 <= x < MOD

  /** A callback, with the thread that added it. */
  datatype Item = Item(owner: nat, tag: nat)

  /** Where a producer is in Add: before the enqueue, before the fetch_add,
      before the eventfd write. */
  datatype Producer = Ready | Enqueued | Waking

  /** Where the consumer is: in the selector, before the dequeue, before the
      fetch_add(-n), running callbacks, or past an empty dequeue. */
  datatype Consumer = Idle | Dequeuing | Taken(batch: seq<Item>) | Running(rest: seq<Item>) | SawEmpty

  datatype State = State(
    queue: seq<Item>,
    size: Word,
    fd: nat,
    pcs: map<nat, Producer>,
    cpc: Consumer,
    added: seq<Item>,
    done: seq<Item>)

  function FetchAdd(size: Word, v: Word): Word { (size + v) % MOD }

  /** The elements of one producer, in order. */
  function Proj(s: seq<Item>, p: nat): seq<Item> {
    if s == [] then [] else (if s[0].owner == p then [s[0]] else []) + Proj(s[1..], p)
  }

  ghost predicate Splits(queue: seq<Item>, batch: seq<Item>, rest: seq<Item>) {
    && |queue| == |batch| + |rest|
    && forall p :: Proj(queue, p) == Proj(batch, p) + Proj(rest, p)
  }

  // ------------------------------------------------------------------ steps

  ghost predicate Init(s: State) {
    && s.queue == [] && s.size == 0 && s.fd == 0 && s.cpc == Idle && s.added == [] && s.done == []
    && forall p :: p in s.pcs ==> s.pcs[p] == Ready
  }

  ghost predicate Enqueue(s: State, t: State, p: nat, x: Item) {
    && p in s.pcs && s.pcs[p] == Ready && x.owner == p
    && t == s.(queue := s.queue + [x], added := s.added + [x], pcs := s.pcs[p := Enqueued])
  }

  ghost predicate Count(s: State, t: State, p: nat) {
    && p in s.pcs && s.pcs[p] == Enqueued
    && t == s.(size := FetchAdd(s.size, 1), pcs := s.pcs[p := if s.size == 0 then Waking else Ready])
  }

  /** A write to an eventfd that is full leaves it non-zero all the same. */
  ghost predicate Wake(s: State, t: State, p: nat) {
    && p in s.pcs && s.pcs[p] == Waking
    && t == s.(fd := if s.fd + 1 < MOD - 1 then s.fd + 1 else s.fd, pcs := s.pcs[p := Ready])
  }

  ghost predicate ProducerStep(s: State, t: State) {
    || (exists p, x :: Enqueue(s, t, p, x))
    || (exists p :: Count(s, t, p))
    || (exists p :: Wake(s, t, p))
  }

  ghost predicate ReadEvent(s: State, t: State) {
    s.cpc == Idle && s.fd > 0 && t == s.(fd := 0, cpc := Dequeuing)
  }

  ghost predicate Dequeue(s: State, t: State, batch: seq<Item>, rest: seq<Item>) {
    && s.cpc == Dequeuing && 1 <= |batch| <= 32 && Splits(s.queue, batch, rest)
    && t == s.(queue := rest, cpc := Taken(batch))
  }

  ghost predicate FindEmpty(s: State, t: State) {
    s.cpc == Dequeuing && s.queue == [] && t == s.(cpc := SawEmpty)
  }

  ghost predicate Subtract(s: State, t: State) {
    && s.cpc.Taken? && |s.cpc.batch| <= 32
    && t == s.(size := FetchAdd(s.size, (MOD - |s.cpc.batch|) % MOD), cpc := Running(s.cpc.batch))
  }

  ghost predicate Call(s: State, t: State) {
    && s.cpc.Running? && s.cpc.rest != []
    && t == s.(done := s.done + [s.cpc.rest[0]], cpc := Running(s.cpc.rest[1..]))
  }

  ghost predicate Again(s: State, t: State) {
    s.cpc == Running([]) && t == s.(cpc := Dequeuing)
  }

  ghost predicate Leave(s: State, t: State) {
    s.cpc == SawEmpty && t == s.(cpc := Idle)
  }

  ghost predicate ConsumerStep(s: State, t: State) {
    || ReadEvent(s, t)
    || (exists batch, rest :: Dequeue(s, t, batch, rest))
    || FindEmpty(s, t) || Subtract(s, t) || Call(s, t) || Again(s, t) || Leave(s, t)
  }

  ghost predicate Next(s: State, t: State) {
    ProducerStep(s, t) || ConsumerStep(s, t)
  }

  // -------------------------------------------------------------- invariant

  /** Dequeued, but not yet taken off the counter. */
  function Unsubtracted(c: Consumer): nat {
    if c.Taken? then |c.batch| else 0
  }

  /** Enqueued, but not yet counted. */
  function Counting(pcs: map<nat, Producer>): set<nat> {
    set p | p in pcs && pcs[p] == Enqueued
  }

  function Uncounted(pcs: map<nat, Producer>): nat { |Counting(pcs)| }

  /** What the counter stands for; it may be negative. */
  function Balance(s: State): int {
    |s.queue| + Unsubtracted(s.cpc) - Uncounted(s.pcs)
  }

  function InHand(c: Consumer): seq<Item> {
    match c
    case Taken(batch) => batch
    case Running(rest) => rest
    case _ => []
  }

  ghost predicate CounterExact(s: State) { (s.size - Balance(s)) % MOD == 0 }

  ghost predicate WakeUpDue(s: State) {
    s.fd > 0 || exists p :: p in s.pcs && s.pcs[p] == Waking
  }

  ghost predicate NoneForgotten(s: State) {
    s.cpc == Idle || s.cpc == SawEmpty ==> Balance(s) <= 0 || WakeUpDue(s)
  }

  ghost predicate InOrder(s: State) {
    forall p :: Proj(s.added, p) == Proj(s.done, p) + Proj(InHand(s.cpc), p) + Proj(s.queue, p)
  }

  ghost predicate Inv(s: State) {
    CounterExact(s) && NoneForgotten(s) && InOrder(s) && (s.cpc.Taken? ==> |s.cpc.batch| <= 32)
  }

  lemma {:induction false} ProjAppend(a: seq<Item>, b: seq<Item>, p: nat)
    ensures Proj(a + b, p) == Proj(a, p) + Proj(b, p)
  {
    if a == [] {
      assert a + b == b;
    } else {
      ProjAppend(a[1..], b, p);
      var c := a + b;
      assert c[0] == a[0] && c[1..] == a[1..] + b;
      var head := if a[0].owner == p then [a[0]] else [];
      assert head + (Proj(a[1..], p) + Proj(b, p)) == head + Proj(a[1..], p) + Proj(b, p);
    }
  }

  lemma UncountedSet(pcs: map<nat, Producer>, p: nat, pc: Producer)
    requires p in pcs
    ensures Uncounted(pcs[p := pc])
            == Uncounted(pcs) - (if pcs[p] == Enqueued then 1 else 0) + (if pc == Enqueued then 1 else 0)
  {
    var others := Counting(pcs) - {p};
    assert Counting(pcs) == if pcs[p] == Enqueued then others + {p} else others;
    assert Counting(pcs[p := pc]) == if pc == Enqueued then others + {p} else others;
  }

  lemma EnqueueKeeps(s: State, t: State, p: nat, x: Item)
    requires Inv(s) && Enqueue(s, t, p, x)
    ensures Inv(t)
  {
    UncountedSet(s.pcs, p, Enqueued);
    assert Balance(t) == Balance(s);
    if q :| q in s.pcs && s.pcs[q] == Waking {
      assert q in t.pcs && t.pcs[q] == Waking;
    }
    forall q
      ensures Proj(t.added, q) == Proj(t.done, q) + Proj(InHand(t.cpc), q) + Proj(t.queue, q)
    {
      ProjAppend(s.added, [x], q);
      ProjAppend(s.queue, [x], q);
    }
  }

  lemma CountKeeps(s: State, t: State, p: nat)
    requires Inv(s) && Count(s, t, p)
    ensures Inv(t)
  {
    UncountedSet(s.pcs, p, t.pcs[p]);
    assert Balance(t) == Balance(s) + 1;
    if Balance(s) == 0 {
      assert s.size == 0;
      assert p in t.pcs && t.pcs[p] == Waking;
    } else if q :| q in s.pcs && s.pcs[q] == Waking {
      assert q in t.pcs && t.pcs[q] == Waking;
    }
  }

  lemma WakeKeeps(s: State, t: State, p: nat)
    requires Inv(s) && Wake(s, t, p)
    ensures Inv(t)
  {
    UncountedSet(s.pcs, p, Ready);
    assert t.fd > 0;
  }

  lemma DequeueKeeps(s: State, t: State, batch: seq<Item>, rest: seq<Item>)
    requires Inv(s) && Dequeue(s, t, batch, rest)
    ensures Inv(t)
  {
    assert Balance(t) == Balance(s);
    forall q
      ensures Proj(t.added, q) == Proj(t.done, q) + Proj(InHand(t.cpc), q) + Proj(t.queue, q)
    {
      assert Proj(s.queue, q) == Proj(batch, q) + Proj(rest, q);
      assert Proj(InHand(s.cpc), q) == [];
    }
  }

  lemma SubtractKeeps(s: State, t: State)
    requires Inv(s) && Subtract(s, t)
    ensures Inv(t)
  {
    assert Balance(t) == Balance(s) - |s.cpc.batch|;
    assert InHand(t.cpc) == InHand(s.cpc);
  }

  lemma CallKeeps(s: State, t: State)
    requires Inv(s) && Call(s, t)
    ensures Inv(t)
  {
    assert Balance(t) == Balance(s);
    var rest := s.cpc.rest;
    assert rest == [rest[0]] + rest[1..];
    forall q
      ensures Proj(t.added, q) == Proj(t.done, q) + Proj(InHand(t.cpc), q) + Proj(t.queue, q)
    {
      ProjAppend(s.done, [rest[0]], q);
      ProjAppend([rest[0]], rest[1..], q);
    }
  }

  lemma ConsumerKeeps(s: State, t: State)
    requires Inv(s) && ConsumerStep(s, t)
    ensures Inv(t)
  {
    if batch, rest :| Dequeue(s, t, batch, rest) {
      DequeueKeeps(s, t, batch, rest);
    } else if Subtract(s, t) {
      SubtractKeeps(s, t);
    } else if Call(s, t) {
      CallKeeps(s, t);
    } else {
      assert Balance(t) == Balance(s) && InHand(t.cpc) == InHand(s.cpc);
    }
  }

  lemma NextKeeps(s: State, t: State)
    requires Inv(s) && Next(s, t)
    ensures Inv(t)
  {
    if ConsumerStep(s, t) {
      ConsumerKeeps(s, t);
    } else if p, x :| Enqueue(s, t, p, x) {
      EnqueueKeeps(s, t, p, x);
    } else if p :| Count(s, t, p) {
      CountKeeps(s, t, p);
    } else {
      var p :| Wake(s, t, p);
      WakeKeeps(s, t, p);
    }
  }

  // ------------------------------------------------------------------- runs

  ghost predicate Run(tr: seq<State>)
    decreases |tr|
  {
    tr != [] && (|tr| == 1 || (Run(tr[..|tr| - 1]) && Next(tr[|tr| - 2], tr[|tr| - 1])))
  }

  ghost predicate Reachable(s: State) {
    exists tr :: Run(tr) && Init(tr[0]) && tr[|tr| - 1] == s
  }

  lemma ReachStep(s: State, t: State)
    requires Reachable(s) && Next(s, t)
    ensures Reachable(t)
  {
    var tr :| Run(tr) && Init(tr[0]) && tr[|tr| - 1] == s;
    var longer := tr + [t];
    assert longer[..|longer| - 1] == tr;
    assert Run(longer) && Init(longer[0]) && longer[|longer| - 1] == t;
  }

  lemma ReachEnqueue(s: State, t: State, p: nat, x: Item)
    requires Reachable(s) && Enqueue(s, t, p, x)
    ensures Reachable(t)
  {
    ReachStep(s, t);
  }

  lemma ReachProducer(s: State, t: State, p: nat)
    requires Reachable(s) && (Count(s, t, p) || Wake(s, t, p))
    ensures Reachable(t)
  {
    ReachStep(s, t);
  }

  lemma ReachConsumer(s: State, t: State)
    requires Reachable(s) && ConsumerStep(s, t)
    ensures Reachable(t)
  {
    ReachStep(s, t);
  }

  lemma InitIsFine(s: State)
    requires Init(s)
    ensures Inv(s)
  {
    assert Counting(s.pcs) == {};
  }

  lemma {:induction false} RunKeeps(tr: seq<State>)
    requires Run(tr) && Inv(tr[0])
    ensures Inv(tr[|tr| - 1])
    decreases |tr|
  {
    if |tr| > 1 {
      RunKeeps(tr[..|tr| - 1]);
      NextKeeps(tr[|tr| - 2], tr[|tr| - 1]);
    }
  }

  /** At every moment of every run: the counter is the balance modulo 2^64, no
      wake-up is lost, and nothing is dropped, doubled or reordered. */
  lemma ReachableIsFine(s: State)
    requires Reachable(s)
    ensures Inv(s)
  {
    var tr :| Run(tr) && Init(tr[0]) && tr[|tr| - 1] == s;
    InitIsFine(tr[0]);
    RunKeeps(tr);
  }

  ghost predicate Quiet(s: State) {
    forall p :: p in s.pcs ==> s.pcs[p] == Ready
  }

  /** Once the producers are through with Add, a consumer that sits in the
      selector while the queue is not empty has its eventfd readable. */
  lemma NoLostWakeUp(s: State)
    requires Reachable(s) && Quiet(s) && s.cpc == Idle && s.queue != []
    ensures s.fd > 0 && exists t :: ReadEvent(s, t)
  {
    ReachableIsFine(s);
    assert Counting(s.pcs) == {};
    assert ReadEvent(s, s.(fd := 0, cpc := Dequeuing));
  }

  // -------------------------------------------- the consumer catches up

  function Rank(c: Consumer): nat {
    match c
    case Idle => 0
    case SawEmpty => 1
    case Dequeuing => 2
    case Running(rest) => 3 + |rest|
    case Taken(batch) => 4 + |batch|
  }

  function Work(s: State): nat {
    10 * |s.queue| + Rank(s.cpc) + if s.fd > 0 then 10 else 0
  }

  lemma ConsumerProgress(s: State, t: State)
    requires ConsumerStep(s, t)
    ensures Work(t) < Work(s) && t.pcs == s.pcs && t.added == s.added
  {
  }

  lemma PrefixSplits(queue: seq<Item>, k: nat)
    requires k <= |queue|
    ensures Splits(queue, queue[..k], queue[k..])
  {
    assert queue == queue[..k] + queue[k..];
    forall p
      ensures Proj(queue, p) == Proj(queue[..k], p) + Proj(queue[k..], p)
    {
      ProjAppend(queue[..k], queue[k..], p);
    }
  }

  /** The consumer can move unless it sits in the selector with nothing to
      read. */
  lemma ConsumerCanMove(s: State)
    requires Inv(s) && !(s.cpc == Idle && s.fd == 0)
    ensures exists t :: ConsumerStep(s, t)
  {
    match s.cpc
    case Idle =>
      var t := s.(fd := 0, cpc := Dequeuing);
      assert ReadEvent(s, t) && ConsumerStep(s, t);
    case Dequeuing =>
      if s.queue == [] {
        var t := s.(cpc := SawEmpty);
        assert FindEmpty(s, t) && ConsumerStep(s, t);
      } else {
        PrefixSplits(s.queue, 1);
        var t := s.(queue := s.queue[1..], cpc := Taken(s.queue[..1]));
        assert Dequeue(s, t, s.queue[..1], s.queue[1..]) && ConsumerStep(s, t);
      }
    case Taken(batch) =>
      var t := s.(size := FetchAdd(s.size, (MOD - |batch|) % MOD), cpc := Running(batch));
      assert Subtract(s, t) && ConsumerStep(s, t);
    case Running(rest) =>
      var t := if rest == [] then s.(cpc := Dequeuing)
               else s.(done := s.done + [rest[0]], cpc := Running(rest[1..]));
      assert (Again(s, t) || Call(s, t)) && ConsumerStep(s, t);
    case SawEmpty =>
      var t := s.(cpc := Idle);
      assert Leave(s, t) && ConsumerStep(s, t);
  }

  ghost predicate ConsumerRun(tr: seq<State>)
    decreases |tr|
  {
    tr != [] && (|tr| == 1 || (ConsumerRun(tr[..|tr| - 1]) && ConsumerStep(tr[|tr| - 2], tr[|tr| - 1])))
  }

  lemma {:induction false} ConsumerRunBound(tr: seq<State>)
    requires ConsumerRun(tr) && Inv(tr[0])
    ensures var t := tr[|tr| - 1];
            Inv(t) && Work(t) + |tr| - 1 <= Work(tr[0]) && t.pcs == tr[0].pcs && t.added == tr[0].added
    decreases |tr|
  {
    if |tr| > 1 {
      ConsumerRunBound(tr[..|tr| - 1]);
      ConsumerProgress(tr[|tr| - 2], tr[|tr| - 1]);
      ConsumerKeeps(tr[|tr| - 2], tr[|tr| - 1]);
    }
  }

  /** With the producers through, the consumer by itself takes a bounded number
      of steps, however its dequeues turn out; and where it can go no further,
      every callback ever added has run, exactly once and in the order of its
      producer. */
  lemma EveryCallbackRuns(s: State, tr: seq<State>)
    requires Reachable(s) && Quiet(s) && ConsumerRun(tr) && tr[0] == s
    ensures |tr| <= Work(s) + 1
    ensures var t := tr[|tr| - 1];
            (exists u :: ConsumerStep(t, u)) || (t.queue == [] && forall p :: Proj(t.done, p) == Proj(s.added, p))
  {
    ReachableIsFine(s);
    ConsumerRunBound(tr);
    var t := tr[|tr| - 1];
    if t.cpc == Idle && t.fd == 0 {
      assert Counting(t.pcs) == {};
      assert Balance(t) == |t.queue|;
      assert InHand(t.cpc) == [];
    } else {
      ConsumerCanMove(t);
    }
  }

  lemma ConsumerAtWork()
    ensures exists s :: Reachable(s) && s.cpc == Dequeuing && s.size == 1 && s.queue == [Item(0, 0)]
                        && 1 in s.pcs && s.pcs[1] == Ready
  {
    var x := Item(0, 0);
    var s0 := State([], 0, 0, map[0 := Ready, 1 := Ready], Idle, [], []);
    assert Reachable(s0) by {
      assert Run([s0]) && Init([s0][0]) && [s0][0] == s0;
    }
    hide Reachable, Next;
    var s1 := s0.(queue := [] + [x], added := [] + [x], pcs := s0.pcs[0 := Enqueued]);
    ReachEnqueue(s0, s1, 0, x);
    var s2 := s1.(size := 1, pcs := s1.pcs[0 := Waking]);
    ReachProducer(s1, s2, 0);
    var s3 := s2.(fd := 1, pcs := s2.pcs[0 := Ready]);
    ReachProducer(s2, s3, 0);
    var s4 := s3.(fd := 0, cpc := Dequeuing);
    ReachConsumer(s3, s4);
  }

  lemma DequeueBoth(s: State, x: Item, y: Item)
    requires Reachable(s) && s.cpc == Dequeuing && s.queue == [x, y]
    ensures Reachable(s.(queue := [], cpc := Taken([x, y])))
  {
    PrefixSplits([x, y], 2);
    assert [x, y][..2] == [x, y] && [x, y][2..] == [];
    hide Reachable, Splits, Next;
    var t := s.(queue := [], cpc := Taken([x, y]));
    assert Dequeue(s, t, [x, y], []);
    ReachConsumer(s, t);
  }

  lemma SubtractBoth(s: State, x: Item, y: Item)
    requires Reachable(s) && s.cpc == Taken([x, y]) && s.size == 1
    ensures Reachable(s.(size := MOD - 1, cpc := Running([x, y])))
  {
    hide Reachable, Next;
    var t := s.(size := MOD - 1, cpc := Running([x, y]));
    assert Subtract(s, t);
    ReachConsumer(s, t);
  }

  /** The counter does go below zero: an element can be dequeued, subtracted
      and run before its producer has counted it. */
  lemma CounterCanUnderflow()
    ensures exists s :: Reachable(s) && s.size == MOD - 1 && s.queue == []
  {
    ConsumerAtWork();
    var x, y := Item(0, 0), Item(1, 0);
    var s :| Reachable(s) && s.cpc == Dequeuing && s.size == 1 && s.queue == [x] && 1 in s.pcs && s.pcs[1] == Ready;
    var t := s.(queue := s.queue + [y], added := s.added + [y], pcs := s.pcs[1 := Enqueued]);
    ReachEnqueue(s, t, 1, y);
    DequeueBoth(t, x, y);
    SubtractBoth(t.(queue := [], cpc := Taken([x, y])), x, y);
  }
}
