/** Whole runs of the heap queue: any sequence of Add, Cancel and Process. */
module HeapRuns {
  import opened HeapSpec

  /** `started` are the items whose callbacks have been started, in order. */
  datatype Queue = Queue(h: Heap, started: seq<Item>)

  const NEW := Queue(EMPTY, [])

  /** A Process is given with the items it takes. */
  datatype Act =
    | Add(due: nat, interval: int)
    | Cancel(id: nat)
    | Process(now: nat, script: Script, xs: seq<Item>)

  ghost predicate Legal(q: Queue, a: Act) {
    a.Process? ==> OnTime(a.script, a.now) && Finished(q.h, a.now, a.script, a.xs)
  }

  function Do(q: Queue, a: Act): Queue {
    match a
    case Add(due, interval) => q.(h := AddTimer(q.h, due, interval))
    case Cancel(id) => q.(h := CancelTimer(q.h, id))
    case Process(_, script, xs) =>
      var l := After(q.h, script, xs);
      Queue(l.h, q.started + l.fired)
  }

  function DoAll(q: Queue, acts: seq<Act>): Queue
    decreases |acts|
  {
    if acts == [] then q else DoAll(Do(q, acts[0]), acts[1..])
  }

  ghost predicate LegalRun(q: Queue, acts: seq<Act>)
    decreases |acts|
  {
    acts == [] || (Legal(q, acts[0]) && LegalRun(Do(q, acts[0]), acts[1..]))
  }

  lemma DoKeeps(q: Queue, a: Act)
    requires Valid(q.h, {}) && Legal(q, a)
    ensures Valid(Do(q, a).h, {})
  {
    match a
    case Add(due, interval) => AddKeeps(q.h, {}, due, interval);
    case Cancel(_) =>
    case Process(now, script, xs) => RunGoes(q.h, now, script, xs);
  }

  lemma {:induction false} RunsStayValid(q: Queue, acts: seq<Act>)
    requires Valid(q.h, {}) && LegalRun(q, acts)
    ensures Valid(DoAll(q, acts).h, {})
    decreases |acts|
  {
    if acts != [] {
      DoKeeps(q, acts[0]);
      RunsStayValid(Do(q, acts[0]), acts[1..]);
    }
  }

  /** After every run, each live id has exactly one heap item; a cancelled one
      has at most one, a dead item. */
  lemma OneItemEach(acts: seq<Act>, id: nat)
    requires LegalRun(NEW, acts)
    ensures var h := DoAll(NEW, acts).h;
            && (id in h.table ==> exists e: nat :: h.queue[Item(e, id)] == 1)
            && (forall d: nat, e: nat :: Item(d, id) in h.queue && Item(e, id) in h.queue ==> d == e)
            && (forall e: nat :: h.queue[Item(e, id)] <= 1)
  {
    RunsStayValid(NEW, acts);
    var h := DoAll(NEW, acts).h;
    if id in h.table {
      assert h.queue[Item(h.due[id], id)] == 1;
    }
    forall d: nat | Item(d, id) in h.queue
      ensures id in h.due && h.due[id] == d
    {
      assert h.queue[Item(d, id)] == if id in h.due && h.due[id] == d then 1 else 0;
    }
  }

  // ----------------------------------------------------------- cancellation

  function Starts(items: seq<Item>, id: nat): nat
    decreases |items|
  {
    if items == [] then 0
    else Starts(items[..|items| - 1], id) + if items[|items| - 1].id == id then 1 else 0
  }

  lemma {:induction false} StartsAdd(a: seq<Item>, b: seq<Item>, id: nat)
    ensures Starts(a + b, id) == Starts(a, id) + Starts(b, id)
    decreases |b|
  {
    if b == [] {
      assert a + b == a;
    } else {
      assert (a + b)[..|a + b| - 1] == a + b[..|b| - 1];
      StartsAdd(a, b[..|b| - 1], id);
    }
  }

  ghost predicate Dead(h: Heap, id: nat) { id <= h.counter && id !in h.table }

  lemma {:induction false} ApplyAllDead(h: Heap, ops: seq<Op>, id: nat)
    requires Dead(h, id)
    ensures Dead(ApplyAll(h, ops), id)
    decreases |ops|
  {
    if ops != [] {
      ApplyAllDead(Apply(h, ops[0]), ops[1..], id);
    }
  }

  /** Within a Process: once cancelled, in a callback of this very Process or
      before it, an id is never started again, though its heap item may still
      be there. */
  lemma {:induction false} DeadStaysQuiet(h: Heap, script: Script, xs: seq<Item>, id: nat)
    requires Dead(h, id)
    ensures Dead(After(h, script, xs).h, id) && Starts(After(h, script, xs).fired, id) == 0
    decreases |xs|
  {
    if xs != [] {
      var l := After(h, script, xs[..|xs| - 1]);
      var x := xs[|xs| - 1];
      DeadStaysQuiet(h, script, xs[..|xs| - 1], id);
      if x.id in l.h.table {
        ApplyAllDead(Take(l.h, x), script(|l.fired|).ops, id);
        assert (l.fired + [x])[..|l.fired|] == l.fired;
      }
    }
  }

  /** Across runs: a cancelled timer is never started again. */
  lemma {:induction false} CancelledNeverStarts(q: Queue, acts: seq<Act>, id: nat)
    requires Dead(q.h, id)
    ensures Dead(DoAll(q, acts).h, id) && Starts(DoAll(q, acts).started, id) == Starts(q.started, id)
    decreases |acts|
  {
    if acts != [] {
      if acts[0].Process? {
        DeadStaysQuiet(q.h, acts[0].script, acts[0].xs, id);
        StartsAdd(q.started, After(q.h, acts[0].script, acts[0].xs).fired, id);
      }
      CancelledNeverStarts(Do(q, acts[0]), acts[1..], id);
    }
  }

  // --------------------------------------------------------- no timer is lost

  ghost predicate Cancels(a: Act, id: nat) {
    match a
    case Add(_, _) => false
    case Cancel(x) => x == id
    case Process(_, script, _) => exists k: nat :: CancelOp(id) in script(k).ops
  }

  lemma {:induction false} StartedOnce(items: seq<Item>, x: Item)
    requires x in items
    ensures Starts(items, x.id) > 0
    decreases |items|
  {
    var last := items[|items| - 1];
    if last != x {
      assert items == items[..|items| - 1] + [last];
      StartedOnce(items[..|items| - 1], x);
    }
  }

  lemma {:induction false} StartsGrow(q: Queue, acts: seq<Act>, id: nat)
    ensures Starts(DoAll(q, acts).started, id) >= Starts(q.started, id)
    decreases |acts|
  {
    if acts != [] {
      if acts[0].Process? {
        StartsAdd(q.started, After(q.h, acts[0].script, acts[0].xs).fired, id);
      }
      StartsGrow(Do(q, acts[0]), acts[1..], id);
    }
  }

  /** A Process at the deadline or later. */
  predicate Reaches(a: Act, due: nat) { a.Process? && a.now >= due }

  lemma ActStarts(q: Queue, a: Act, id: nat)
    requires Valid(q.h, {}) && Legal(q, a) && id in q.h.table && !Cancels(a, id) && Reaches(a, q.h.due[id])
    ensures Starts(Do(q, a).started, id) > Starts(q.started, id)
  {
    var fired := After(q.h, a.script, a.xs).fired;
    ProcessIsExact(q.h, a.now, a.script, a.xs, id);
    StartedOnce(fired, Item(q.h.due[id], id));
    StartsAdd(q.started, fired, id);
  }

  lemma ActSpares(q: Queue, a: Act, id: nat)
    requires Valid(q.h, {}) && Legal(q, a) && id in q.h.table && !Cancels(a, id) && !Reaches(a, q.h.due[id])
    ensures id in Do(q, a).h.table && id in Do(q, a).h.due && Do(q, a).h.due[id] == q.h.due[id]
    ensures Starts(Do(q, a).started, id) >= Starts(q.started, id)
  {
    if a.Process? {
      ProcessIsExact(q.h, a.now, a.script, a.xs, id);
      StartsAdd(q.started, After(q.h, a.script, a.xs).fired, id);
    }
  }

  lemma LiveIsFiled(q: Queue, id: nat)
    requires Valid(q.h, {}) && id in q.h.table
    ensures id in q.h.due
  {
  }

  /** A timer that nobody cancels is started by the first Process that comes at
      its deadline or later, whatever is added, cancelled and processed before. */
  lemma {:induction false} LiveIsStarted(q: Queue, acts: seq<Act>, id: nat)
    requires Valid(q.h, {}) && LegalRun(q, acts) && id in q.h.table
    requires forall a :: a in acts ==> !Cancels(a, id)
    requires exists a :: a in acts && Reaches(a, q.h.due[id])
    ensures Starts(DoAll(q, acts).started, id) > Starts(q.started, id)
    decreases |acts|
  {
    hide Valid, Legal, Cancels, Do, Starts;
    var a := acts[0];
    assert acts == [a] + acts[1..];
    assert id in q.h.due by { LiveIsFiled(q, id); }
    DoKeeps(q, a);
    if Reaches(a, q.h.due[id]) {
      ActStarts(q, a, id);
      StartsGrow(Do(q, a), acts[1..], id);
    } else {
      ActSpares(q, a, id);
      LiveIsStarted(Do(q, a), acts[1..], id);
    }
  }
}
