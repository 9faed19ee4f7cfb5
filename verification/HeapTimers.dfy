/** What becomes of a timer of the heap queue, told from the act that issued it
    and by the instants of the acts that follow. */
module HeapTimers {
  import opened HeapSpec
  import opened HeapRuns

  /** The timer is live, repeats with `interval` if that is positive, and has
      its heap item at `due`. */
  ghost predicate Holds(h: Heap, id: nat, due: nat, interval: int) {
    id in h.table && h.table[id] == interval && h.queue[Item(due, id)] == 1
  }

  /** How a Process at `now` leaves a timer that nobody cancels.  If it is not
      due, it has not been started and is as before.  If it is, it was started,
      at its deadline; it is then live exactly if it repeats, and due one
      interval after the end of its callback. */
  ghost predicate LeftAs(l: Loop, now: nat, script: Script, id: nat, due: nat, interval: int) {
    if due > now then
      id !in Ids(l.fired) && Holds(l.h, id, due, interval)
    else
      exists p: nat :: p < |l.fired| && l.fired[p] == Item(due, id)
        && (if interval > 0 then Holds(l.h, id, script(p).clock + interval, interval) else id !in l.h.table)
  }

  // ----------------------------------------------- a timer along the loop

  ghost predicate Lives(l: Loop, script: Script, id: nat, due: nat, interval: int) {
    && id <= l.h.counter
    && (id in l.h.table ==> l.h.table[id] == interval)
    && (id !in Ids(l.fired) ==> id in l.h.table && id in l.h.due && l.h.due[id] == due)
    && (forall p :: 0 <= p < |l.fired| && l.fired[p].id == id ==>
          && l.fired[p] == Item(due, id)
          && (id in l.h.table <==> interval > 0)
          && (interval > 0 ==> id in l.h.due && l.h.due[id] == script(p).clock + interval))
  }

  lemma LivesTurn(l: Loop, x: Item, script: Script, id: nat, due: nat, interval: int)
    requires Valid(l.h, {}) && x in l.h.queue && x.id in l.h.table && x.id !in Ids(l.fired)
    requires x.id in l.h.due && l.h.due[x.id] == x.expire
    requires Lives(l, script, id, due, interval) && CancelOp(id) !in script(|l.fired|).ops
    ensures Lives(Step(l, x, script), script, id, due, interval)
  {
    hide Valid, Turn;
    TurnEffect(l.h, x, script(|l.fired|), id);
    IdsAppend(l.fired, x);
    forall p | 0 <= p < |l.fired|
      ensures l.fired[p].id != x.id
    {
      assert l.fired[p] in l.fired && l.fired[p].id in Ids(l.fired);
    }
  }

  lemma LivesStep(h0: Heap, now: nat, l: Loop, x: Item, script: Script, id: nat, due: nat, interval: int)
    requires Going(h0, now, l) && x in l.h.queue && x.expire <= now
    requires Lives(l, script, id, due, interval) && NeverCancels(script, id)
    ensures Lives(Step(l, x, script), script, id, due, interval)
  {
    NotYetFired(h0, now, l, x);
    if x.id in l.h.table {
      hide Lives, Turn, Tracks;
      LivesTurn(l, x, script, id, due, interval);
    }
  }

  lemma {:induction false} RunLives(h0: Heap, now: nat, script: Script, xs: seq<Item>, id: nat, due: nat, interval: int)
    requires Valid(h0, {}) && OnTime(script, now) && Takes(h0, now, script, xs)
    requires Holds(h0, id, due, interval) && NeverCancels(script, id)
    ensures Lives(After(h0, script, xs), script, id, due, interval)
    decreases |xs|
  {
    if xs != [] {
      hide Valid, Tracks, Step, Lives, NeverCancels, OnTime;
      RunLives(h0, now, script, xs[..|xs| - 1], id, due, interval);
      RunGoes(h0, now, script, xs[..|xs| - 1]);
      LivesStep(h0, now, After(h0, script, xs[..|xs| - 1]), xs[|xs| - 1], script, id, due, interval);
    }
  }

  lemma LivesAtEnd(h0: Heap, now: nat, l: Loop, script: Script, id: nat, due: nat, interval: int)
    requires Going(h0, now, l) && NothingDue(l.h, now) && Lives(l, script, id, due, interval)
    ensures LeftAs(l, now, script, id, due, interval)
  {
    if id in l.h.due {
      assert l.h.queue[Item(l.h.due[id], id)] == 1;
      assert Item(l.h.due[id], id) in l.h.queue;
    }
    if id in Ids(l.fired) {
      var x :| x in l.fired && x.id == id;
      var p: nat :| p < |l.fired| && l.fired[p] == x;
      assert l.fired[p].id == id && l.fired[p] == Item(due, id);
    }
  }

  /** A Process on a timer that it finds live. */
  lemma ProcessOnTimer(h0: Heap, now: nat, script: Script, xs: seq<Item>, id: nat, due: nat, interval: int)
    requires Valid(h0, {}) && OnTime(script, now) && Finished(h0, now, script, xs)
    requires Holds(h0, id, due, interval) && NeverCancels(script, id)
    ensures LeftAs(After(h0, script, xs), now, script, id, due, interval)
  {
    hide Valid, Tracks, Lives, LeftAs, NothingDue;
    RunGoes(h0, now, script, xs);
    RunLives(h0, now, script, xs, id, due, interval);
    LivesAtEnd(h0, now, After(h0, script, xs), script, id, due, interval);
  }

  // --------------------------------------------------- issued by a callback

  lemma IssuedNow(h0: Heap, now: nat, l: Loop, x: Item, script: Script, j: nat)
    requires Going(h0, now, l) && x in l.h.queue && x.id in l.h.table
    requires var ops := script(|l.fired|).ops;
             j < |ops| && ops[j].AddOp? && CancelOp(l.h.counter + Adds(ops[..j + 1])) !in ops
    ensures var op := script(|l.fired|).ops[j];
            Lives(Step(l, x, script), script, l.h.counter + Adds(script(|l.fired|).ops[..j + 1]), op.due, op.interval)
  {
    hide Adds, ApplyAll;
    TakeKeeps(l.h, x);
    ApplyAllAdds(Take(l.h, x), script(|l.fired|).ops, j);
    IdsAppend(l.fired, x);
    forall y | y in l.fired + [x]
      ensures y.id <= l.h.counter
    {
    }
    forall id | id in Ids(l.fired + [x])
      ensures id <= l.h.counter
    {
      var y :| y in l.fired + [x] && y.id == id;
    }
  }

  lemma StepIssued(h0: Heap, now: nat, l: Loop, x: Item, script: Script, counter: nat, k: nat, j: nat)
    requires Going(h0, now, l) && x in l.h.queue && |l.fired| <= k && j < |script(k).ops| && script(k).ops[j].AddOp?
    requires l.h.counter == IssuedBefore(counter, script, |l.fired|) && NeverCancels(script, IdOf(counter, script, k, j))
    ensures var r := Step(l, x, script);
            k < |r.fired| ==> Lives(r, script, IdOf(counter, script, k, j), script(k).ops[j].due, script(k).ops[j].interval)
  {
    hide Going, Lives, Turn, Take, Adds, IssuedBefore;
    if k == |l.fired| && x.id in l.h.table {
      IssuedNow(h0, now, l, x, script, j);
    }
  }

  lemma {:induction false} RunIssued(h0: Heap, now: nat, script: Script, xs: seq<Item>, k: nat, j: nat)
    requires Valid(h0, {}) && OnTime(script, now) && Takes(h0, now, script, xs)
    requires j < |script(k).ops| && script(k).ops[j].AddOp? && NeverCancels(script, IdOf(h0.counter, script, k, j))
    ensures var l := After(h0, script, xs);
            k < |l.fired| ==>
              Lives(l, script, IdOf(h0.counter, script, k, j), script(k).ops[j].due, script(k).ops[j].interval)
    decreases |xs|
  {
    hide Valid, Tracks, Lives, OnTime, Step, IdOf, NeverCancels;
    if xs != [] {
      var l := After(h0, script, xs[..|xs| - 1]);
      var x := xs[|xs| - 1];
      RunIssued(h0, now, script, xs[..|xs| - 1], k, j);
      RunGoes(h0, now, script, xs[..|xs| - 1]);
      if k < |l.fired| {
        LivesStep(h0, now, l, x, script, IdOf(h0.counter, script, k, j), script(k).ops[j].due, script(k).ops[j].interval);
      } else {
        RunIssues(h0, script, xs[..|xs| - 1]);
        StepIssued(h0, now, l, x, script, h0.counter, k, j);
      }
    }
  }

  /** A timer that is added while callback `k` of a Process runs, by operation
      `j`, is left as asked for: started in this very Process if it is due at
      once, waiting for its deadline if not. */
  lemma CallbackTimer(h0: Heap, now: nat, script: Script, xs: seq<Item>, k: nat, j: nat)
    requires Valid(h0, {}) && OnTime(script, now) && Finished(h0, now, script, xs)
    requires k < |After(h0, script, xs).fired| && j < |script(k).ops| && script(k).ops[j].AddOp?
    requires NeverCancels(script, IdOf(h0.counter, script, k, j))
    ensures LeftAs(After(h0, script, xs), now, script, IdOf(h0.counter, script, k, j), script(k).ops[j].due,
                   script(k).ops[j].interval)
  {
    hide Valid, Tracks, Lives, LeftAs, NothingDue, IdOf;
    RunGoes(h0, now, script, xs);
    RunIssued(h0, now, script, xs, k, j);
    LivesAtEnd(h0, now, After(h0, script, xs), script, IdOf(h0.counter, script, k, j), script(k).ops[j].due,
               script(k).ops[j].interval);
  }

  // -------------------------------------------------------- over whole runs

  lemma AddHolds(h: Heap, due: nat, interval: int)
    requires Valid(h, {})
    ensures Holds(AddTimer(h, due, interval), h.counter + 1, due, interval)
  {
    assert h.queue[Item(due, h.counter + 1)] == 0;
  }

  lemma NotStarted(fired: seq<Item>, id: nat)
    requires id !in Ids(fired)
    ensures Starts(fired, id) == 0
    decreases |fired|
  {
    if fired != [] {
      var front, x := fired[..|fired| - 1], fired[|fired| - 1];
      assert fired == front + [x] && x in fired && x.id in Ids(fired);
      IdsAppend(front, x);
      NotStarted(front, id);
    }
  }

  lemma ActBeforeDue(q: Queue, a: Act, id: nat, due: nat, interval: int)
    requires Valid(q.h, {}) && Legal(q, a) && !Cancels(a, id) && !Reaches(a, due) && Holds(q.h, id, due, interval)
    ensures Holds(Do(q, a).h, id, due, interval) && Starts(Do(q, a).started, id) == Starts(q.started, id)
  {
    match a
    case Add(d, _) => assert q.h.queue[Item(due, id)] == 1;
    case Cancel(_) =>
    case Process(now, script, xs) =>
      ProcessOnTimer(q.h, now, script, xs, id, due, interval);
      NotStarted(After(q.h, script, xs).fired, id);
      StartsAdd(q.started, After(q.h, script, xs).fired, id);
  }

  lemma {:induction false} HoldsUntilDue(q: Queue, acts: seq<Act>, id: nat, due: nat, interval: int)
    requires Valid(q.h, {}) && LegalRun(q, acts) && Holds(q.h, id, due, interval)
    requires forall a :: a in acts ==> !Cancels(a, id) && !Reaches(a, due)
    ensures var r := DoAll(q, acts);
            Valid(r.h, {}) && Holds(r.h, id, due, interval) && Starts(r.started, id) == Starts(q.started, id)
    decreases |acts|
  {
    hide Valid, Legal, Cancels, Do, Starts, Holds;
    if acts != [] {
      assert acts == [acts[0]] + acts[1..];
      DoKeeps(q, acts[0]);
      ActBeforeDue(q, acts[0], id, due, interval);
      HoldsUntilDue(Do(q, acts[0]), acts[1..], id, due, interval);
    }
  }

  lemma {:induction false} LegalSplit(q: Queue, xs: seq<Act>, a: Act)
    requires LegalRun(q, xs + [a])
    ensures LegalRun(q, xs) && Legal(DoAll(q, xs), a)
    decreases |xs|
  {
    if xs == [] {
      assert (xs + [a])[0] == a;
    } else {
      assert (xs + [a])[0] == xs[0] && (xs + [a])[1..] == xs[1..] + [a];
      LegalSplit(Do(q, xs[0]), xs[1..], a);
    }
  }

  lemma SparedByAct(a: Act, id: nat)
    requires a.Process? && !Cancels(a, id)
    ensures NeverCancels(a.script, id)
  {
  }

  /** A timer added with this deadline and interval, that nobody cancels: it is
      not started before its deadline; the first Process that comes at its
      deadline or later starts it, leaves it live if and only if the interval
      is positive, and then due one such interval after its callback. */
  lemma AddedTimer(q: Queue, due: nat, interval: int, mid: seq<Act>, a: Act)
    requires Valid(q.h, {}) && LegalRun(Do(q, Add(due, interval)), mid + [a])
    requires forall x :: x in mid ==> !Cancels(x, q.h.counter + 1) && !Reaches(x, due)
    requires a.Process? && !Cancels(a, q.h.counter + 1)
    ensures var before := DoAll(Do(q, Add(due, interval)), mid);
            && Starts(before.started, q.h.counter + 1) == Starts(q.started, q.h.counter + 1)
            && LeftAs(After(before.h, a.script, a.xs), a.now, a.script, q.h.counter + 1, due, interval)
  {
    var q1 := Do(q, Add(due, interval));
    AddHolds(q.h, due, interval);
    AddKeeps(q.h, {}, due, interval);
    hide Valid, Holds, LeftAs, Cancels, Starts;
    LegalSplit(q1, mid, a);
    HoldsUntilDue(q1, mid, q.h.counter + 1, due, interval);
    assert NeverCancels(a.script, q.h.counter + 1) by { SparedByAct(a, q.h.counter + 1); }
    ProcessOnTimer(DoAll(q1, mid).h, a.now, a.script, a.xs, q.h.counter + 1, due, interval);
  }

  /** A Cancel of an issued id: nothing that follows starts it, and the others
      stay live. */
  lemma CancelEndsIt(q: Queue, id: nat, acts: seq<Act>)
    requires id <= q.h.counter
    ensures var r := DoAll(Do(q, Cancel(id)), acts);
            id !in r.h.table && Starts(r.started, id) == Starts(q.started, id)
    ensures forall x :: x in q.h.table && x != id ==>
              x in Do(q, Cancel(id)).h.table && Do(q, Cancel(id)).h.table[x] == q.h.table[x]
  {
    CancelledNeverStarts(Do(q, Cancel(id)), acts, id);
  }
}
