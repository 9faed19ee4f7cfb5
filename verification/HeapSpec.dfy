/** The heap queue: a priority queue of (deadline, weak reference) and a table
    that owns the timers.  A heap item is dead once its id has left the table.

    `due` is a history variable: the deadline of each id that has a heap item.
 */
module HeapSpec {

  datatype Item = Item(expire: nat, id: nat)

  datatype Op = AddOp(due: nat, interval: int) | CancelOp(id: nat)

  /** What happens to the queue while one callback runs and the lock is free,
      from the callback and from other threads alike, and what the clock shows
      when the callback is over. */
  datatype Reaction = Reaction(ops: seq<Op>, clock: nat)

  /** What happens during the k-th callback of a Process. */
  type Script = nat -> Reaction

  datatype Heap = Heap(counter: nat, queue: multiset<Item>, table: map<nat, int>, due: map<nat, nat>)

  const EMPTY := Heap(0, multiset{}, map[], map[])

  /** Every id has at most one heap item, the one of its deadline; every live
      id has one, except `running`, whose callback is under way. */
  ghost predicate Valid(h: Heap, running: set<nat>) {
    && (forall e: nat, id: nat :: h.queue[Item(e, id)] == if id in h.due && h.due[id] == e then 1 else 0)
    && (forall id :: id in h.due ==> 1 <= id <= h.counter && id !in running)
    && (forall id :: id in h.table ==> 1 <= id <= h.counter && (id in h.due || id in running))
    && (forall id :: id in running ==> 1 <= id <= h.counter)
  }

  function Push(h: Heap, id: nat, expire: nat): Heap {
    h.(queue := h.queue + multiset{Item(expire, id)}, due := h.due[id := expire])
  }

  function AddTimer(h: Heap, due: nat, interval: int): Heap {
    var id := h.counter + 1;
    Push(h.(counter := id, table := h.table[id := interval]), id, due)
  }

  function CancelTimer(h: Heap, id: nat): Heap { h.(table := h.table - {id}) }

  function Apply(h: Heap, op: Op): Heap {
    match op
    case AddOp(due, interval) => AddTimer(h, due, interval)
    case CancelOp(id) => CancelTimer(h, id)
  }

  function ApplyAll(h: Heap, ops: seq<Op>): Heap
    decreases |ops|
  {
    if ops == [] then h else ApplyAll(Apply(h, ops[0]), ops[1..])
  }

  function Take(h: Heap, x: Item): Heap {
    h.(queue := h.queue - multiset{x}, due := h.due - {x.id})
  }

  /** After the callback: a repeating timer gets a new heap item, whether or not
      it has been cancelled meanwhile; a one-shot timer leaves the table. */
  function Settle(h: Heap, id: nat, interval: int, clock: nat): Heap {
    if interval > 0 then Push(h, id, clock + interval) else CancelTimer(h, id)
  }

  lemma PushKeeps(h: Heap, running: set<nat>, id: nat, expire: nat)
    requires Valid(h, running) && id !in h.due && 1 <= id <= h.counter
    ensures Valid(Push(h, id, expire), running - {id})
  {
  }

  lemma AddKeeps(h: Heap, running: set<nat>, due: nat, interval: int)
    requires Valid(h, running)
    ensures Valid(AddTimer(h, due, interval), running)
  {
  }

  lemma CancelKeeps(h: Heap, running: set<nat>, id: nat)
    requires Valid(h, running)
    ensures Valid(CancelTimer(h, id), running)
  {
  }

  lemma {:induction false} ApplyAllKeeps(h: Heap, running: set<nat>, ops: seq<Op>)
    requires Valid(h, running)
    ensures Valid(ApplyAll(h, ops), running)
    decreases |ops|
  {
    if ops != [] {
      if ops[0].AddOp? {
        AddKeeps(h, running, ops[0].due, ops[0].interval);
      }
      ApplyAllKeeps(Apply(h, ops[0]), running, ops[1..]);
    }
  }

  lemma TakeKeeps(h: Heap, x: Item)
    requires Valid(h, {}) && x in h.queue
    ensures Valid(Take(h, x), {x.id}) && x.id in h.due && h.due[x.id] == x.expire
    ensures x.id !in h.table ==> Valid(Take(h, x), {})
  {
    assert h.queue[x] == h.queue[Item(x.expire, x.id)];
  }

  lemma SettleKeeps(h: Heap, id: nat, interval: int, clock: nat)
    requires Valid(h, {id})
    ensures Valid(Settle(h, id, interval, clock), {})
  {
    if interval > 0 {
      PushKeeps(h, {id}, id, clock + interval);
      assert {id} - {id} == {};
    }
  }

  lemma {:induction false} EarliestUpTo(queue: multiset<Item>, bound: nat)
    requires exists x :: x in queue && x.expire <= bound
    ensures exists x :: x in queue && forall y :: y in queue ==> x.expire <= y.expire
  {
    if exists x :: x in queue && x.expire < bound {
      EarliestUpTo(queue, bound - 1);
    } else {
      var x :| x in queue && x.expire <= bound;
      assert forall y :: y in queue ==> x.expire <= y.expire;
    }
  }

  /** A heap with an item has an earliest one. */
  lemma HasEarliest(queue: multiset<Item>)
    requires queue != multiset{}
    ensures exists x :: x in queue && forall y :: y in queue ==> x.expire <= y.expire
  {
    var x :| x in queue;
    EarliestUpTo(queue, x.expire);
  }

  /** The turn of a live timer: taken, called, settled. */
  function Turn(h: Heap, x: Item, r: Reaction): Heap
    requires x.id in h.table
  {
    Settle(ApplyAll(Take(h, x), r.ops), x.id, h.table[x.id], r.clock)
  }

  // ------------------------------------------------- one run of Process

  /** `fired` are the items whose callbacks have been started. */
  datatype Loop = Loop(h: Heap, fired: seq<Item>)

  ghost predicate Earliest(h: Heap, x: Item) {
    x in h.queue && forall y :: y in h.queue ==> x.expire <= y.expire
  }

  ghost predicate NothingDue(h: Heap, now: nat) {
    forall x :: x in h.queue ==> x.expire > now
  }

  /** The loop body, for the item on top. */
  function Step(l: Loop, x: Item, script: Script): Loop {
    if x.id in l.h.table then Loop(Turn(l.h, x, script(|l.fired|)), l.fired + [x]) else Loop(Take(l.h, x), l.fired)
  }

  /** The loop after it has taken the items `xs`. */
  function After(h: Heap, script: Script, xs: seq<Item>): Loop
    decreases |xs|
  {
    if xs == [] then Loop(h, []) else Step(After(h, script, xs[..|xs| - 1]), xs[|xs| - 1], script)
  }

  /** Each of the items was on top when it was taken, and due.  Among equal
      deadlines, which is on top is open. */
  ghost predicate Takes(h: Heap, now: nat, script: Script, xs: seq<Item>)
    decreases |xs|
  {
    xs == [] ||
    var front, x := xs[..|xs| - 1], xs[|xs| - 1];
    Takes(h, now, script, front) && Earliest(After(h, script, front).h, x) && x.expire <= now
  }

  ghost predicate Finished(h: Heap, now: nat, script: Script, xs: seq<Item>) {
    Takes(h, now, script, xs) && NothingDue(After(h, script, xs).h, now)
  }

  /** The clock does not go back. */
  ghost predicate OnTime(script: Script, now: nat) {
    forall k: nat :: now <= script(k).clock
  }

  ghost predicate AddOpFor(ops: seq<Op>, due: nat) {
    exists j :: 0 <= j < |ops| && ops[j].AddOp? && ops[j].due == due
  }

  /** Everything added is due later than `now`: the delays are positive. */
  ghost predicate Later(ops: seq<Op>, now: nat) {
    forall due: nat :: AddOpFor(ops, due) ==> due > now
  }

  /** The k-th callback of the Process, k below `n`, or something while it ran,
      cancels the timer. */
  ghost predicate Cancelled(script: Script, n: nat, id: nat) {
    exists k: nat :: k < n && CancelOp(id) in script(k).ops
  }

  // --------------------------------------------------- what operations do

  /** Callbacks add, and other threads add, fresh ids only. */
  lemma {:induction false} ApplyAllEffect(h: Heap, ops: seq<Op>)
    requires forall id :: id in h.due ==> id <= h.counter
    ensures var r := ApplyAll(h, ops);
            && r.counter >= h.counter
            && (forall id :: id in h.due ==> id in r.due && r.due[id] == h.due[id])
            && (forall id :: id in r.due && id !in h.due ==> h.counter < id <= r.counter && AddOpFor(ops, r.due[id]))
            && (forall id :: id in r.table && id <= h.counter ==> id in h.table && r.table[id] == h.table[id])
    decreases |ops|
  {
    if ops != [] {
      var h1 := Apply(h, ops[0]);
      ApplyAllEffect(h1, ops[1..]);
      forall id | id in ApplyAll(h, ops).due && id !in h.due
        ensures h.counter < id <= ApplyAll(h, ops).counter && AddOpFor(ops, ApplyAll(h, ops).due[id])
      {
        if id in h1.due {
          assert ops[0].AddOp? && ops[0].due == ApplyAll(h, ops).due[id];
        } else {
          var j :| 0 <= j < |ops[1..]| && ops[1..][j].AddOp? && ops[1..][j].due == ApplyAll(h, ops).due[id];
          assert ops[j + 1] == ops[1..][j];
        }
      }
    }
  }

  /** An id that has been issued leaves the table by being cancelled only. */
  lemma {:induction false} ApplyAllTable(h: Heap, ops: seq<Op>, id: nat)
    requires id <= h.counter
    ensures var r := ApplyAll(h, ops);
            && (id in r.table <==> id in h.table && CancelOp(id) !in ops)
            && (id in r.table ==> r.table[id] == h.table[id])
    decreases |ops|
  {
    if ops != [] {
      assert ops == [ops[0]] + ops[1..];
      ApplyAllTable(Apply(h, ops[0]), ops[1..], id);
    }
  }

  /** What a turn does to any id: the timer itself comes back one interval
      after its callback if it is a repeating one, every other deadline stays,
      and a timer stays live unless it was cancelled, in its own callback too,
      or is the one-shot timer whose turn it was. */
  lemma TurnEffect(h: Heap, x: Item, r: Reaction, id: nat)
    requires Valid(h, {}) && x in h.queue && x.id in h.table && id <= h.counter
    ensures var h' := Turn(h, x, r);
            && h'.counter >= h.counter
            && (id in h'.table <==> id in h.table && CancelOp(id) !in r.ops && (id == x.id ==> h.table[id] > 0))
            && (id in h'.table ==> h'.table[id] == h.table[id])
            && (id in h.due && id != x.id ==> id in h'.due && h'.due[id] == h.due[id])
            && (id == x.id && id in h'.table ==> id in h'.due && h'.due[id] == r.clock + h.table[id])
  {
    hide ApplyAll;
    var h1 := Take(h, x);
    TakeKeeps(h, x);
    ApplyAllEffect(h1, r.ops);
    ApplyAllTable(h1, r.ops, id);
  }

  lemma TurnIsValid(h: Heap, x: Item, r: Reaction)
    requires Valid(h, {}) && x in h.queue && x.id in h.table
    ensures Valid(Turn(h, x, r), {})
  {
    TakeKeeps(h, x);
    ApplyAllKeeps(Take(h, x), {x.id}, r.ops);
    SettleKeeps(ApplyAll(Take(h, x), r.ops), x.id, h.table[x.id], r.clock);
  }

  lemma StepKeeps(l: Loop, x: Item, script: Script)
    requires Valid(l.h, {}) && x in l.h.queue
    ensures Valid(Step(l, x, script).h, {})
  {
    hide Valid, Turn, Take;
    if x.id in l.h.table {
      TurnIsValid(l.h, x, script(|l.fired|));
    } else {
      TakeKeeps(l.h, x);
    }
  }

  // ------------------------------------------------ what has become of an id

  function Ids(fired: seq<Item>): set<nat> { set x | x in fired :: x.id }

  /** What a Process at `now` that began on `h0` has done so far. */
  ghost predicate Tracks(h0: Heap, h: Heap, now: nat, fired: seq<Item>) {
    && h.counter >= h0.counter
    && (forall id :: id in h0.due || id in h0.table ==> id <= h0.counter)
    && (forall id :: id in h.table && id <= h0.counter ==> id in h0.table && h.table[id] == h0.table[id])
    && (forall id :: id in h.due && id <= h0.counter ==> id in h0.due)
    && (forall x :: x in fired ==> x.expire <= now && x.id <= h.counter)
    && (forall x :: x in fired && x.id <= h0.counter ==> x.id in h0.table && x.id in h0.due && h0.due[x.id] == x.expire)
    && (forall id :: id in h.due && id in Ids(fired) ==> h.due[id] > now)
    && (forall id :: id in h0.due && id !in Ids(fired) ==>
          if id in h.due then h.due[id] == h0.due[id] else h0.due[id] <= now && id !in h.table)
    && (forall i, j :: 0 <= i < j < |fired| ==> fired[i].id != fired[j].id)
  }

  lemma TracksDead(h0: Heap, h: Heap, now: nat, fired: seq<Item>, x: Item)
    requires Tracks(h0, h, now, fired) && Valid(h, {}) && x in h.queue && x.expire <= now && x.id !in h.table
    ensures Tracks(h0, Take(h, x), now, fired)
  {
    TakeKeeps(h, x);
  }

  lemma IdsAppend(fired: seq<Item>, x: Item)
    ensures Ids(fired + [x]) == Ids(fired) + {x.id}
  {
    var longer := fired + [x];
    assert longer[|fired|] == x;
    forall id | id in Ids(fired) + {x.id}
      ensures id in Ids(longer)
    {
      if id in Ids(fired) {
        var y :| y in fired && y.id == id;
        assert y in longer;
      } else {
        assert x in longer;
      }
    }
  }

  lemma TracksStart(h0: Heap, h: Heap, now: nat, fired: seq<Item>, x: Item)
    requires Tracks(h0, h, now, fired) && Valid(h, {}) && x in h.queue && x.expire <= now && x.id in h.table
    ensures Tracks(h0, Take(h, x), now, fired + [x])
  {
    TakeKeeps(h, x);
    IdsAppend(fired, x);
    assert x.id !in Ids(fired);
    forall y | y in fired
      ensures y.id != x.id
    {
      assert y.id in Ids(fired);
    }
  }

  lemma TracksOps(h0: Heap, h: Heap, now: nat, fired: seq<Item>, ops: seq<Op>)
    requires Tracks(h0, h, now, fired) && (forall id :: id in h.due ==> id <= h.counter)
    ensures Tracks(h0, ApplyAll(h, ops), now, fired)
  {
    ApplyAllEffect(h, ops);
    forall id | id in Ids(fired)
      ensures id <= h.counter
    {
      var x :| x in fired && x.id == id;
    }
  }

  lemma TracksSettle(h0: Heap, h: Heap, now: nat, fired: seq<Item>, x: Item, interval: int, clock: nat)
    requires Tracks(h0, h, now, fired) && x in fired && x.id !in h.due && now <= clock
    ensures Tracks(h0, Settle(h, x.id, interval, clock), now, fired)
  {
    assert x.id in Ids(fired);
  }

  lemma TurnTracks(h0: Heap, h: Heap, now: nat, fired: seq<Item>, x: Item, r: Reaction)
    requires Valid(h, {}) && Tracks(h0, h, now, fired) && now <= r.clock
    requires x in h.queue && x.expire <= now && x.id in h.table
    ensures Tracks(h0, Turn(h, x, r), now, fired + [x])
  {
    var h1 := Take(h, x);
    TakeKeeps(h, x);
    TracksStart(h0, h, now, fired, x);
    TracksOps(h0, h1, now, fired + [x], r.ops);
    ApplyAllEffect(h1, r.ops);
    assert (fired + [x])[|fired|] == x;
    TracksSettle(h0, ApplyAll(h1, r.ops), now, fired + [x], x, h.table[x.id], r.clock);
  }

  /** How a timer that was live when the Process began may have fared: it
      leaves the table by being started, if it is a one-shot timer, or by being
      cancelled, and in no other way; it is not started once it has been
      cancelled; and if it repeats, it is due one interval after its callback. */
  ghost predicate Fate(script: Script, l: Loop, id: nat, interval: int) {
    && id <= l.h.counter
    && (id in l.h.table || (id in Ids(l.fired) && interval <= 0) || Cancelled(script, |l.fired|, id))
    && (id in Ids(l.fired) && interval <= 0 ==> id !in l.h.table)
    && (id in l.h.table ==> l.h.table[id] == interval)
    && (Cancelled(script, |l.fired|, id) ==> id !in l.h.table)
    && (forall p :: 0 <= p < |l.fired| && l.fired[p].id == id ==> !Cancelled(script, p, id))
    && (forall p :: 0 <= p < |l.fired| && l.fired[p].id == id && id in l.h.table
          ==> id in l.h.due && l.h.due[id] == script(p).clock + interval)
  }

  lemma CancelledStep(script: Script, n: nat, id: nat)
    ensures Cancelled(script, n + 1, id) <==> Cancelled(script, n, id) || CancelOp(id) in script(n).ops
  {
  }

  lemma TurnFate(l: Loop, now: nat, x: Item, script: Script, id: nat, interval: int)
    requires Valid(l.h, {}) && x in l.h.queue && x.id in l.h.table && x.id !in Ids(l.fired)
    requires Fate(script, l, id, interval)
    ensures Fate(script, Step(l, x, script), id, interval)
  {
    hide Valid, Turn, Cancelled;
    TurnEffect(l.h, x, script(|l.fired|), id);
    CancelledStep(script, |l.fired|, id);
    IdsAppend(l.fired, x);
    forall p | 0 <= p < |l.fired|
      ensures l.fired[p].id != x.id
    {
      assert l.fired[p] in l.fired && l.fired[p].id in Ids(l.fired);
    }
  }

  lemma DeadFate(l: Loop, x: Item, script: Script, id: nat, interval: int)
    requires x.id !in l.h.table && Fate(script, l, id, interval)
    ensures Fate(script, Step(l, x, script), id, interval)
  {
    hide Cancelled;
  }

  predicate InOrder(fired: seq<Item>) {
    forall i, j :: 0 <= i < j < |fired| ==> fired[i].expire <= fired[j].expire
  }

  /** No heap item precedes a deadline already served. */
  ghost predicate Ordered(l: Loop) {
    InOrder(l.fired) && forall x, y :: x in l.fired && y in l.h.queue ==> x.expire <= y.expire
  }

  /** What is in the queue after a turn was there before, or has been added, or
      is the timer itself, later than now. */
  lemma TurnQueue(h: Heap, now: nat, x: Item, r: Reaction, y: Item)
    requires Valid(h, {}) && x in h.queue && x.id in h.table && now <= r.clock && y in Turn(h, x, r).queue
    ensures y in h.queue || AddOpFor(r.ops, y.expire) || y.expire > now
  {
    var h' := Turn(h, x, r);
    var h1 := Take(h, x);
    TurnIsValid(h, x, r);
    TakeKeeps(h, x);
    ApplyAllEffect(h1, r.ops);
    assert h'.queue[y] == h'.queue[Item(y.expire, y.id)];
    assert y.id in h'.due && h'.due[y.id] == y.expire;
    if y.id != x.id && y.id in h.due {
      assert h.queue[Item(y.expire, y.id)] == 1;
    }
  }

  lemma TurnOrdered(l: Loop, now: nat, x: Item, script: Script)
    requires Valid(l.h, {}) && Ordered(l) && (forall y :: y in l.fired ==> y.expire <= now)
    requires Earliest(l.h, x) && x.expire <= now && x.id in l.h.table && now <= script(|l.fired|).clock
    requires forall due: nat :: AddOpFor(script(|l.fired|).ops, due) ==> now <= due
    ensures Ordered(Step(l, x, script))
  {
    hide Valid, Turn, AddOpFor;
    forall y, z | y in l.fired + [x] && z in Turn(l.h, x, script(|l.fired|)).queue
      ensures y.expire <= z.expire
    {
      TurnQueue(l.h, now, x, script(|l.fired|), z);
    }
  }

  // --------------------------------------------------------- along the loop

  ghost predicate Going(h0: Heap, now: nat, l: Loop) {
    Valid(l.h, {}) && Tracks(h0, l.h, now, l.fired)
  }

  lemma NotYetFired(h0: Heap, now: nat, l: Loop, x: Item)
    requires Going(h0, now, l) && x in l.h.queue && x.expire <= now
    ensures x.id !in Ids(l.fired) && x.id in l.h.due && l.h.due[x.id] == x.expire
  {
    TakeKeeps(l.h, x);
  }

  lemma GoingStep(h0: Heap, now: nat, l: Loop, x: Item, script: Script)
    requires Going(h0, now, l) && OnTime(script, now) && x in l.h.queue && x.expire <= now
    ensures Going(h0, now, Step(l, x, script))
  {
    StepKeeps(l, x, script);
    if x.id in l.h.table {
      TurnTracks(h0, l.h, now, l.fired, x, script(|l.fired|));
    } else {
      TracksDead(h0, l.h, now, l.fired, x);
    }
  }

  lemma {:induction false} RunGoes(h0: Heap, now: nat, script: Script, xs: seq<Item>)
    requires Valid(h0, {}) && OnTime(script, now) && Takes(h0, now, script, xs)
    ensures Going(h0, now, After(h0, script, xs))
    decreases |xs|
  {
    if xs != [] {
      hide Going, Valid, Step, OnTime;
      RunGoes(h0, now, script, xs[..|xs| - 1]);
      GoingStep(h0, now, After(h0, script, xs[..|xs| - 1]), xs[|xs| - 1], script);
    }
  }

  lemma {:induction false} RunFate(h0: Heap, now: nat, script: Script, xs: seq<Item>, id: nat)
    requires Valid(h0, {}) && OnTime(script, now) && Takes(h0, now, script, xs) && id in h0.table
    ensures Fate(script, After(h0, script, xs), id, h0.table[id])
    decreases |xs|
  {
    if xs != [] {
      hide Fate, Step, OnTime, Tracks;
      var l := After(h0, script, xs[..|xs| - 1]);
      var x := xs[|xs| - 1];
      RunFate(h0, now, script, xs[..|xs| - 1], id);
      RunGoes(h0, now, script, xs[..|xs| - 1]);
      NotYetFired(h0, now, l, x);
      if x.id in l.h.table {
        TurnFate(l, now, x, script, id, h0.table[id]);
      } else {
        DeadFate(l, x, script, id, h0.table[id]);
      }
    }
  }

  // ---------------------------------------------------------- main theorems

  lemma WhereAtEnd(h0: Heap, now: nat, l: Loop, id: nat)
    requires Going(h0, now, l) && NothingDue(l.h, now) && id in h0.table && id in h0.due
    ensures h0.due[id] <= now ==> Item(h0.due[id], id) in l.fired || id !in l.h.table
    ensures h0.due[id] <= now <==> id in Ids(l.fired) || id !in l.h.due
    ensures id in Ids(l.fired) ==> Item(h0.due[id], id) in l.fired
    ensures h0.due[id] > now ==> id !in Ids(l.fired) && id in l.h.due && l.h.due[id] == h0.due[id]
  {
    if id in l.h.due {
      assert l.h.queue[Item(l.h.due[id], id)] == 1;
      assert Item(l.h.due[id], id) in l.h.queue;
    }
    if id in Ids(l.fired) {
      var x :| x in l.fired && x.id == id;
      assert x == Item(h0.due[id], id);
    }
  }

  lemma ExactAtEnd(h0: Heap, now: nat, l: Loop, script: Script, id: nat)
    requires Going(h0, now, l) && NothingDue(l.h, now) && id in h0.table && id in h0.due
    requires Fate(script, l, id, h0.table[id])
    ensures h0.due[id] <= now ==> Item(h0.due[id], id) in l.fired || Cancelled(script, |l.fired|, id)
    ensures h0.due[id] > now ==> id !in Ids(l.fired) && id in l.h.due && l.h.due[id] == h0.due[id]
    ensures id in l.h.table <==> !Cancelled(script, |l.fired|, id) && (h0.due[id] <= now ==> h0.table[id] > 0)
  {
    hide Cancelled, Tracks, Valid;
    WhereAtEnd(h0, now, l, id);
  }

  /** A finished Process has started exactly the timers that were due, at their
      deadlines, less those cancelled before their turn.  A one-shot timer is
      then gone; a repeating one is due one interval after its callback, unless
      cancelled; the others are where they were. */
  lemma ProcessIsExact(h0: Heap, now: nat, script: Script, xs: seq<Item>, id: nat)
    requires Valid(h0, {}) && OnTime(script, now) && Finished(h0, now, script, xs) && id in h0.table
    ensures var Loop(h, fired) := After(h0, script, xs);
            && (h0.due[id] <= now ==> Item(h0.due[id], id) in fired || Cancelled(script, |fired|, id))
            && (h0.due[id] > now ==> id !in Ids(fired) && id in h.due && h.due[id] == h0.due[id])
            && (forall p :: 0 <= p < |fired| && fired[p].id == id ==> !Cancelled(script, p, id))
            && (id in h.table <==> !Cancelled(script, |fired|, id) && (h0.due[id] <= now ==> h0.table[id] > 0))
            && (forall p :: 0 <= p < |fired| && fired[p].id == id && id in h.table
                  ==> id in h.due && h.due[id] == script(p).clock + h0.table[id])
  {
    RunGoes(h0, now, script, xs);
    RunFate(h0, now, script, xs, id);
    ExactAtEnd(h0, now, After(h0, script, xs), script, id);
  }

  lemma {:induction false} RunOrdered(h0: Heap, now: nat, script: Script, xs: seq<Item>)
    requires Valid(h0, {}) && OnTime(script, now) && Takes(h0, now, script, xs)
    requires forall k: nat, due: nat :: AddOpFor(script(k).ops, due) ==> now <= due
    ensures Ordered(After(h0, script, xs))
    decreases |xs|
  {
    if xs != [] {
      var l := After(h0, script, xs[..|xs| - 1]);
      var x := xs[|xs| - 1];
      RunOrdered(h0, now, script, xs[..|xs| - 1]);
      RunGoes(h0, now, script, xs[..|xs| - 1]);
      if x.id in l.h.table {
        TurnOrdered(l, now, x, script);
      }
    }
  }

  /** At every moment of a Process: what has been started was due, was live
      when the Process began unless added since, and nothing was started twice;
      with no deadline added in the past, the order is that of the deadlines. */
  lemma StartsOnlyDue(h0: Heap, now: nat, script: Script, xs: seq<Item>)
    requires Valid(h0, {}) && OnTime(script, now) && Takes(h0, now, script, xs)
    ensures var fired := After(h0, script, xs).fired;
            && (forall x :: x in fired ==> x.expire <= now)
            && (forall x :: x in fired && x.id <= h0.counter ==> x.id in h0.table && x in h0.queue)
            && (forall i, j :: 0 <= i < j < |fired| ==> fired[i].id != fired[j].id)
            && ((forall k: nat, due: nat :: AddOpFor(script(k).ops, due) ==> now <= due) ==> InOrder(fired))
  {
    RunGoes(h0, now, script, xs);
    var fired := After(h0, script, xs).fired;
    forall x | x in fired && x.id <= h0.counter
      ensures x in h0.queue
    {
      assert h0.queue[Item(x.expire, x.id)] == 1;
    }
    if forall k: nat, due: nat :: AddOpFor(script(k).ops, due) ==> now <= due {
      RunOrdered(h0, now, script, xs);
    }
  }

  // ------------------------------------------------------------ termination

  /** The timers a Process at `now` may still take. */
  function DueItems(h: Heap, now: nat): set<nat> {
    set id | id in h.due && h.due[id] <= now
  }

  /** Repeats come back later than now, and so does what is added: each round
      of the loop leaves fewer items due. */
  lemma StepShrinks(l: Loop, now: nat, x: Item, script: Script)
    requires Valid(l.h, {}) && x in l.h.queue && x.expire <= now
    requires now <= script(|l.fired|).clock && Later(script(|l.fired|).ops, now)
    ensures DueItems(Step(l, x, script).h, now) < DueItems(l.h, now)
  {
    TakeKeeps(l.h, x);
    assert x.id in DueItems(l.h, now);
    if x.id in l.h.table {
      ApplyAllEffect(Take(l.h, x), script(|l.fired|).ops);
      assert x.id !in DueItems(Step(l, x, script).h, now);
    }
  }

  lemma DeadShrinks(h: Heap, now: nat, x: Item)
    requires Valid(h, {}) && x in h.queue && x.expire <= now && x.id !in h.table
    ensures DueItems(Take(h, x), now) < DueItems(h, now)
  {
    TakeKeeps(h, x);
    assert x.id in DueItems(h, now);
  }

  /** One more round. */
  lemma Extend(h: Heap, now: nat, script: Script, xs: seq<Item>, x: Item)
    requires Takes(h, now, script, xs) && Earliest(After(h, script, xs).h, x) && x.expire <= now
    ensures Takes(h, now, script, xs + [x])
    ensures After(h, script, xs + [x]) == Step(After(h, script, xs), x, script)
  {
    assert (xs + [x])[..|xs|] == xs;
  }

  lemma Fewer(a: set<nat>, b: set<nat>)
    requires a < b
    ensures |a| < |b|
  {
    assert b == a + (b - a);
    assert |b - a| > 0;
  }

  /** When callbacks add with positive delays, a Process takes at most as many
      items as are due when it begins. */
  lemma {:induction false} EndsInTime(h0: Heap, now: nat, script: Script, xs: seq<Item>)
    requires Valid(h0, {}) && OnTime(script, now) && Takes(h0, now, script, xs)
    requires forall k: nat :: Later(script(k).ops, now)
    ensures |xs| + |DueItems(After(h0, script, xs).h, now)| <= |DueItems(h0, now)|
    decreases |xs|
  {
    hide Step, Valid, Tracks, Later, DueItems;
    if xs != [] {
      var l := After(h0, script, xs[..|xs| - 1]);
      EndsInTime(h0, now, script, xs[..|xs| - 1]);
      RunGoes(h0, now, script, xs[..|xs| - 1]);
      StepShrinks(l, now, xs[|xs| - 1], script);
      Fewer(DueItems(Step(l, xs[|xs| - 1], script).h, now), DueItems(l.h, now));
    }
  }

  // ---------------------------------------------------------- feeding it

  /** How many ids the operations issue. */
  function Adds(ops: seq<Op>): nat {
    if ops == [] then 0 else (if ops[0].AddOp? then 1 else 0) + Adds(ops[1..])
  }

  /** The last id issued before callback `k` of a Process. */
  function IssuedBefore(counter: nat, script: Script, k: nat): nat {
    if k == 0 then counter else IssuedBefore(counter, script, k - 1) + Adds(script(k - 1).ops)
  }

  /** The id that operation `j` of callback `k` is given. */
  function IdOf(counter: nat, script: Script, k: nat, j: nat): nat
    requires j < |script(k).ops|
  {
    IssuedBefore(counter, script, k) + Adds(script(k).ops[..j + 1])
  }

  ghost predicate NeverCancels(script: Script, id: nat) {
    forall k: nat :: CancelOp(id) !in script(k).ops
  }

  /** While callback `k` runs, a timer is added that is due at once and that
      nobody cancels; what else is added and cancelled is open. */
  ghost predicate Feeds(counter: nat, script: Script, now: nat, k: nat) {
    exists j: nat :: j < |script(k).ops| && script(k).ops[j].AddOp? && script(k).ops[j].due <= now
                     && NeverCancels(script, IdOf(counter, script, k, j))
  }

  /** A live timer that is due, and will not be cancelled before its turn. */
  ghost predicate Urgent(l: Loop, now: nat, script: Script) {
    exists id :: id in l.h.table && id in l.h.due && l.h.due[id] <= now && (l.fired == [] || NeverCancels(script, id))
  }

  lemma {:induction false} ApplyAllIssues(h: Heap, ops: seq<Op>)
    ensures ApplyAll(h, ops).counter == h.counter + Adds(ops)
    decreases |ops|
  {
    if ops != [] {
      ApplyAllIssues(Apply(h, ops[0]), ops[1..]);
    }
  }

  lemma {:induction false} RunIssues(h0: Heap, script: Script, xs: seq<Item>)
    ensures var l := After(h0, script, xs);
            l.h.counter == IssuedBefore(h0.counter, script, |l.fired|)
    decreases |xs|
  {
    if xs != [] {
      var l := After(h0, script, xs[..|xs| - 1]);
      RunIssues(h0, script, xs[..|xs| - 1]);
      ApplyAllIssues(Take(l.h, xs[|xs| - 1]), script(|l.fired|).ops);
    }
  }

  /** What an operation adds is in the queue and live after all of them, unless
      one of them cancels it. */
  lemma {:induction false} ApplyAllAdds(h: Heap, ops: seq<Op>, j: nat)
    requires j < |ops| && ops[j].AddOp? && CancelOp(h.counter + Adds(ops[..j + 1])) !in ops
    requires forall i :: i in h.due ==> i <= h.counter
    ensures var r, id := ApplyAll(h, ops), h.counter + Adds(ops[..j + 1]);
            && h.counter < id <= r.counter
            && id in r.table && r.table[id] == ops[j].interval
            && id in r.due && r.due[id] == ops[j].due
    decreases |ops|
  {
    var h1 := Apply(h, ops[0]);
    assert ops == [ops[0]] + ops[1..];
    assert ops[..j + 1][1..] == ops[1..][..j];
    if j == 0 {
      assert Adds(ops[..1]) == 1;
      ApplyAllEffect(h1, ops[1..]);
      ApplyAllTable(h1, ops[1..], h1.counter);
    } else {
      ApplyAllAdds(h1, ops[1..], j - 1);
    }
  }

  lemma UrgentTurn(l: Loop, now: nat, x: Item, script: Script, counter: nat)
    requires Valid(l.h, {}) && x in l.h.queue && x.id in l.h.table && Feeds(counter, script, now, |l.fired|)
    requires l.h.counter == IssuedBefore(counter, script, |l.fired|)
    ensures Urgent(Step(l, x, script), now, script)
  {
    hide Adds, IssuedBefore, ApplyAll;
    TakeKeeps(l.h, x);
    var ops := script(|l.fired|).ops;
    var j: nat :| j < |ops| && ops[j].AddOp? && ops[j].due <= now && NeverCancels(script, IdOf(counter, script, |l.fired|, j));
    var id := IdOf(counter, script, |l.fired|, j);
    ApplyAllAdds(Take(l.h, x), ops, j);
    var r := Step(l, x, script);
    assert id in r.h.table && id in r.h.due;
  }

  lemma UrgentStep(l: Loop, now: nat, x: Item, script: Script, counter: nat)
    requires Valid(l.h, {}) && x in l.h.queue && Urgent(l, now, script) && Feeds(counter, script, now, |l.fired|)
    requires l.h.counter == IssuedBefore(counter, script, |l.fired|)
    ensures Urgent(Step(l, x, script), now, script)
  {
    hide Feeds, Valid, NeverCancels;
    if x.id in l.h.table {
      hide Urgent;
      UrgentTurn(l, now, x, script, counter);
    } else {
      var id :| id in l.h.table && id in l.h.due && l.h.due[id] <= now && (l.fired == [] || NeverCancels(script, id));
      assert id in Take(l.h, x).table && id in Take(l.h, x).due;
    }
  }

  lemma UrgentIsDue(l: Loop, now: nat, script: Script)
    requires Valid(l.h, {}) && Urgent(l, now, script)
    ensures !NothingDue(l.h, now)
  {
    var id :| id in l.h.table && id in l.h.due && l.h.due[id] <= now;
    assert l.h.queue[Item(l.h.due[id], id)] == 1;
  }

  lemma {:induction false} StaysUrgent(h0: Heap, now: nat, script: Script, xs: seq<Item>)
    requires Valid(h0, {}) && OnTime(script, now) && Takes(h0, now, script, xs) && Urgent(Loop(h0, []), now, script)
    requires forall k: nat :: Feeds(h0.counter, script, now, k)
    ensures Urgent(After(h0, script, xs), now, script)
    decreases |xs|
  {
    hide Valid, Tracks, Feeds, Step, Urgent;
    if xs != [] {
      var l := After(h0, script, xs[..|xs| - 1]);
      StaysUrgent(h0, now, script, xs[..|xs| - 1]);
      RunGoes(h0, now, script, xs[..|xs| - 1]);
      RunIssues(h0, script, xs[..|xs| - 1]);
      UrgentStep(l, now, xs[|xs| - 1], script, h0.counter);
    }
  }

  /** Positive delays are needed: once a live timer is due, a Process is never
      finished if during every callback a timer is added that is due at once
      and that nobody cancels, whatever else is added and cancelled. */
  lemma FeedingDiverges(h0: Heap, now: nat, script: Script, id: nat)
    requires Valid(h0, {}) && OnTime(script, now) && id in h0.table && id in h0.due && h0.due[id] <= now
    requires forall k: nat :: Feeds(h0.counter, script, now, k)
    ensures forall xs :: !Finished(h0, now, script, xs)
  {
    assert Urgent(Loop(h0, []), now, script);
    forall xs | Takes(h0, now, script, xs)
      ensures !NothingDue(After(h0, script, xs).h, now)
    {
      hide Valid, Tracks, Feeds, Urgent, NothingDue, After, Takes;
      StaysUrgent(h0, now, script, xs);
      RunGoes(h0, now, script, xs);
      UrgentIsDue(After(h0, script, xs), now, script);
    }
  }
}
