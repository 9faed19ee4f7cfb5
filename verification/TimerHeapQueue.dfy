/** The heap queue as an object. */
module TimerHeapQueue {
  import opened HeapSpec

  class TimerHeapQueue {
    var counter: nat
    var queue: multiset<Item>
    var table: map<nat, int>

    ghost var due: map<nat, nat>
    ghost var started: seq<Item>
    /** Instants passed to the channel. */
    ghost var asked: seq<nat>

    ghost function View(): Heap
      reads this
    {
      Heap(counter, queue, table, due)
    }

    constructor ()
      ensures View() == EMPTY && Valid(View(), {}) && started == [] && asked == []
    {
      counter, queue, table := 0, multiset{}, map[];
      due, started, asked := map[], [], [];
    }

    method Add(now: nat, delay: int, interval: int, ghost running: set<nat>) returns (id: nat)
      requires Valid(View(), running) && now + delay >= 0
      modifies this
      ensures View() == AddTimer(old(View()), now + delay, interval) && Valid(View(), running)
      ensures id == old(counter) + 1 && asked == old(asked) + [now + delay] && started == old(started)
    {
      AddKeeps(View(), running, now + delay, interval);
      hide Valid;
      var expired := now + delay;
      id := counter + 1;
      counter := id;
      queue := queue + multiset{Item(expired, id)};
      due := due[id := expired];
      table := table[id := interval];
      asked := asked + [expired];
    }

    method Cancel(id: nat)
      modifies this`table
      ensures View() == CancelTimer(old(View()), id)
    {
      table := table - {id};
    }

    /** The callback of `running`, and everything else that happens while the
        lock is free. */
    method Call(ops: seq<Op>, ghost running: set<nat>)
      requires Valid(View(), running)
      modifies this
      ensures View() == ApplyAll(old(View()), ops) && Valid(View(), running) && started == old(started)
    {
      hide Valid, AddTimer, CancelTimer;
      var j := 0;
      assert ops[0..] == ops;
      while j < |ops|
        invariant j <= |ops| && Valid(View(), running) && started == old(started)
        invariant ApplyAll(View(), ops[j..]) == ApplyAll(old(View()), ops)
      {
        assert ops[j..][1..] == ops[j + 1..];
        match ops[j] {
          case AddOp(expired, interval) =>
            var id := Add(expired, 0, interval, running);
          case CancelOp(id) =>
            CancelKeeps(View(), running, id);
            Cancel(id);
        }
        j := j + 1;
      }
    }

    /** The top of the priority queue; which one, among equals, is open. */
    method Top() returns (x: Item)
      requires queue != multiset{}
      ensures x in queue && forall y :: y in queue ==> x.expire <= y.expire
    {
      HasEarliest(queue);
      x :| x in queue && forall y :: y in queue ==> x.expire <= y.expire;
    }

    /** queue_.pop, for the item that has been looked at. */
    method Discard(x: Item)
      modifies this`queue, this`due
      ensures View() == Take(old(View()), x)
    {
      queue := queue - multiset{x};
      due := due - {x.id};
    }

    /** queue_.emplace. */
    method Emplace(id: nat, expire: nat)
      modifies this`queue, this`due
      ensures View() == Push(old(View()), id, expire)
    {
      queue := queue + multiset{Item(expire, id)};
      due := due[id := expire];
    }

    /** The turn of a live timer, with the lock dropped around its callback. */
    method Serve(x: Item, r: Reaction)
      requires Valid(View(), {}) && x in queue && x.id in table
      modifies this
      ensures View() == Turn(old(View()), x, r) && started == old(started) + [x]
    {
      hide Valid, Take, Push, CancelTimer, ApplyAll;
      TakeKeeps(View(), x);
      var interval := table[x.id];
      Discard(x);
      started := started + [x];
      Call(r.ops, {x.id});
      if interval > 0 {
        Emplace(x.id, r.clock + interval);
      } else {
        Cancel(x.id);
      }
    }

    /** One round of the loop of Process; `calls` callbacks have run before. */
    method Round(x: Item, now: nat, script: Script, calls: nat, ghost l: Loop)
        returns (called: bool)
      requires Valid(View(), {}) && l.h == View() && calls == |l.fired|
      requires Earliest(View(), x) && x.expire <= now && now <= script(calls).clock
      modifies this
      ensures Step(l, x, script) == Loop(View(), if called then l.fired + [x] else l.fired)
      ensures Valid(View(), {})
      ensures started == if called then old(started) + [x] else old(started)
      ensures Later(script(calls).ops, now) || !called ==> DueItems(View(), now) < DueItems(l.h, now)
    {
      StepKeeps(l, x, script);
      called := x.id in table;
      if called {
        if Later(script(calls).ops, now) {
          StepShrinks(l, now, x, script);
        }
        hide Turn, Take, DueItems, Valid, Later;
        Serve(x, script(calls));
      } else {
        DeadShrinks(l.h, now, x);
        hide Take, DueItems, Valid, Later;
        Discard(x);
      }
    }

    /** Process.  `script` says what goes on during the k-th callback.  From
        callback `limit` on, what is added is due later than now; with 0 this
        says that all delays are positive.  `xs` are the items taken. */
    method Process(now: nat, script: Script, ghost limit: nat) returns (ghost xs: seq<Item>)
      requires Valid(View(), {}) && OnTime(script, now)
      requires forall k: nat :: k >= limit ==> Later(script(k).ops, now)
      modifies this
      ensures Finished(old(View()), now, script, xs)
      ensures var l := After(old(View()), script, xs); View() == l.h && started == old(started) + l.fired
      ensures Valid(View(), {}) && AskedForFirst()
    {
      hide Valid, Takes, After, AskedForFirst;
      xs := Drain(now, script, limit);
      AskAgain();
    }

    /** The loop of Process. */
    method Drain(now: nat, script: Script, ghost limit: nat) returns (ghost xs: seq<Item>)
      requires Valid(View(), {}) && OnTime(script, now)
      requires forall k: nat :: k >= limit ==> Later(script(k).ops, now)
      modifies this
      ensures Finished(old(View()), now, script, xs) && Valid(View(), {})
      ensures var l := After(old(View()), script, xs); View() == l.h && started == old(started) + l.fired
    {
      hide Valid, Later, DueItems, Step;
      ghost var h0, started0 := View(), started;
      ghost var l := Loop(h0, []);
      var calls := 0;
      xs := [];
      while queue != multiset{}
        invariant l == After(h0, script, xs) && l.h == View() && calls == |l.fired|
        invariant Takes(h0, now, script, xs) && Valid(View(), {}) && started == started0 + l.fired
        decreases if calls < limit then limit - calls else 0, DueItems(View(), now)
      {
        var x := Top();
        if x.expire > now {
          break;
        }
        var called := Round(x, now, script, calls, l);
        Extend(h0, now, script, xs, x);
        xs, l := xs + [x], Step(l, x, script);
        if called {
          calls := calls + 1;
        }
      }
    }

    /** If something is pending, the channel was last asked for the earliest
        deadline. */
    ghost predicate AskedForFirst()
      reads this
    {
      queue == multiset{} ||
      exists x :: x in queue && (forall y :: y in queue ==> x.expire <= y.expire)
                  && asked != [] && asked[|asked| - 1] == x.expire
    }

    /** The end of Process. */
    method AskAgain()
      modifies this`asked
      ensures AskedForFirst() && (queue == multiset{} ==> asked == old(asked))
    {
      if queue != multiset{} {
        var x := Top();
        asked := asked + [x.expire];
      }
    }
  }
}
