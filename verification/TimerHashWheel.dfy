/** The timing wheel as an object, method by method against WheelSpec. */
module TimerHashWheel {
  import opened Division
  import opened WheelSpec
  import opened WheelSweep

  class TimerHashWheel {
    const tick: Pos
    var last: nat
    var counter: nat
    var buckets: seq<Bucket>
    var table: map<nat, Entry>

    ghost var due: map<nat, nat>
    ghost var asked: seq<nat>
    ghost var started: seq<nat>

    ghost function View(): Wheel
      reads this
    {
      Wheel(tick, last, counter, buckets, table, due, asked, started)
    }

    constructor (tick: Pos, n: Pos, now: nat)
      ensures View() == Create(tick, n, now) && last == now && asked == [now]
    {
      this.tick := tick;
      last := now;
      counter := 0;
      buckets := seq(n, (i: nat) => map[]);
      table := map[];
      due := map[];
      asked := [now];
      started := [];
    }

    method WakeUpChannel(expire: nat)
      modifies this`asked
      ensures View() == WakeUp(old(View()), expire)
    {
      asked := asked + [TickOf(expire, tick) * tick];
    }

    method Add(now: nat, delay: int, interval: int) returns (id: nat)
      requires |buckets| > 0 && now + delay >= 0
      modifies this
      ensures View() == AddTimer(old(View()), now + delay, interval) && id == old(counter) + 1
    {
      counter := counter + 1;
      id := counter;
      var expired := now + delay;
      var ticks := TickOf(expired, tick);
      table := table[id := Entry(ticks / |buckets|, interval)];
      buckets := File(buckets, ticks, id);
      due := due[id := expired];
      WakeUpChannel(expired);
    }

    method Cancel(id: nat)
      modifies this`table
      ensures View() == CancelTimer(old(View()), id)
    {
      table := table - {id};
    }

    /** A callback of the sweep, given by what it does to the wheel. */
    method Call(ops: seq<Op>)
      requires |buckets| > 0
      modifies this
      ensures View() == ApplyAll(old(View()), ops)
    {
      var j := 0;
      assert ops[0..] == ops;
      while j < |ops|
        invariant j <= |ops| && |buckets| > 0
        invariant ApplyAll(View(), ops[j..]) == ApplyAll(old(View()), ops)
      {
        assert ops[j..][1..] == ops[j + 1..];
        match ops[j] {
          case AddOp(expired, interval) =>
            var id := Add(expired, 0, interval);
          case CancelOp(id) =>
            Cancel(id);
        }
        j := j + 1;
      }
    }

    /** What happens to a live timer just before its callback. */
    method SettleTimer(id: nat, now: nat)
      requires |buckets| > 0 && id in table
      modifies this
      ensures View() == Settle(old(View()), id, now)
    {
      var interval := table[id].interval;
      if interval <= 0 {
        Cancel(id);
      } else {
        var expire := now + interval;
        var ticks := TickOf(expire, tick);
        table := table[id := table[id].(rounds := ticks / |buckets|)];
        buckets := File(buckets, ticks, id);
        due := due[id := expire];
      }
    }

    /** The object is where `start` has got to after `k` steps. */
    ghost predicate Reached(start: Sweep, now: nat, script: Script, k: nat,
                            visit: seq<nat>, batch: seq<nat>, trace: seq<nat>)
      reads this
    {
      Shaped(start) && Run(start, now, script, k) == Sweep(View(), visit, batch, trace)
    }

    /** Bucket::Pop on the bucket the sweep is at. */
    method PopBucket(now: nat, script: Script, i: nat, ghost after: seq<nat>, ghost trace: seq<nat>,
                     ghost start: Sweep, ghost k: nat)
        returns (more: bool, entries: seq<nat>)
      requires i < |start.w.buckets| && Reached(start, now, script, k, [i] + after, [], trace)
      modifies this
      ensures Reached(start, now, script, k + 1, if more then [i] + after else after, entries, trace)
      ensures !more ==> entries == []
    {
      entries := [];
      match Pop(buckets[i], TickOf(now, tick) / |buckets|) {
        case Nothing =>
          more := false;
          assert ([i] + after)[1..] == after;
        case Batch(ids, rest) =>
          more, entries := true, ids;
          buckets := buckets[i := rest];
          due := Without(due, ids);
      }
    }

    /** The loop over one popped list. */
    method RunEntries(now: nat, entries: seq<nat>, script: Script, before: seq<nat>, ghost visit: seq<nat>,
                      ghost start: Sweep, ghost k: nat)
        returns (trace: seq<nat>)
      requires Reached(start, now, script, k, visit, entries, before)
      modifies this
      ensures Reached(start, now, script, k + |entries|, visit, [], trace)
    {
      hide Settle, ApplyAll, File, TickOf, Pop, TakeOut;
      trace := before;
      var j := 0;
      assert entries[0..] == entries;
      while j < |entries|
        invariant j <= |entries| && |buckets| > 0
        invariant Reached(start, now, script, k + j, visit, entries[j..], trace)
      {
        var id := entries[j];
        assert entries[j..][1..] == entries[j + 1..];
        if id in table {
          SettleTimer(id, now);
          Call(script(|trace|));
          trace := trace + [id];
        }
        j := j + 1;
      }
    }

    /** The loop that pops bucket `i` until no due round is left; `before` are
        the callbacks started earlier in the same Process, `after` the buckets
        visited next.  At most `budget` lists are popped. */
    method SweepBucket(now: nat, i: nat, script: Script, budget: nat, before: seq<nat>, ghost after: seq<nat>,
                       ghost start: Sweep, ghost k0: nat)
        returns (trace: seq<nat>, left: nat, done: bool, ghost k: nat)
      requires i < |start.w.buckets| && Reached(start, now, script, k0, [i] + after, [], before)
      modifies this
      ensures k0 + budget <= k + left && left <= budget && (!done ==> left == 0)
      ensures Reached(start, now, script, k, if done then after else [i] + after, [], trace)
    {
      hide Reached;
      trace, left, k := before, budget, k0;
      while true
        invariant k0 + budget <= k + left && left <= budget
        invariant Reached(start, now, script, k, [i] + after, [], trace)
        decreases left
      {
        if left == 0 {
          done := false;
          return;
        }
        var more, entries := PopBucket(now, script, i, after, trace, start, k);
        if !more {
          done, k := true, k + 1;
          return;
        }
        trace := RunEntries(now, entries, script, trace, [i] + after, start, k + 1);
        left, k := left - 1, k + 1 + |entries|;
      }
    }

    /** The loop over buckets `source` to `target`. */
    method ProcessBuckets(now: nat, source: nat, target: nat, script: Script, budget: nat, before: seq<nat>,
                          ghost tail: seq<nat>, ghost start: Sweep, ghost k0: nat)
        returns (trace: seq<nat>, left: nat, done: bool, ghost k: nat)
      requires source <= target < |start.w.buckets|
      requires Reached(start, now, script, k0, Range(source, target + 1) + tail, [], before)
      modifies this
      ensures k0 + budget <= k + left && left <= budget && (!done ==> left == 0)
      ensures done ==> Reached(start, now, script, k, tail, [], trace)
      ensures !done ==> exists visit :: visit != [] && Reached(start, now, script, k, visit, [], trace)
    {
      hide Reached;
      var i := source;
      trace, left, k := before, budget, k0;
      while i <= target
        invariant source <= i <= target + 1 && k0 + budget <= k + left && left <= budget
        invariant Reached(start, now, script, k, Range(i, target + 1) + tail, [], trace)
      {
        ghost var after := Range(i + 1, target + 1) + tail;
        assert Range(i, target + 1) + tail == [i] + after;
        trace, left, done, k := SweepBucket(now, i, script, left, trace, after, start, k);
        if !done {
          return;
        }
        i := i + 1;
      }
      assert Range(i, target + 1) + tail == tail;
      done := true;
    }

    /** One Process of the event loop.  With `done`, the object has gone
        through a finished sweep; without it, the sweep is not over after
        `budget` steps either. */
    method Process(now: nat, script: Script, budget: nat) returns (done: bool, ghost k: nat)
      requires |buckets| > 0
      modifies this
      ensures var s := Run(Begin(old(View()), now), now, script, k);
              && done == Done(s)
              && View() == (if done then Finish(s, now) else s.w)
      ensures !done ==> forall j: nat :: j <= budget ==> !Done(Run(Begin(old(View()), now), now, script, j))
    {
      ghost var start := Begin(View(), now);
      var trace, left;
      trace, left, done, k := Sweeps(now, script, budget, start);
      hide Run, Begin, Plan, View, WakeUp;
      if done {
        Conclude(now, trace);
      } else {
        NotDoneBefore(start, now, script, k);
      }
    }

    /** The end of Process: note the time, ask for the next tick. */
    method Conclude(now: nat, ghost trace: seq<nat>)
      modifies this
      ensures View() == WakeUp(old(View()).(last := now, started := old(started) + trace), now + tick)
    {
      last := now;
      started := started + trace;
      WakeUpChannel(now + tick);
    }

    /** The case split of Process on the distance since the last sweep. */
    method Sweeps(now: nat, script: Script, budget: nat, ghost start: Sweep)
        returns (trace: seq<nat>, left: nat, done: bool, ghost k: nat)
      requires |buckets| > 0 && start == Begin(View(), now)
      modifies this
      ensures budget <= k + left && (!done ==> left == 0)
      ensures done ==> Reached(start, now, script, k, [], [], trace)
      ensures !done ==> exists visit :: visit != [] && Reached(start, now, script, k, visit, [], trace)
    {
      var n := |buckets|;
      var t1, t2 := TickOf(last, tick), TickOf(now, tick);
      assert Reached(start, now, script, 0, start.visit, [], []);
      assert start.visit == Plan(View(), now);
      if t1 <= t2 && t2 - t1 < n {
        var b1, b2 := t1 % n, t2 % n;
        if b1 <= b2 {
          assert Range(b1, b2 + 1) + [] == start.visit;
          hide Reached, Plan;
          trace, left, done, k := ProcessBuckets(now, b1, b2, script, budget, [], [], start, 0);
        } else {
          assert Range(b1, n) + Range(0, b2 + 1) == start.visit;
          assert Range(0, b2 + 1) + [] == Range(0, b2 + 1);
          hide Reached, Plan;
          trace, left, done, k := ProcessBuckets(now, b1, n - 1, script, budget, [], Range(0, b2 + 1), start, 0);
          if done {
            trace, left, done, k := ProcessBuckets(now, 0, b2, script, left, trace, [], start, k);
          }
        }
      } else {
        assert Range(0, n) + [] == start.visit;
        hide Reached, Plan;
        trace, left, done, k := ProcessBuckets(now, 0, n - 1, script, budget, [], [], start, 0);
      }
    }
  }
}
