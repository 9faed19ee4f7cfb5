/** When does a sweep come to an end?

    A repeating timer that the sweep pops goes back on the wheel before the
    sweep is over.  If its new place is still to be swept, with its round
    already reached, it is popped again, goes back to the very same place, and
    so on.  `Refills` is that situation, as a test on the wheel before the
    sweep.  If callbacks file only a limited number of timers into the way of
    the sweep, and none that goes back there, the sweep ends if and only if
    they cancel every timer that refills it (`EndsIff`).  Callbacks that go on
    feeding the sweep keep it from ending as well (`FeedingDiverges`).
 */
module WheelTermination {
  import opened Division
  import opened WheelSpec
  import opened WheelSweep

  /** Bucket `b` is visited, and `a` is visited no later than `b`. */
  predicate Ahead(visit: seq<nat>, a: nat, b: nat) {
    exists p, q :: 0 <= p <= q < |visit| && visit[p] == a && visit[q] == b
  }

  /** Where a repeating timer popped by a sweep at `now` goes back to. */
  function NextTick(w: Wheel, id: nat, now: nat): nat
    requires id in w.table && w.table[id].interval > 0
  {
    w.Ticks(now + w.table[id].interval)
  }

  /** Popped at tick `t`, filed again at tick `next`, and popped again. */
  predicate Reenters(n: Pos, rounds: nat, visit: seq<nat>, t: nat, next: nat) {
    t / n <= rounds && next / n <= rounds && Ahead(visit, t % n, next % n)
  }

  predicate Refills(s: Sweep, now: nat, id: nat)
    requires |s.w.buckets| > 0
  {
    && id in s.w.table && s.w.table[id].interval > 0
    && (id in s.batch || id in s.w.due)
    && var next := NextTick(s.w, id, now);
       var n, rounds := |s.w.buckets|, s.w.Rounds(now);
       if id in s.batch then Zone(n, rounds, s.visit, next)
       else Reenters(n, rounds, s.visit, s.w.Ticks(s.w.due[id]), next)
  }

  ghost predicate NeverCancels(script: Script, id: nat) {
    forall k: nat :: CancelOp(id) !in script(k)
  }

  // ----------------------------------------------------------- it goes on

  lemma {:induction false} ApplyAllSpares(w: Wheel, ops: seq<Op>, id: nat)
    requires |w.buckets| > 0 && id in w.table && id <= w.counter
    requires CancelOp(id) !in ops
    ensures var r := ApplyAll(w, ops);
            && id in r.table && r.table[id] == w.table[id]
            && (id in w.due ==> id in r.due && r.due[id] == w.due[id])
            && (id !in w.due ==> id !in r.due)
    decreases |ops|
  {
    if ops != [] {
      assert ops == [ops[0]] + ops[1..];
      ApplyAllSpares(Apply(w, ops[0]), ops[1..], id);
    }
  }

  lemma AheadTail(visit: seq<nat>, a: nat, b: nat)
    requires visit != [] && visit[0] != a && Ahead(visit, a, b)
    ensures Ahead(visit[1..], a, b)
  {
    var p, q :| 0 <= p <= q < |visit| && visit[p] == a && visit[q] == b;
    assert visit[1..][p - 1] == a && visit[1..][q - 1] == b;
  }

  lemma AheadSelf(visit: seq<nat>, b: nat)
    requires b in visit
    ensures Ahead(visit, b, b)
  {
    var q :| 0 <= q < |visit| && visit[q] == b;
    assert 0 <= q <= q < |visit| && visit[q] == b;
  }

  lemma SameRounds(w: Wheel, w': Wheel, now: nat)
    requires w.tick == w'.tick && |w.buckets| == |w'.buckets| > 0
    ensures w.Rounds(now) == w'.Rounds(now)
  {
  }

  lemma RefillsOps(s: Sweep, now: nat, ops: seq<Op>, id: nat)
    requires Shaped(s) && Refills(s, now, id) && id <= s.w.counter
    requires CancelOp(id) !in ops
    ensures Refills(s.(w := ApplyAll(s.w, ops)), now, id)
  {
    hide Zone, Reenters, TickOf, ApplyAll, Wheel.Rounds;
    ApplyAllSpares(s.w, ops, id);
    SameRounds(s.w, ApplyAll(s.w, ops), now);
  }

  lemma ZoneReenters(n: Pos, rounds: nat, visit: seq<nat>, t: nat)
    requires Zone(n, rounds, visit, t)
    ensures Reenters(n, rounds, visit, t, t)
  {
    AheadSelf(visit, t % n);
  }

  lemma RefillsSettle(s: Sweep, now: nat, x: nat, rest: seq<nat>, id: nat)
    requires SweepOk(s) && s.batch == [x] + rest && x in s.w.table && Refills(s, now, id)
    ensures Refills(s.(w := Settle(s.w, x, now), batch := rest, trace := s.trace + [x]), now, id)
  {
    hide Zone, Reenters, TickOf, Filed, File, Wheel.Rounds;
    SplitBatch(s.w, x, rest);
    SameRounds(s.w, Settle(s.w, x, now), now);
    if x == id {
      ZoneReenters(|s.w.buckets|, s.w.Rounds(now), s.visit, NextTick(s.w, id, now));
    }
  }

  lemma RefillsVisit(s: Sweep, now: nat, script: Script, id: nat)
    requires SweepOk(s) && s.batch != [] && Refills(s, now, id) && NeverCancels(script, id)
    ensures Refills(Visit(s, now, script), now, id)
  {
    var x := s.batch[0];
    var rest := s.batch[1..];
    assert s.batch == [x] + rest;
    if x in s.w.table {
      var s1 := s.(w := Settle(s.w, x, now), batch := rest, trace := s.trace + [x]);
      RefillsSettle(s, now, x, rest, id);
      RefillsOps(s1, now, script(|s.trace|), id);
    }
  }

  lemma ReentersZone(n: Pos, rounds: nat, visit: seq<nat>, t: nat, next: nat)
    requires Reenters(n, rounds, visit, t, next)
    ensures Zone(n, rounds, visit, t) && Zone(n, rounds, visit, next)
  {
  }

  lemma RefillsTaken(s: Sweep, now: nat, script: Script, id: nat)
    requires SweepOk(s) && s.batch == [] && s.visit != [] && Refills(s, now, id)
    requires Pop(s.w.buckets[s.visit[0]], s.w.Rounds(now)).Batch?
    ensures Refills(Step(s, now, script), now, id)
  {
    hide TickOf, At, Pop;
    var r := Step(s, now, script);
    SameRounds(s.w, r.w, now);
    ReentersZone(|s.w.buckets|, s.w.Rounds(now), s.visit, s.w.Ticks(s.w.due[id]), NextTick(s.w, id, now));
  }

  lemma RefillsPassed(s: Sweep, now: nat, script: Script, id: nat)
    requires SweepOk(s) && s.batch == [] && s.visit != [] && Refills(s, now, id)
    requires Pop(s.w.buckets[s.visit[0]], s.w.Rounds(now)).Nothing?
    ensures Refills(Step(s, now, script), now, id)
  {
    var u := s.w.Ticks(s.w.due[id]);
    PopNothingAt(s.w.buckets, s.visit[0], s.w.Rounds(now));
    assert id in At(s.w.buckets, u);
    AheadTail(s.visit, u % |s.w.buckets|, NextTick(s.w, id, now) % |s.w.buckets|);
  }

  lemma RefillsPop(s: Sweep, now: nat, script: Script, id: nat)
    requires SweepOk(s) && s.batch == [] && Refills(s, now, id)
    ensures Refills(Step(s, now, script), now, id)
  {
    ReentersZone(|s.w.buckets|, s.w.Rounds(now), s.visit, s.w.Ticks(s.w.due[id]), NextTick(s.w, id, now));
    hide Step, SweepOk, Refills;
    if Pop(s.w.buckets[s.visit[0]], s.w.Rounds(now)).Batch? {
      RefillsTaken(s, now, script, id);
    } else {
      RefillsPassed(s, now, script, id);
    }
  }

  lemma RefillsStep(s: Sweep, now: nat, script: Script, id: nat)
    requires SweepOk(s) && Refills(s, now, id) && NeverCancels(script, id)
    ensures Refills(Step(s, now, script), now, id) && SweepOk(Step(s, now, script))
  {
    StepKeeps(s, now, script);
    if s.batch != [] {
      RefillsVisit(s, now, script, id);
    } else {
      RefillsPop(s, now, script, id);
    }
  }

  lemma {:induction false} RefillsRun(s: Sweep, now: nat, script: Script, id: nat, k: nat)
    requires SweepOk(s) && Refills(s, now, id) && NeverCancels(script, id)
    ensures Refills(Run(s, now, script, k), now, id) && SweepOk(Run(s, now, script, k))
  {
    hide Step, Refills;
    if k > 0 {
      RefillsRun(s, now, script, id, k - 1);
      RefillsStep(Run(s, now, script, k - 1), now, script, id);
    }
  }

  /** One such timer, never cancelled, and the sweep does not end. */
  lemma RefillsDiverge(s: Sweep, now: nat, script: Script, id: nat)
    requires SweepOk(s) && Refills(s, now, id) && NeverCancels(script, id)
    ensures !Finishes(s, now, script)
  {
    forall k: nat
      ensures !Done(Run(s, now, script, k))
    {
      RefillsRun(s, now, script, id, k);
    }
  }

  // ------------------------------------------------ refills do not arise

  /** What is filed stays out of the way of this sweep. */
  ghost predicate OutsideOps(s: Sweep, now: nat, ops: seq<Op>)
    requires |s.w.buckets| > 0
  {
    forall j :: 0 <= j < |ops| && ops[j].AddOp?
      ==> !Zone(|s.w.buckets|, s.w.Rounds(now), s.visit, s.w.Ticks(ops[j].due))
  }

  /** What is filed into its way does not go back into it. */
  ghost predicate TameOps(s: Sweep, now: nat, ops: seq<Op>)
    requires |s.w.buckets| > 0
  {
    forall j :: 0 <= j < |ops| && ops[j].AddOp? && ops[j].interval > 0
      ==> !Zone(|s.w.buckets|, s.w.Rounds(now), s.visit, s.w.Ticks(ops[j].due))
          || !Zone(|s.w.buckets|, s.w.Rounds(now), s.visit, s.w.Ticks(now + ops[j].interval))
  }

  lemma RefillsZone(s: Sweep, now: nat, id: nat)
    requires |s.w.buckets| > 0 && Refills(s, now, id)
    ensures Zone(|s.w.buckets|, s.w.Rounds(now), s.visit, NextTick(s.w, id, now))
    ensures id !in s.batch ==> Zone(|s.w.buckets|, s.w.Rounds(now), s.visit, s.w.Ticks(s.w.due[id]))
  {
    if id !in s.batch {
      ReentersZone(|s.w.buckets|, s.w.Rounds(now), s.visit, s.w.Ticks(s.w.due[id]), NextTick(s.w, id, now));
    }
  }

  lemma RefillsLive(s: Sweep, now: nat, id: nat)
    requires SweepOk(s) && Refills(s, now, id)
    ensures id in s.w.table && id <= s.w.counter
  {
  }

  lemma BackOp(s: Sweep, now: nat, op: Op, id: nat)
    requires SweepOk(s) && TameOps(s, now, [op]) && Refills(s.(w := Apply(s.w, op)), now, id)
    ensures id <= s.w.counter && Refills(s, now, id)
  {
    hide Zone, Reenters, TickOf, Filed, File, Wheel.Rounds;
    var r := s.(w := Apply(s.w, op));
    SameRounds(s.w, r.w, now);
    if id > s.w.counter {
      assert [op][0] == op;
      RefillsZone(r, now, id);
    }
  }

  lemma {:induction false} BackOps(s: Sweep, now: nat, ops: seq<Op>, id: nat)
    requires SweepOk(s) && TameOps(s, now, ops) && Refills(s.(w := ApplyAll(s.w, ops)), now, id)
    ensures id <= s.w.counter && Refills(s, now, id)
    decreases |ops|
  {
    hide Refills, Zone, TickOf, Filed, File;
    if ops != [] {
      var s1 := s.(w := Apply(s.w, ops[0]));
      ApplyAllKeeps(s.w, s.batch, ops[..1]);
      assert ApplyAll(s.w, ops[..1]) == Apply(s.w, ops[0]);
      assert TameOps(s1, now, ops[1..]) by { SameRounds(s.w, s1.w, now); }
      BackOps(s1, now, ops[1..], id);
      assert [ops[0]][0] == ops[0];
      BackOp(s, now, ops[0], id);
    } else {
      assert s.(w := s.w) == s;
      RefillsLive(s, now, id);
    }
  }

  lemma BackSettle(s: Sweep, now: nat, x: nat, rest: seq<nat>, id: nat)
    requires SweepOk(s) && s.batch == [x] + rest && x in s.w.table
    requires Refills(s.(w := Settle(s.w, x, now), batch := rest, trace := s.trace + [x]), now, id)
    ensures Refills(s, now, id)
  {
    hide Zone, Reenters, TickOf, Filed, File, Wheel.Rounds;
    var r := s.(w := Settle(s.w, x, now), batch := rest, trace := s.trace + [x]);
    SplitBatch(s.w, x, rest);
    SameRounds(s.w, r.w, now);
    RefillsZone(r, now, id);
  }

  lemma BackVisit(s: Sweep, now: nat, script: Script, id: nat)
    requires SweepOk(s) && s.batch != [] && TameOps(s, now, script(|s.trace|)) && Refills(Visit(s, now, script), now, id)
    ensures id <= s.w.counter && Refills(s, now, id)
  {
    hide Zone, Reenters, TickOf, Filed, File, Wheel.Rounds, NextTick;
    var x := s.batch[0];
    var rest := s.batch[1..];
    assert s.batch == [x] + rest;
    SplitBatch(s.w, x, rest);
    if x in s.w.table {
      var s1 := s.(w := Settle(s.w, x, now), batch := rest, trace := s.trace + [x]);
      SettleKeeps(s.w, x, rest, now);
      SameRounds(s.w, s1.w, now);
      BackOps(s1, now, script(|s.trace|), id);
      BackSettle(s, now, x, rest, id);
    } else {
      assert id in s.batch <==> id == x || id in rest;
    }
  }

  lemma AheadHead(visit: seq<nat>, b: nat)
    requires b in visit
    ensures Ahead(visit, visit[0], b)
  {
    var q :| 0 <= q < |visit| && visit[q] == b;
    assert 0 <= 0 <= q < |visit|;
  }

  lemma AheadLonger(visit: seq<nat>, a: nat, b: nat)
    requires visit != [] && Ahead(visit[1..], a, b)
    ensures Ahead(visit, a, b)
  {
    var p, q :| 0 <= p <= q < |visit[1..]| && visit[1..][p] == a && visit[1..][q] == b;
    assert visit[p + 1] == a && visit[q + 1] == b;
  }

  lemma BackPop(s: Sweep, now: nat, script: Script, id: nat)
    requires SweepOk(s) && s.batch == [] && s.visit != [] && Refills(Step(s, now, script), now, id)
    ensures Refills(s, now, id)
  {
    var i := s.visit[0];
    var rounds := s.w.Rounds(now);
    var r := Step(s, now, script);
    if Pop(s.w.buckets[i], rounds).Batch? {
      PopAt(s.w.buckets, i, rounds);
      PopFiled(s.w.buckets, s.w.tick, s.w.due, i, rounds);
      if id in r.batch {
        AheadHead(s.visit, NextTick(s.w, id, now) % |s.w.buckets|);
      }
    } else {
      AheadLonger(s.visit, s.w.Ticks(s.w.due[id]) % |s.w.buckets|, NextTick(s.w, id, now) % |s.w.buckets|);
    }
  }

  /** No step makes a timer refill the sweep that did not do so before. */
  lemma BackStep(s: Sweep, now: nat, script: Script, id: nat)
    requires SweepOk(s) && TameOps(s, now, script(|s.trace|)) && Refills(Step(s, now, script), now, id)
    ensures id <= s.w.counter && Refills(s, now, id)
  {
    hide Refills, Zone, TickOf, Filed;
    if s.batch != [] {
      BackVisit(s, now, script, id);
    } else if s.visit != [] {
      BackPop(s, now, script, id);
    }
    assert id <= s.w.counter by { RefillsLive(s, now, id); }
  }

  // ------------------------------------------------------------ the measure

  /** The ids the rest of the sweep will still pop. */
  function Pending(s: Sweep, now: nat): set<nat>
    requires |s.w.buckets| > 0
  {
    set id | id in s.w.due && Zone(|s.w.buckets|, s.w.Rounds(now), s.visit, s.w.Ticks(s.w.due[id]))
  }

  function Measure(s: Sweep, now: nat): nat
    requires |s.w.buckets| > 0
  {
    2 * |Pending(s, now)| + |s.batch| + |s.visit|
  }

  lemma NoDupTail(ids: seq<nat>)
    requires NoDup(ids) && ids != []
    ensures NoDup(ids[1..]) && ids[0] !in ids[1..]
  {
    assert forall i :: 0 <= i < |ids[1..]| ==> ids[1..][i] == ids[i + 1];
  }

  function Elems(ids: seq<nat>): set<nat> {
    set id | id in ids
  }

  lemma {:induction false} CountElems(ids: seq<nat>)
    requires NoDup(ids)
    ensures |Elems(ids)| == |ids|
  {
    if ids != [] {
      NoDupTail(ids);
      CountElems(ids[1..]);
      assert ids == [ids[0]] + ids[1..];
      assert Elems(ids) == {ids[0]} + Elems(ids[1..]);
    }
  }

  /** What a Pop hands out was pending. */
  lemma PoppedPending(s: Sweep, now: nat, id: nat)
    requires SweepOk(s) && s.batch == [] && s.visit != []
    requires Pop(s.w.buckets[s.visit[0]], s.w.Rounds(now)).Batch?
    requires id in Pop(s.w.buckets[s.visit[0]], s.w.Rounds(now)).ids
    ensures id in Pending(s, now)
  {
    PopAt(s.w.buckets, s.visit[0], s.w.Rounds(now));
    PopFiled(s.w.buckets, s.w.tick, s.w.due, s.visit[0], s.w.Rounds(now));
  }

  lemma TakeMeasure(s: Sweep, now: nat, ids: seq<nat>, rest: Bucket)
    requires Shaped(s) && s.batch == [] && s.visit != [] && NoDup(ids) && ids != []
    requires forall id :: id in ids ==> id in Pending(s, now)
    ensures var s' := s.(w := TakeOut(s.w, s.visit[0], ids, rest), batch := ids);
            && Measure(s', now) < Measure(s, now)
            && forall id :: id in Pending(s', now) <==> id in Pending(s, now) && id !in ids
  {
    hide Zone, TickOf, Wheel.Rounds;
    var s' := s.(w := TakeOut(s.w, s.visit[0], ids, rest), batch := ids);
    var popped := Elems(ids);
    CountElems(ids);
    assert s'.w.Rounds(now) == s.w.Rounds(now) by { SameRounds(s.w, s'.w, now); }
    assert popped <= Pending(s, now);
    assert Pending(s', now) == Pending(s, now) - popped;
    assert |Pending(s, now)| == |Pending(s', now)| + |popped|;
    assert |s'.batch| == |popped| > 0;
  }

  lemma PopMeasure(s: Sweep, now: nat, script: Script)
    requires SweepOk(s) && s.batch == [] && s.visit != []
    requires Pop(s.w.buckets[s.visit[0]], s.w.Rounds(now)).Batch?
    ensures var r := Step(s, now, script);
            && Measure(r, now) < Measure(s, now)
            && (forall id :: id in r.batch ==> id in Pending(s, now))
            && (forall id :: id in Pending(r, now) <==> id in Pending(s, now) && id !in r.batch)
  {
    hide Zone, TickOf, Filed, Pop, Pending, Wheel.Rounds;
    var p := Pop(s.w.buckets[s.visit[0]], s.w.Rounds(now));
    PopKeeps(s.w, s.visit[0], s.w.Rounds(now));
    forall id | id in p.ids
      ensures id in Pending(s, now)
    {
      PoppedPending(s, now, id);
    }
    TakeMeasure(s, now, p.ids, p.rest);
  }

  lemma Smaller(a: set<nat>, b: set<nat>)
    requires a <= b
    ensures |a| <= |b|
  {
    assert b == a + (b - a);
  }

  lemma AdvanceMeasure(s: Sweep, now: nat, script: Script)
    requires SweepOk(s) && s.batch == [] && s.visit != []
    requires Pop(s.w.buckets[s.visit[0]], s.w.Rounds(now)).Nothing?
    ensures var r := Step(s, now, script);
            Measure(r, now) < Measure(s, now) && Pending(r, now) <= Pending(s, now)
  {
    var r := Step(s, now, script);
    assert s.visit == [s.visit[0]] + r.visit;
    assert Pending(r, now) <= Pending(s, now);
    Smaller(Pending(r, now), Pending(s, now));
  }

  lemma SkipMeasure(s: Sweep, now: nat, script: Script)
    requires Shaped(s) && s.batch != [] && s.batch[0] !in s.w.table
    ensures var r := Visit(s, now, script);
            Measure(r, now) < Measure(s, now) && Pending(r, now) == Pending(s, now)
  {
    assert Pending(Visit(s, now, script), now) == Pending(s, now);
  }

  // ------------------------------------------------------------- it ends

  /** From here on nothing is filed into the sweep's way. */
  ghost predicate AddsOutside(s: Sweep, now: nat, script: Script)
    requires |s.w.buckets| > 0
  {
    forall k: nat :: k >= |s.trace| ==> OutsideOps(s, now, script(k))
  }

  ghost predicate Ending(s: Sweep, now: nat, script: Script) {
    && SweepOk(s)
    && AddsOutside(s, now, script)
    && forall id :: id in s.w.table ==> !Refills(s, now, id)
  }

  /** Nobody has been started twice, or will be. */
  ghost predicate Once(s: Sweep, now: nat)
    requires |s.w.buckets| > 0
  {
    && NoDup(s.trace)
    && forall id :: id in s.trace ==> id <= s.w.counter && id !in s.batch && id !in Pending(s, now)
  }

  lemma {:induction false} ApplyAllPending(s: Sweep, now: nat, ops: seq<Op>)
    requires SweepOk(s) && OutsideOps(s, now, ops)
    ensures var r := s.(w := ApplyAll(s.w, ops));
            Pending(r, now) == Pending(s, now) && r.w.counter >= s.w.counter
    decreases |ops|
  {
    hide Zone, TickOf, Filed, File, Wheel.Rounds;
    if ops != [] {
      var s1 := s.(w := Apply(s.w, ops[0]));
      ApplyAllKeeps(s.w, s.batch, ops[..1]);
      assert ApplyAll(s.w, ops[..1]) == Apply(s.w, ops[0]);
      SameRounds(s.w, s1.w, now);
      assert Pending(s1, now) == Pending(s, now);
      ApplyAllPending(s1, now, ops[1..]);
    }
  }

  lemma SettlePending(s: Sweep, now: nat, x: nat, rest: seq<nat>)
    requires SweepOk(s) && s.batch == [x] + rest && x in s.w.table && !Refills(s, now, x)
    ensures Pending(s.(w := Settle(s.w, x, now), batch := rest, trace := s.trace + [x]), now) == Pending(s, now)
  {
    hide Zone, TickOf, Filed, File, Wheel.Rounds;
    var r := s.(w := Settle(s.w, x, now), batch := rest, trace := s.trace + [x]);
    SplitBatch(s.w, x, rest);
    SameRounds(s.w, r.w, now);
    assert x in s.batch;
  }

  lemma CallMeasure(s: Sweep, now: nat, script: Script)
    requires Ending(s, now, script) && s.batch != [] && s.batch[0] in s.w.table
    ensures var r := Visit(s, now, script);
            Measure(r, now) < Measure(s, now) && Pending(r, now) == Pending(s, now) && r.w.counter >= s.w.counter
  {
    hide Zone, TickOf, Filed, File, Wheel.Rounds, Refills;
    var x := s.batch[0];
    var rest := s.batch[1..];
    assert s.batch == [x] + rest;
    var s1 := s.(w := Settle(s.w, x, now), batch := rest, trace := s.trace + [x]);
    SettlePending(s, now, x, rest);
    SettleKeeps(s.w, x, rest, now);
    SameRounds(s.w, s1.w, now);
    assert OutsideOps(s1, now, script(|s.trace|));
    ApplyAllPending(s1, now, script(|s.trace|));
  }

  lemma NotFiled(s: Sweep, now: nat, id: nat)
    requires Shaped(s) && id !in s.w.due
    ensures id !in Pending(s, now)
  {
  }

  lemma EndingMeasure(s: Sweep, now: nat, script: Script)
    requires Ending(s, now, script) && !Done(s)
    ensures var r := Step(s, now, script);
            Measure(r, now) < Measure(s, now) && (Once(s, now) ==> Once(r, now))
  {
    hide Zone, TickOf, Filed, File, Pop, Pending, Wheel.Rounds, Refills, AddsOutside;
    if s.batch == [] {
      if Pop(s.w.buckets[s.visit[0]], s.w.Rounds(now)).Batch? {
        PopMeasure(s, now, script);
      } else {
        AdvanceMeasure(s, now, script);
      }
    } else {
      assert s.batch == [s.batch[0]] + s.batch[1..];
      SplitBatch(s.w, s.batch[0], s.batch[1..]);
      if s.batch[0] in s.w.table {
        CallMeasure(s, now, script);
        assert s.batch[0] !in Pending(s, now) by { NotFiled(s, now, s.batch[0]); }
      } else {
        SkipMeasure(s, now, script);
      }
    }
  }

  /** A later moment of the sweep has less left to visit. */
  lemma OutsideLater(s: Sweep, r: Sweep, now: nat, ops: seq<Op>)
    requires Shaped(s) && Shaped(r) && |r.w.buckets| == |s.w.buckets| && r.w.tick == s.w.tick
    requires forall i :: i in r.visit ==> i in s.visit
    ensures OutsideOps(s, now, ops) ==> OutsideOps(r, now, ops)
    ensures TameOps(s, now, ops) ==> TameOps(r, now, ops)
    ensures OutsideOps(s, now, ops) ==> TameOps(s, now, ops)
  {
    hide TickOf;
    SameRounds(s.w, r.w, now);
  }

  lemma EndingStep(s: Sweep, now: nat, script: Script)
    requires Ending(s, now, script) && !Done(s)
    ensures Ending(Step(s, now, script), now, script)
  {
    hide Zone, TickOf, Filed, Refills, OutsideOps, TameOps;
    var r := Step(s, now, script);
    StepKeeps(s, now, script);
    OutsideLater(s, r, now, script(|s.trace|));
    forall id | id in r.w.table
      ensures !Refills(r, now, id)
    {
      if Refills(r, now, id) {
        BackStep(s, now, script, id);
        RefillsLive(s, now, id);
      }
    }
    forall k: nat | k >= |r.trace|
      ensures OutsideOps(r, now, script(k))
    {
      OutsideLater(s, r, now, script(k));
    }
  }

  lemma {:induction false} EndingRun(s: Sweep, now: nat, script: Script, k: nat)
    requires Ending(s, now, script)
    ensures var r := Run(s, now, script, k);
            && Ending(r, now, script) && (Done(r) || Measure(r, now) + k <= Measure(s, now))
            && (Once(s, now) ==> Once(r, now))
  {
    hide Once, Measure, Refills, Filed, Step;
    if k > 0 {
      EndingRun(s, now, script, k - 1);
      var r := Run(s, now, script, k - 1);
      if Done(r) {
        DoneIsFinal(s, now, script, k - 1, k);
      } else {
        EndingStep(r, now, script);
        EndingMeasure(r, now, script);
      }
    }
  }

  lemma NothingToDo(s: Sweep, now: nat)
    requires |s.w.buckets| > 0 && Measure(s, now) == 0
    ensures Done(s)
  {
    assert |s.batch| == 0 && |s.visit| == 0;
  }

  /** Without refills, the sweep ends within Measure steps, and starts every
      timer at most once. */
  lemma EndsInTime(s: Sweep, now: nat, script: Script)
    requires Ending(s, now, script)
    ensures Done(Run(s, now, script, Measure(s, now)))
    ensures Once(s, now) ==> NoDup(Run(s, now, script, Measure(s, now)).trace)
  {
    hide Measure, Refills, Filed, Step;
    EndingRun(s, now, script, Measure(s, now));
    var r := Run(s, now, script, Measure(s, now));
    if !Done(r) {
      NothingToDo(r, now);
    }
  }

  // ---------------------------------------------------- the exact condition

  lemma {:induction false} RunVisits(s: Sweep, now: nat, script: Script, k: nat)
    requires Shaped(s)
    ensures forall i :: i in Run(s, now, script, k).visit ==> i in s.visit
  {
    if k > 0 {
      RunVisits(s, now, script, k - 1);
    }
  }

  /** Whoever refills a sweep later on refilled it from the beginning. */
  lemma {:induction false} RunBack(s: Sweep, now: nat, script: Script, k: nat, id: nat)
    requires SweepOk(s) && (forall j: nat :: TameOps(s, now, script(j))) && Refills(Run(s, now, script, k), now, id)
    ensures Refills(s, now, id)
    decreases k
  {
    hide Refills, TameOps, Filed, Step;
    if k > 0 {
      var r := Run(s, now, script, k - 1);
      RunKeeps(s, now, script, k - 1);
      RunVisits(s, now, script, k - 1);
      OutsideLater(s, r, now, script(|r.trace|));
      BackStep(r, now, script, id);
      RunBack(s, now, script, k - 1, id);
    }
  }

  /** A step without a callback brings the sweep nearer to its end. */
  lemma QuietStep(s: Sweep, now: nat, script: Script)
    requires SweepOk(s) && !Done(s) && (s.batch != [] ==> s.batch[0] !in s.w.table)
    ensures Measure(Step(s, now, script), now) < Measure(s, now)
    ensures Step(s, now, script).trace == s.trace
  {
    hide Measure, Filed, Pop;
    if s.batch != [] {
      SkipMeasure(s, now, script);
    } else if Pop(s.w.buckets[s.visit[0]], s.w.Rounds(now)).Batch? {
      PopMeasure(s, now, script);
    } else {
      AdvanceMeasure(s, now, script);
    }
  }

  /** A sweep that goes on comes to its next callback. */
  lemma {:induction false} NextCallback(s: Sweep, now: nat, script: Script) returns (k: nat)
    requires SweepOk(s)
    ensures Done(Run(s, now, script, k)) || |Run(s, now, script, k).trace| > |s.trace|
    decreases Measure(s, now)
  {
    hide Measure, Filed, Pop, ApplyAll, Settle;
    var r := Step(s, now, script);
    assert Run(s, now, script, 0) == s && Run(s, now, script, 1) == r;
    k := 1;
    if !Done(s) && (s.batch != [] ==> s.batch[0] !in s.w.table) {
      QuietStep(s, now, script);
      StepKeeps(s, now, script);
      hide Step;
      k := NextCallback(r, now, script);
      RunAdds(s, now, script, 1, k);
      k := k + 1;
    }
  }

  lemma {:induction false} Callbacks(s: Sweep, now: nat, script: Script, n: nat) returns (k: nat)
    requires SweepOk(s)
    ensures Done(Run(s, now, script, k)) || |Run(s, now, script, k).trace| >= n
    decreases n
  {
    hide Step;
    k := 0;
    if n > 0 {
      k := Callbacks(s, now, script, n - 1);
      var r := Run(s, now, script, k);
      if !Done(r) && |r.trace| < n {
        RunKeeps(s, now, script, k);
        var m := NextCallback(r, now, script);
        RunAdds(s, now, script, k, m);
        k := k + m;
      }
    }
  }

  lemma {:induction false} AllCancelled(ids: set<nat>, script: Script, least: nat) returns (n: nat)
    requires forall id :: id in ids ==> exists k: nat :: CancelOp(id) in script(k)
    ensures n >= least && forall id :: id in ids ==> Cancelled(script, n, id)
    decreases |ids|
  {
    n := least;
    if ids != {} {
      var x :| x in ids;
      n := AllCancelled(ids - {x}, script, least);
      var k: nat :| CancelOp(x) in script(k);
      var m := n;
      if n <= k {
        n := k + 1;
      }
      forall id | id in ids
        ensures Cancelled(script, n, id)
      {
        if id != x {
          assert Cancelled(script, m, id);
        }
      }
    }
  }

  lemma LaterToo(script: Script, n: nat, m: nat, id: nat)
    requires Cancelled(script, n, id) && n <= m
    ensures Cancelled(script, m, id)
  {
  }

  /** Once the cancellations have taken place, nothing refills any more. */
  lemma EndsWhenCancelled(w: Wheel, now: nat, script: Script, n: nat)
    requires Valid(w) && forall k: nat :: TameOps(Begin(w, now), now, script(k))
    requires forall k: nat :: k >= n ==> OutsideOps(Begin(w, now), now, script(k))
    requires forall id :: Refills(Begin(w, now), now, id) ==> Cancelled(script, n, id)
    ensures Finishes(Begin(w, now), now, script)
  {
    hide Refills, TameOps, OutsideOps, Step, Measure, Plan, Cancelled, At;
    var s := Begin(w, now);
    BeginTracks(w, now);
    var k := Callbacks(s, now, script, n);
    var r := Run(s, now, script, k);
    RunKeeps(s, now, script, k);
    RunVisits(s, now, script, k);
    if !Done(r) {
      forall id | id in r.w.table
        ensures !Refills(r, now, id)
      {
        if Refills(r, now, id) {
          RunBack(s, now, script, k, id);
          RefillsLive(s, now, id);
          LaterToo(script, n, |r.trace|, id);
          RunFate(w, now, script, k, id);
        }
      }
      forall j: nat | j >= |r.trace|
        ensures OutsideOps(r, now, script(j))
      {
        OutsideLater(s, r, now, script(j));
      }
      EndsInTime(r, now, script);
      RunAdds(s, now, script, k, Measure(r, now));
    }
  }

  /** The exact condition.  Callbacks may cancel whatever they like, and the
      first `limit` of them may file timers into the sweep's way, as long as
      these do not go back into it.  Then the sweep ends if and only if every
      timer that refills it is cancelled by some callback. */
  lemma EndsIff(w: Wheel, now: nat, script: Script, limit: nat)
    requires Valid(w)
    requires forall k: nat :: k < limit ==> TameOps(Begin(w, now), now, script(k))
    requires forall k: nat :: k >= limit ==> OutsideOps(Begin(w, now), now, script(k))
    ensures Finishes(Begin(w, now), now, script) <==>
            forall id :: Refills(Begin(w, now), now, id) ==> exists k: nat :: CancelOp(id) in script(k)
  {
    var s := Begin(w, now);
    BeginTracks(w, now);
    hide Refills, TameOps, OutsideOps, Plan, Finishes, Filed;
    if id :| Refills(s, now, id) && forall k: nat :: CancelOp(id) !in script(k) {
      RefillsDiverge(s, now, script, id);
    } else {
      var ids := set id | id in w.table && Refills(s, now, id);
      var n := AllCancelled(ids, script, limit);
      forall id | Refills(s, now, id)
        ensures Cancelled(script, n, id)
      {
        RefillsLive(s, now, id);
        assert id in ids;
      }
      forall k: nat
        ensures TameOps(s, now, script(k))
      {
        OutsideLater(s, s, now, script(k));
      }
      EndsWhenCancelled(w, now, script, n);
    }
  }

  // ---------------------------------------------------- feeding the sweep

  /** How many ids the operations issue. */
  function Adds(ops: seq<Op>): nat {
    if ops == [] then 0 else (if ops[0].AddOp? then 1 else 0) + Adds(ops[1..])
  }

  /** The last id issued before callback `k` of a sweep. */
  function IssuedBefore(counter: nat, script: Script, k: nat): nat {
    if k == 0 then counter else IssuedBefore(counter, script, k - 1) + Adds(script(k - 1))
  }

  /** The id that operation `j` of callback `k` is given. */
  function IdOf(counter: nat, script: Script, k: nat, j: nat): nat
    requires j < |script(k)|
  {
    IssuedBefore(counter, script, k) + Adds(script(k)[..j + 1])
  }

  /** The operation files a timer into bucket `last`, with its round reached. */
  predicate FilesInto(w: Wheel, now: nat, op: Op, last: nat)
    requires |w.buckets| > 0
  {
    op.AddOp? && Zone(|w.buckets|, w.Rounds(now), [last], w.Ticks(op.due))
  }

  /** Callback `k` files a timer there that no callback cancels; what else it
      adds and cancels is open. */
  ghost predicate Feeds(w: Wheel, now: nat, script: Script, last: nat, k: nat)
    requires |w.buckets| > 0
  {
    exists j: nat :: j < |script(k)| && FilesInto(w, now, script(k)[j], last)
                     && NeverCancels(script, IdOf(w.counter, script, k, j))
  }

  /** A live timer is in hand or still to be popped, and will not be cancelled
      before its turn. */
  ghost predicate Fed(s: Sweep, now: nat, script: Script)
    requires |s.w.buckets| > 0
  {
    exists id :: id in s.w.table && (id in s.batch || id in Pending(s, now)) && (s.trace == [] || NeverCancels(script, id))
  }

  lemma {:induction false} ApplyAllIssues(w: Wheel, ops: seq<Op>)
    requires |w.buckets| > 0
    ensures ApplyAll(w, ops).counter == w.counter + Adds(ops)
    decreases |ops|
  {
    if ops != [] {
      ApplyAllIssues(Apply(w, ops[0]), ops[1..]);
    }
  }

  lemma StepIssues(s: Sweep, now: nat, script: Script, counter: nat)
    requires Shaped(s) && s.w.counter == IssuedBefore(counter, script, |s.trace|)
    ensures var r := Step(s, now, script);
            r.w.counter == IssuedBefore(counter, script, |r.trace|)
  {
    hide ApplyAll, Adds, Pop, File;
    if s.batch != [] && s.batch[0] in s.w.table {
      ApplyAllIssues(Settle(s.w, s.batch[0], now), script(|s.trace|));
    }
  }

  lemma {:induction false} RunIssues(w: Wheel, now: nat, script: Script, k: nat)
    requires |w.buckets| > 0
    ensures var r := Run(Begin(w, now), now, script, k);
            r.w.counter == IssuedBefore(w.counter, script, |r.trace|)
  {
    hide Step, Plan;
    if k > 0 {
      RunIssues(w, now, script, k - 1);
      StepIssues(Run(Begin(w, now), now, script, k - 1), now, script, w.counter);
    }
  }

  /** What an operation files is live and pending after all of them, unless one
      of them cancels it. */
  lemma {:induction false} ApplyAllFeeds(s: Sweep, now: nat, ops: seq<Op>, j: nat, last: nat)
    requires SweepOk(s) && last in s.visit && j < |ops| && FilesInto(s.w, now, ops[j], last)
    requires CancelOp(s.w.counter + Adds(ops[..j + 1])) !in ops
    ensures var r, id := s.(w := ApplyAll(s.w, ops)), s.w.counter + Adds(ops[..j + 1]);
            id in r.w.table && id in Pending(r, now)
    decreases |ops|
  {
    hide Filed, File, At, Wheel.Rounds;
    var s1 := s.(w := Apply(s.w, ops[0]));
    var r := s.(w := ApplyAll(s.w, ops));
    var id := s.w.counter + Adds(ops[..j + 1]);
    assert ops == [ops[0]] + ops[1..];
    assert ops[..j + 1][1..] == ops[1..][..j];
    SameRounds(s.w, s1.w, now);
    SameRounds(s.w, r.w, now);
    if j == 0 {
      assert Adds(ops[..1]) == 1;
      ApplyAllSpares(s1.w, ops[1..], id);
    } else {
      ApplyAllKeeps(s.w, s.batch, ops[..1]);
      assert ApplyAll(s.w, ops[..1]) == s1.w;
      ApplyAllFeeds(s1, now, ops[1..], j - 1, last);
    }
  }

  lemma SparedBy(script: Script, id: nat, k: nat)
    requires NeverCancels(script, id)
    ensures CancelOp(id) !in script(k)
  {
  }

  lemma FedOps(s: Sweep, now: nat, script: Script, ops: seq<Op>, j: nat, last: nat)
    requires SweepOk(s) && last in s.visit && j < |ops| && FilesInto(s.w, now, ops[j], last)
    requires CancelOp(s.w.counter + Adds(ops[..j + 1])) !in ops
    requires NeverCancels(script, s.w.counter + Adds(ops[..j + 1]))
    ensures Fed(s.(w := ApplyAll(s.w, ops)), now, script)
  {
    hide Pending, FilesInto, SweepOk, Adds, NeverCancels;
    ApplyAllFeeds(s, now, ops, j, last);
  }

  lemma SameFiling(w: Wheel, w': Wheel, now: nat, op: Op, last: nat)
    requires w.tick == w'.tick && |w.buckets| == |w'.buckets| > 0 && FilesInto(w, now, op, last)
    ensures FilesInto(w', now, op, last)
  {
    SameRounds(w, w', now);
  }

  lemma FedCallWith(s: Sweep, now: nat, script: Script, j: nat, last: nat)
    requires SweepOk(s) && s.batch != [] && s.batch[0] in s.w.table && last in s.visit
    requires j < |script(|s.trace|)| && FilesInto(s.w, now, script(|s.trace|)[j], last)
    requires NeverCancels(script, s.w.counter + Adds(script(|s.trace|)[..j + 1]))
    ensures Fed(Visit(s, now, script), now, script)
  {
    hide Fed, Settle, Consistent, FilesInto, Adds, ApplyAll, NeverCancels;
    var x, rest, ops := s.batch[0], s.batch[1..], script(|s.trace|);
    assert s.batch == [x] + rest;
    var s1 := s.(w := Settle(s.w, x, now), batch := rest, trace := s.trace + [x]);
    SettleKeeps(s.w, x, rest, now);
    SameFiling(s.w, s1.w, now, ops[j], last);
    SparedBy(script, s.w.counter + Adds(ops[..j + 1]), |s.trace|);
    FedOps(s1, now, script, ops, j, last);
  }

  lemma FedCall(s: Sweep, now: nat, script: Script, w0: Wheel, last: nat)
    requires SweepOk(s) && s.batch != [] && s.batch[0] in s.w.table && last in s.visit
    requires s.w.tick == w0.tick && |s.w.buckets| == |w0.buckets| && Feeds(w0, now, script, last, |s.trace|)
    requires s.w.counter == IssuedBefore(w0.counter, script, |s.trace|)
    ensures Fed(Visit(s, now, script), now, script)
  {
    hide Zone, Filed, TickOf, Adds, IssuedBefore, Wheel.Rounds, NeverCancels, Fed, Visit;
    SameRounds(w0, s.w, now);
    var j: nat :| j < |script(|s.trace|)| && FilesInto(w0, now, script(|s.trace|)[j], last)
                  && NeverCancels(script, IdOf(w0.counter, script, |s.trace|, j));
    FedCallWith(s, now, script, j, last);
  }

  lemma FedSkip(s: Sweep, now: nat, script: Script)
    requires SweepOk(s) && s.batch != [] && s.batch[0] !in s.w.table && Fed(s, now, script)
    ensures Fed(Visit(s, now, script), now, script)
  {
    assert s.batch == [s.batch[0]] + s.batch[1..];
    SkipMeasure(s, now, script);
    hide Pending, Filed;
    var r := Visit(s, now, script);
    var id :| id in s.w.table && (id in s.batch || id in Pending(s, now)) && (s.trace == [] || NeverCancels(script, id));
    assert id in s.batch ==> id in r.batch;
  }

  lemma FedAdvance(s: Sweep, now: nat, script: Script, id: nat)
    requires SweepOk(s) && s.batch == [] && s.visit != [] && id in Pending(s, now)
    requires Pop(s.w.buckets[s.visit[0]], s.w.Rounds(now)).Nothing?
    ensures id in Pending(Step(s, now, script), now)
  {
    PopNothingAt(s.w.buckets, s.visit[0], s.w.Rounds(now));
    assert id in At(s.w.buckets, s.w.Ticks(s.w.due[id]));
    assert s.visit == [s.visit[0]] + s.visit[1..];
  }

  lemma PendingVisited(s: Sweep, now: nat, id: nat)
    requires |s.w.buckets| > 0 && id in Pending(s, now)
    ensures s.visit != []
  {
  }

  lemma FedTaken(s: Sweep, now: nat, script: Script, id: nat)
    requires SweepOk(s) && s.batch == [] && s.visit != [] && Pop(s.w.buckets[s.visit[0]], s.w.Rounds(now)).Batch?
    requires id in s.w.table && id in Pending(s, now) && (s.trace == [] || NeverCancels(script, id))
    ensures Fed(Step(s, now, script), now, script) && Step(s, now, script).visit == s.visit
  {
    hide Filed, Pending, Pop, NeverCancels, Measure, Wheel.Rounds;
    PopMeasure(s, now, script);
    var r := Step(s, now, script);
    assert id in r.w.table && (id in r.batch || id in Pending(r, now));
  }

  lemma FedPassed(s: Sweep, now: nat, script: Script, id: nat)
    requires SweepOk(s) && s.batch == [] && s.visit != [] && Pop(s.w.buckets[s.visit[0]], s.w.Rounds(now)).Nothing?
    requires id in s.w.table && id in Pending(s, now) && (s.trace == [] || NeverCancels(script, id))
    ensures Fed(Step(s, now, script), now, script)
    ensures Step(s, now, script).visit != [] && Step(s, now, script).visit == s.visit[1..]
  {
    hide Filed, Pending, Pop, NeverCancels, Wheel.Rounds;
    FedAdvance(s, now, script, id);
    PendingVisited(Step(s, now, script), now, id);
  }

  lemma FedPop(s: Sweep, now: nat, script: Script)
    requires SweepOk(s) && s.batch == [] && s.visit != [] && Fed(s, now, script)
    ensures var r := Step(s, now, script);
            Fed(r, now, script) && r.visit != [] && r.visit[|r.visit| - 1] == s.visit[|s.visit| - 1]
  {
    hide Pending, Pop, NeverCancels, Consistent, Step, Wheel.Rounds;
    var id :| id in s.w.table && id in Pending(s, now) && (s.trace == [] || NeverCancels(script, id));
    hide Fed;
    if Pop(s.w.buckets[s.visit[0]], s.w.Rounds(now)).Batch? {
      FedTaken(s, now, script, id);
    } else {
      FedPassed(s, now, script, id);
    }
  }

  lemma FedStep(s: Sweep, now: nat, script: Script, w0: Wheel, last: nat)
    requires SweepOk(s) && Fed(s, now, script) && s.visit != [] && s.visit[|s.visit| - 1] == last
    requires s.w.tick == w0.tick && |s.w.buckets| == |w0.buckets| && Feeds(w0, now, script, last, |s.trace|)
    requires s.w.counter == IssuedBefore(w0.counter, script, |s.trace|)
    ensures var r := Step(s, now, script);
            Fed(r, now, script) && r.visit != [] && r.visit[|r.visit| - 1] == last
  {
    hide Fed, Feeds, Filed, Pop, ApplyAll, Settle;
    if s.batch == [] {
      FedPop(s, now, script);
    } else if s.batch[0] in s.w.table {
      FedCall(s, now, script, w0, last);
    } else {
      FedSkip(s, now, script);
    }
  }

  lemma {:induction false} FedRun(w: Wheel, now: nat, script: Script, last: nat, k: nat)
    requires |w.buckets| > 0 && SweepOk(Begin(w, now)) && Fed(Begin(w, now), now, script)
    requires Plan(w, now) != [] && Plan(w, now)[|Plan(w, now)| - 1] == last
    requires forall i: nat :: Feeds(w, now, script, last, i)
    ensures var r := Run(Begin(w, now), now, script, k);
            SweepOk(r) && Fed(r, now, script) && r.visit != [] && r.visit[|r.visit| - 1] == last
  {
    hide Fed, Feeds, Filed, Step, Consistent, Plan;
    if k > 0 {
      FedRun(w, now, script, last, k - 1);
      var r := Run(Begin(w, now), now, script, k - 1);
      RunIssues(w, now, script, k - 1);
      StepKeeps(r, now, script);
      FedStep(r, now, script, w, last);
    }
  }

  lemma BeginFed(w: Wheel, now: nat, script: Script, id: nat)
    requires Valid(w) && id in w.table && InZone(w, now, w.Ticks(w.due[id]))
    ensures SweepOk(Begin(w, now)) && Fed(Begin(w, now), now, script) && Plan(w, now) != []
  {
    var s := Begin(w, now);
    BeginTracks(w, now);
    hide Plan, Filed, TickOf;
    assert id in w.due;
    assert id in Pending(s, now);
    PendingVisited(s, now, id);
  }

  lemma NeverDone(w: Wheel, now: nat, script: Script, last: nat)
    requires |w.buckets| > 0 && SweepOk(Begin(w, now)) && Fed(Begin(w, now), now, script)
    requires Plan(w, now) != [] && Plan(w, now)[|Plan(w, now)| - 1] == last
    requires forall i: nat :: Feeds(w, now, script, last, i)
    ensures !Finishes(Begin(w, now), now, script)
  {
    hide Fed, Feeds, Run, Step, Plan, SweepOk;
    forall k: nat
      ensures !Done(Run(Begin(w, now), now, script, k))
    {
      FedRun(w, now, script, last, k);
    }
  }

  /** Why the number of filings into the sweep's way has to be limited: if the
      sweep reaches one live timer at all, and every callback files one more
      into the bucket visited last, which nobody cancels, the sweep never ends,
      with one-shot timers only and whatever else callbacks add and cancel. */
  lemma FeedingDiverges(w: Wheel, now: nat, script: Script, id: nat, last: nat)
    requires Valid(w) && id in w.table && InZone(w, now, w.Ticks(w.due[id]))
    requires Plan(w, now) != [] && Plan(w, now)[|Plan(w, now)| - 1] == last
    requires forall k: nat :: Feeds(w, now, script, last, k)
    ensures !Finishes(Begin(w, now), now, script)
  {
    hide Fed, Feeds, Run, Step, Plan, Zone, InZone, Consistent, Finishes;
    BeginFed(w, now, script, id);
    NeverDone(w, now, script, last);
  }

  // ------------------------------------------------------ one revolution

  /** Intervals and added delays of at least one tick. */
  ghost predicate Coarse(w: Wheel, now: nat, script: Script) {
    && (forall id :: id in w.table ==> w.table[id].interval <= 0 || w.table[id].interval >= w.tick)
    && (forall k: nat, j: nat :: j < |script(k)| && script(k)[j].AddOp? ==> script(k)[j].due >= now + w.tick)
  }

  lemma NextTickIsAhead(w: Wheel, now: nat, ts: nat)
    requires |w.buckets| > 0 && w.last <= now && w.Rounds(w.last) == w.Rounds(now) && ts >= now + w.tick
    ensures !InZone(w, now, w.Ticks(ts))
  {
    FarRound(now, ts, w.tick);
    ZoneAhead(w, now, w.Ticks(ts));
  }

  lemma CoarseNoRefill(w: Wheel, now: nat, script: Script, id: nat)
    requires |w.buckets| > 0 && w.last <= now && w.Rounds(w.last) == w.Rounds(now) && Coarse(w, now, script)
    ensures !Refills(Begin(w, now), now, id)
  {
    if Refills(Begin(w, now), now, id) {
      RefillsZone(Begin(w, now), now, id);
      NextTickIsAhead(w, now, now + w.table[id].interval);
    }
  }

  lemma CoarseIsEnding(w: Wheel, now: nat, script: Script)
    requires Valid(w) && w.last <= now && w.Rounds(w.last) == w.Rounds(now) && Coarse(w, now, script)
    ensures Ending(Begin(w, now), now, script)
  {
    var s := Begin(w, now);
    BeginTracks(w, now);
    hide Zone, Reenters, TickOf, Filed, Plan, Wheel.Rounds, Refills;
    forall id | id in w.table
      ensures !Refills(s, now, id)
    {
      CoarseNoRefill(w, now, script, id);
    }
    forall k: nat, j: nat | j < |script(k)| && script(k)[j].AddOp?
      ensures !Zone(|w.buckets|, w.Rounds(now), s.visit, w.Ticks(script(k)[j].due))
    {
      NextTickIsAhead(w, now, script(k)[j].due);
    }
  }

  /** Within one revolution and with a granularity of one tick, Process always
      comes back, having started each timer at most once; callbacks may cancel
      at will. */
  lemma OneRevolutionEnds(w: Wheel, now: nat, script: Script)
    requires Valid(w) && w.last <= now && w.Rounds(w.last) == w.Rounds(now) && Coarse(w, now, script)
    ensures var s := Begin(w, now);
            var r := Run(s, now, script, Measure(s, now));
            Done(r) && NoDup(r.trace)
  {
    CoarseIsEnding(w, now, script);
    EndsInTime(Begin(w, now), now, script);
  }

  // ------------------------------------------------------------- examples

  const IDLE: Script := k => []

  lemma HalfSecondTimer() returns (w: Wheel)
    ensures w == AddTimer(Create(100_000, 600, 0), 500_000, 500_000) && Valid(w)
    ensures w.tick == 100_000 && |w.buckets| == 600 && w.last == 0
    ensures 1 in w.table && w.table[1].interval == 500_000 && w.due == map[1 := 500_000]
  {
    var w0 := Create(100_000, 600, 0);
    w := AddTimer(w0, 500_000, 500_000);
    AddKeeps(w0, [], 500_000, 500_000);
  }

  lemma HalfSecondRefills(w: Wheel)
    requires w.tick == 100_000 && |w.buckets| == 600 && w.last == 0
    requires 1 in w.table && w.table[1].interval == 500_000 && w.due == map[1 := 500_000]
    ensures Refills(Begin(w, 60_000_000), 60_000_000, 1)
  {
    hide Range, Ahead;
    assert Plan(w, 60_000_000) == Range(0, 600);
    AheadSelf(Range(0, 600), 5);
    assert NextTick(w, 1, 60_000_000) == 605 && w.Ticks(500_000) == 5 && w.Rounds(60_000_000) == 1;
  }

  /** Default options; a timer every 500 ms; a loop that was busy for one
      minute.  The sweep over the whole wheel never ends. */
  lemma StalledLoopNeverReturns()
    ensures var w := AddTimer(Create(100_000, 600, 0), 500_000, 500_000);
            Valid(w) && !Finishes(Begin(w, 60_000_000), 60_000_000, IDLE)
  {
    hide Plan, Zone, TickOf, Filed, Run, AddTimer, Create, Refills;
    var w := HalfSecondTimer();
    HalfSecondRefills(w);
    BeginTracks(w, 60_000_000);
    RefillsDiverge(Begin(w, 60_000_000), 60_000_000, IDLE, 1);
  }

 lemma IdleEnds(w: Wheel, now: nat)
    requires Valid(w) && forall id :: id in w.table ==> w.table[id].interval <= 0
    ensures var s := Begin(w, now);
            var r := Run(s, now, IDLE, Measure(s, now));
            Done(r) && NoDup(r.trace)
  {
    hide Plan, Zone, Filed, TickOf, Run, Step, Measure;
    BeginTracks(w, now);
    EndsInTime(Begin(w, now), now, IDLE);
  }

  lemma OnlyOne(trace: seq<nat>)
    requires NoDup(trace) && 1 in trace && forall id :: id in trace ==> id == 1
    ensures trace == [1]
  {
    assert forall i :: 0 <= i < |trace| ==> trace[i] in trace;
    assert trace[|trace| - 1] == trace[0];
  }

  lemma IdleStep(s: Sweep, now: nat)
    requires SweepOk(s) && forall id :: id in s.trace ==> 1 <= id <= s.w.counter
    ensures var r := Step(s, now, IDLE);
            r.w.counter == s.w.counter && forall id :: id in r.trace ==> 1 <= id <= r.w.counter
  {
    hide Filed, Pop, File, TickOf;
    if s.batch != [] {
      assert s.batch[0] in s.batch;
    }
  }

  lemma {:induction false} IdleAddsNothing(w: Wheel, now: nat, k: nat)
    requires Valid(w)
    ensures var r := Run(Begin(w, now), now, IDLE, k);
            r.w.counter == w.counter && forall id :: id in r.trace ==> 1 <= id <= w.counter
  {
    hide Step, Filed, Plan;
    BeginTracks(w, now);
    if k > 0 {
      RunKeeps(Begin(w, now), now, IDLE, k - 1);
      IdleAddsNothing(w, now, k - 1);
      IdleStep(Run(Begin(w, now), now, IDLE, k - 1), now);
    }
  }

  /** With a single one-shot timer, within reach, and idle callbacks, it is the
      one that is started. */
  lemma OneTimerStarts(w: Wheel, now: nat)
    requires Valid(w) && w.counter == 1 && 1 in w.table && w.table[1].interval <= 0
    requires InZone(w, now, w.Ticks(w.due[1]))
    ensures exists k: nat :: Done(Run(Begin(w, now), now, IDLE, k)) && Run(Begin(w, now), now, IDLE, k).trace == [1]
  {
    hide Plan, Zone, At, TickOf, Run, Step, Measure, Refills, InZone, Once;
    assert w.table[1].interval <= 0 && forall id :: id in w.table ==> id == 1;
    var s := Begin(w, now);
    IdleEnds(w, now);
    var k := Measure(s, now);
    var r := Run(s, now, IDLE, k);
    SweepIsExact(w, now, IDLE, r, 1);
    IdleAddsNothing(w, now, k);
    OnlyOne(r.trace);
  }

  lemma FarTickIsReached(w: Wheel)
    requires w.tick == 100_000 && |w.buckets| == 600 && w.last == 59_900_000
    ensures InZone(w, 60_000_000, w.Ticks(119_900_000))
  {
    assert Plan(w, 60_000_000) == Range(599, 600) + Range(0, 1);
    assert 599 in Range(599, 600);
  }

  lemma FarTimer() returns (w: Wheel)
    ensures w == AddTimer(Create(100_000, 600, 59_900_000), 119_900_000, 0)
    ensures Valid(w) && NoneOverdue(w) && w.counter == 1 && 1 in w.table && w.table[1].interval == 0
    ensures w.due == map[1 := 119_900_000] && w.tick == 100_000 && |w.buckets| == 600 && w.last == 59_900_000
  {
    var w0 := Create(100_000, 600, 59_900_000);
    w := AddTimer(w0, 119_900_000, 0);
    AddKeeps(w0, [], 119_900_000, 0);
  }

  /** Default options; a one-shot timer of 59.9 s added just before the wheel
      turns over is started by the very next sweep, 59.9 s early. */
  lemma FiresAMinuteEarly()
    ensures var w, now := AddTimer(Create(100_000, 600, 59_900_000), 119_900_000, 0), 60_000_000;
            && Valid(w) && NoneOverdue(w) && w.due[1] == 119_900_000
            && exists k: nat :: Done(Run(Begin(w, now), now, IDLE, k)) && Run(Begin(w, now), now, IDLE, k).trace == [1]
  {
    hide Plan, Zone, TickOf, Filed, Run, AddTimer, Create, InZone;
    var w := FarTimer();
    FarTickIsReached(w);
    OneTimerStarts(w, 60_000_000);
  }
}
