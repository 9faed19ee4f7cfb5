/** The order in which one sweep starts the timers of different ticks. */
module WheelOrder {
  import opened Division
  import opened WheelSpec
  import opened WheelSweep

  /** Less than a revolution after the last sweep. */
  predicate Near(w: Wheel, now: nat)
    requires |w.buckets| > 0
  {
    w.last <= now && w.Ticks(now) < w.Ticks(w.last) + |w.buckets|
  }

  lemma TicksInOrder(w: Wheel, now: nat)
    requires w.last <= now
    ensures w.Ticks(w.last) <= w.Ticks(now)
  {
    Order(w.last, now, w.tick);
  }

  /** Bucket by bucket, the sweep goes through the ticks from the last sweep to
      now in their order, across the end of the array too. */
  lemma PlanFollowsTicks(w: Wheel, now: nat)
    requires |w.buckets| > 0 && Near(w, now)
    ensures var t1, t2, n := w.Ticks(w.last), w.Ticks(now), |w.buckets|;
            && t1 <= t2 && |Plan(w, now)| == t2 - t1 + 1
            && forall i: nat :: i <= t2 - t1 ==> Plan(w, now)[i] == (t1 + i) % n
  {
    hide TickOf;
    var t1, t2, n := w.Ticks(w.last), w.Ticks(now), |w.buckets|;
    TicksInOrder(w, now);
    NextRound(t1, t2, n);
    DivMod(t1, n);
    DivMod(t2, n);
    assert n * (t1 / n + 1) == n * (t1 / n) + n;
    forall i: nat | i <= t2 - t1
      ensures Plan(w, now)[i] == (t1 + i) % n
    {
      if t1 % n + i < n {
        DivModUnique(t1 + i, n, t1 / n, t1 % n + i);
      } else {
        assert (t1 / n + 1) * n == n * (t1 / n + 1);
        DivModUnique(t1 + i, n, t1 / n + 1, t1 % n + i - n);
      }
    }
  }

  lemma SameSlotSameTick(t: nat, u: nat, v: nat, n: Pos)
    requires t <= u < t + n && t <= v < t + n && u % n == v % n
    ensures u == v
  {
    if u < v {
      NextRound(u, v, n);
      SlotIsUnique(u, v, n);
    } else if v < u {
      NextRound(v, u, n);
      SlotIsUnique(v, u, n);
    }
  }

  /** What is left to visit is an end of the plan. */
  ghost predicate AtEndOf(plan: seq<nat>, visit: seq<nat>) {
    |visit| <= |plan| && visit == plan[|plan| - |visit|..]
  }

  lemma PlaceInPlan(w: Wheel, now: nat, i: nat, t: nat)
    requires |w.buckets| > 0 && Near(w, now) && i < |Plan(w, now)|
    requires w.Ticks(w.last) <= t <= w.Ticks(now) && Plan(w, now)[i] == t % |w.buckets|
    ensures i == t - w.Ticks(w.last)
  {
    PlanFollowsTicks(w, now);
    hide Plan, TickOf;
    SameSlotSameTick(w.Ticks(w.last), w.Ticks(w.last) + i, t, |w.buckets|);
  }

  /** While bucket `u` is being swept, those of earlier ticks are done with. */
  lemma EarlierIsPast(w: Wheel, now: nat, visit: seq<nat>, t: nat, u: nat)
    requires |w.buckets| > 0 && Near(w, now) && AtEndOf(Plan(w, now), visit) && visit != []
    requires w.Ticks(w.last) <= t < u <= w.Ticks(now) && visit[0] == u % |w.buckets|
    ensures t % |w.buckets| !in visit
  {
    hide TickOf, Plan;
    var plan := Plan(w, now);
    var m := |plan| - |visit|;
    assert visit[0] == plan[m];
    PlaceInPlan(w, now, m, u);
    if t % |w.buckets| in visit {
      var i :| 0 <= i < |visit| && visit[i] == t % |w.buckets|;
      assert visit[i] == plan[m + i];
      PlaceInPlan(w, now, m + i, t);
    }
  }

  /** If the sweep has come to `b` at all, it has dealt with `a` before. */
  ghost predicate Dealt(script: Script, s: Sweep, a: nat, b: nat) {
    && (b in s.batch || b in s.trace ==> a in s.trace || Cancelled(script, |s.trace|, a))
    && (forall q :: 0 <= q < |s.trace| && s.trace[q] == b ==> a in s.trace[..q] || Cancelled(script, q, a))
  }

  lemma VisitDeals(s: Sweep, now: nat, script: Script, a: nat, b: nat)
    requires Shaped(s) && s.batch != [] && Dealt(script, s, a, b)
    ensures Dealt(script, Visit(s, now, script), a, b)
  {
    hide Settle, ApplyAll;
    var r := Visit(s, now, script);
    var x := s.batch[0];
    if x in s.w.table {
      assert r.trace == s.trace + [x];
      assert r.trace[..|s.trace|] == s.trace;
      forall q | 0 <= q < |s.trace|
        ensures r.trace[..q] == s.trace[..q]
      {
      }
    }
  }

  ghost predicate Two(w: Wheel, now: nat, a: nat, b: nat) {
    && Valid(w) && NoneOverdue(w) && |w.buckets| > 0 && Near(w, now)
    && a in w.table && b in w.table && a in w.due && b in w.due
    && w.Ticks(w.due[a]) < w.Ticks(w.due[b]) <= w.Ticks(now)
  }

  lemma PoppedAtTick(s: Sweep, now: nat, b: nat)
    requires SweepOk(s) && s.batch == [] && s.visit != [] && Pop(s.w.buckets[s.visit[0]], s.w.Rounds(now)).Batch?
    requires b in Pop(s.w.buckets[s.visit[0]], s.w.Rounds(now)).ids
    ensures b in s.w.due && s.w.Ticks(s.w.due[b]) % |s.w.buckets| == s.visit[0]
  {
    PopAt(s.w.buckets, s.visit[0], s.w.Rounds(now));
    PopFiled(s.w.buckets, s.w.tick, s.w.due, s.visit[0], s.w.Rounds(now));
  }

  lemma WaitingIsVisited(w: Wheel, now: nat, s: Sweep, a: nat)
    requires OnTrack(w, s, now) && s.batch == [] && a in s.w.table && a !in s.trace && a <= w.counter
    requires a in w.due && InZone(w, now, w.Ticks(w.due[a]))
    ensures w.Ticks(w.due[a]) % |w.buckets| in s.visit
  {
    hide Filed, Zone, Plan, TickOf;
    assert a in s.w.due;
    assert a in Reached(w, now);
  }

  lemma DueInZone(w: Wheel, now: nat, a: nat, b: nat)
    requires Two(w, now, a, b)
    ensures w.Ticks(w.last) <= w.Ticks(w.due[a]) && InZone(w, now, w.Ticks(w.due[a]))
  {
    hide Filed, Plan, TickOf, Zone;
    ZoneCoversDue(w, now, w.Ticks(w.due[a]));
  }

  lemma PopDeals(w: Wheel, now: nat, script: Script, s: Sweep, a: nat, b: nat)
    requires Two(w, now, a, b) && OnTrack(w, s, now) && AtEndOf(Plan(w, now), s.visit)
    requires Fate(script, s, a, w.table[a].interval) && a <= w.counter && b <= w.counter && Dealt(script, s, a, b)
    requires s.batch == [] && s.visit != [] && Pop(s.w.buckets[s.visit[0]], s.w.Rounds(now)).Batch?
    requires b in Pop(s.w.buckets[s.visit[0]], s.w.Rounds(now)).ids && b !in s.trace
    ensures a in s.trace || Cancelled(script, |s.trace|, a)
  {
    PoppedAtTick(s, now, b);
    hide Filed, Zone, Plan, TickOf, Pop, Cancelled, NoneOverdue, Reached;
    if a in s.w.table && a !in s.trace {
      DueInZone(w, now, a, b);
      WaitingIsVisited(w, now, s, a);
      EarlierIsPast(w, now, s.visit, w.Ticks(w.due[a]), w.Ticks(w.due[b]));
    }
  }

  lemma TrackIsOk(w: Wheel, s: Sweep, now: nat)
    requires OnTrack(w, s, now)
    ensures SweepOk(s)
  {
  }

  lemma StepDeals(w: Wheel, now: nat, script: Script, s: Sweep, a: nat, b: nat)
    requires Two(w, now, a, b) && OnTrack(w, s, now) && AtEndOf(Plan(w, now), s.visit)
    requires Fate(script, s, a, w.table[a].interval) && a <= w.counter && b <= w.counter && Dealt(script, s, a, b)
    ensures Dealt(script, Step(s, now, script), a, b) && AtEndOf(Plan(w, now), Step(s, now, script).visit)
  {
    hide Two, OnTrack, Fate, Plan, Cancelled;
    assert SweepOk(s) by { TrackIsOk(w, s, now); }
    if s.batch != [] {
      VisitDeals(s, now, script, a, b);
    } else if s.visit != [] {
      var p := Pop(s.w.buckets[s.visit[0]], s.w.Rounds(now));
      if p.Batch? && b in p.ids && b !in s.trace {
        PopDeals(w, now, script, s, a, b);
      }
    }
  }

  lemma {:induction false} RunDeals(w: Wheel, now: nat, script: Script, k: nat, a: nat, b: nat)
    requires Two(w, now, a, b) && Fair(script, now) && a <= w.counter && b <= w.counter
    ensures var s := Run(Begin(w, now), now, script, k);
            Dealt(script, s, a, b) && AtEndOf(Plan(w, now), s.visit)
  {
    hide Step, Plan, OnTrack, Fate, Cancelled, At, TickOf;
    if k > 0 {
      RunDeals(w, now, script, k - 1, a, b);
      RunTracks(w, now, script, k - 1);
      RunFate(w, now, script, k - 1, a);
      StepDeals(w, now, script, Run(Begin(w, now), now, script, k - 1), a, b);
    }
  }

  /** Less than a revolution after the last sweep, timers of an earlier tick
      are started before those of a later one: whenever `b` is started, `a` has
      been started or cancelled before. */
  lemma StartsInTickOrder(w: Wheel, now: nat, script: Script, s: Sweep, a: nat, b: nat)
    requires Valid(w) && NoneOverdue(w) && Near(w, now) && Fair(script, now) && SweptFrom(w, now, script, s)
    requires a in w.table && b in w.table && w.Ticks(w.due[a]) < w.Ticks(w.due[b]) <= w.Ticks(now)
    ensures forall q :: 0 <= q < |s.trace| && s.trace[q] == b ==> a in s.trace[..q] || Cancelled(script, q, a)
  {
    hide At, TickOf, Plan, Run;
    assert a in w.due && b in w.due;
    var k: nat :| s == Run(Begin(w, now), now, script, k);
    RunDeals(w, now, script, k, a, b);
  }
}
