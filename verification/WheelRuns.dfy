/** Whole runs of the wheel: any sequence of Add, Cancel and Process. */
module WheelRuns {
  import opened Division
  import opened WheelSpec
  import opened WheelSweep

  /** A Process is given with a number of steps after which it is over. */
  datatype Act =
    | Add(due: nat, interval: int)
    | Cancel(id: nat)
    | Process(now: nat, script: Script, steps: nat)

  /** `since` is when the wheel was made or last processed.  Clock readings do
      not go back behind it, delays are not negative, and a Process that is
      followed by something has come back. */
  ghost predicate LegalAt(w: Wheel, since: nat, a: Act)
    requires |w.buckets| > 0
  {
    match a
    case Add(due, _) => since <= due
    case Cancel(_) => true
    case Process(now, script, steps) =>
      since <= now && Fair(script, now) && Done(Run(Begin(w, now), now, script, steps))
  }

  ghost predicate Legal(w: Wheel, a: Act)
    requires |w.buckets| > 0
  {
    LegalAt(w, w.last, a)
  }

  function Do(w: Wheel, a: Act): (r: Wheel)
    requires |w.buckets| > 0
    ensures |r.buckets| > 0
  {
    match a
    case Add(due, interval) => AddTimer(w, due, interval)
    case Cancel(id) => CancelTimer(w, id)
    case Process(now, script, steps) => Finish(Run(Begin(w, now), now, script, steps), now)
  }

  function After(w: Wheel, acts: seq<Act>): (r: Wheel)
    requires |w.buckets| > 0
    ensures |r.buckets| > 0
    decreases |acts|
  {
    if acts == [] then w else After(Do(w, acts[0]), acts[1..])
  }

  function Since(since: nat, a: Act): nat { if a.Process? then a.now else since }

  /** Told by the instants of the acts, and not by what the wheel remembers. */
  ghost predicate LegalFrom(w: Wheel, since: nat, acts: seq<Act>)
    requires |w.buckets| > 0
    decreases |acts|
  {
    acts == [] || (LegalAt(w, since, acts[0]) && LegalFrom(Do(w, acts[0]), Since(since, acts[0]), acts[1..]))
  }

  ghost predicate LegalRun(w: Wheel, acts: seq<Act>)
    requires |w.buckets| > 0
  {
    LegalFrom(w, w.last, acts)
  }

  /** The wheel remembers the instant of its last Process. */
  lemma DoRemembers(w: Wheel, a: Act)
    requires |w.buckets| > 0
    ensures Do(w, a).last == Since(w.last, a)
  {
  }

  lemma LegalTail(w: Wheel, acts: seq<Act>)
    requires |w.buckets| > 0 && LegalRun(w, acts) && acts != []
    ensures Legal(w, acts[0]) && LegalRun(Do(w, acts[0]), acts[1..])
  {
    DoRemembers(w, acts[0]);
  }

  /** What makes the next sweep complete survives an Add exactly when its
      deadline is not in a tick already left behind. */
  lemma AddKeepsNoneOverdue(w: Wheel, due: nat, interval: int)
    requires Valid(w) && NoneOverdue(w)
    ensures NoneOverdue(AddTimer(w, due, interval)) <==> w.Ticks(w.last) <= w.Ticks(due)
  {
    var w' := AddTimer(w, due, interval);
    assert w.counter + 1 in w'.due && w'.due[w.counter + 1] == due;
  }

  lemma DoKeeps(w: Wheel, a: Act)
    requires Valid(w) && NoneOverdue(w) && Legal(w, a)
    ensures Valid(Do(w, a)) && NoneOverdue(Do(w, a))
  {
    match a
    case Add(due, interval) =>
      AddKeeps(w, [], due, interval);
      Order(w.last, due, w.tick);
      AddKeepsNoneOverdue(w, due, interval);
    case Cancel(id) =>
    case Process(now, script, steps) =>
      ProcessKeeps(w, now, script, Run(Begin(w, now), now, script, steps));
  }

  /** Over every legal run, each live id is filed exactly once, in the bucket
      and round of its deadline, and nothing is overdue. */
  lemma {:induction false} RunsStayValid(w: Wheel, acts: seq<Act>)
    requires Valid(w) && NoneOverdue(w) && LegalRun(w, acts)
    ensures Valid(After(w, acts)) && NoneOverdue(After(w, acts))
    decreases |acts|
  {
    if acts != [] {
      LegalTail(w, acts);
      DoKeeps(w, acts[0]);
      RunsStayValid(Do(w, acts[0]), acts[1..]);
    }
  }

  /** The representation, read off the buckets: a live id is in the list of
      bucket `i` under round `r` exactly when `i + n * r` is the tick of its
      deadline. */
  lemma FiledOnce(w: Wheel, id: nat, i: nat, r: nat)
    requires Valid(w) && id in w.table && i < |w.buckets|
    ensures (r in w.buckets[i] && id in w.buckets[i][r]) <==> i + |w.buckets| * r == w.Ticks(w.due[id])
    ensures r in w.buckets[i] ==> NoDup(w.buckets[i][r])
  {
    SlotOf(i, r, |w.buckets|);
    var t := i + |w.buckets| * r;
    assert id in At(w.buckets, t) <==> id in w.due && TickOf(w.due[id], w.tick) == t;
    assert NoDup(At(w.buckets, t));
  }

  // ------------------------------------------------------------ cancellation

  ghost predicate Dead(w: Wheel, id: nat) { id <= w.counter && id !in w.table }

  lemma {:induction false} ApplyAllDead(w: Wheel, ops: seq<Op>, id: nat)
    requires |w.buckets| > 0 && Dead(w, id)
    ensures Dead(ApplyAll(w, ops), id)
    decreases |ops|
  {
    if ops != [] {
      ApplyAllDead(Apply(w, ops[0]), ops[1..], id);
    }
  }

  lemma StepDead(s: Sweep, now: nat, script: Script, id: nat)
    requires Shaped(s) && Dead(s.w, id)
    ensures var r := Step(s, now, script);
            Dead(r.w, id) && (r.trace == s.trace || exists x :: x != id && r.trace == s.trace + [x])
  {
    if s.batch != [] && s.batch[0] in s.w.table {
      ApplyAllDead(Settle(s.w, s.batch[0], now), script(|s.trace|), id);
      assert s.batch[0] != id && Step(s, now, script).trace == s.trace + [s.batch[0]];
    }
  }

  function Occurs(s: seq<nat>, id: nat): nat { multiset(s)[id] }

  /** Within a sweep: once cancelled, from a callback of this very sweep or
      before it, an id is never started again, wherever it may still be filed. */
  lemma {:induction false} DeadStaysQuiet(s: Sweep, now: nat, script: Script, id: nat, k: nat)
    requires Shaped(s) && Dead(s.w, id)
    ensures var r := Run(s, now, script, k);
            Dead(r.w, id) && Occurs(r.trace, id) == Occurs(s.trace, id)
  {
    if k > 0 {
      DeadStaysQuiet(s, now, script, id, k - 1);
      StepDead(Run(s, now, script, k - 1), now, script, id);
    }
  }

  /** Across runs: a cancelled timer is never started again. */
  lemma {:induction false} CancelledNeverStarts(w: Wheel, acts: seq<Act>, id: nat)
    requires |w.buckets| > 0 && Dead(w, id)
    ensures Dead(After(w, acts), id) && Occurs(After(w, acts).started, id) == Occurs(w.started, id)
    decreases |acts|
  {
    if acts != [] {
      if acts[0].Process? {
        var s := Begin(w, acts[0].now);
        DeadStaysQuiet(s, acts[0].now, acts[0].script, id, acts[0].steps);
      }
      CancelledNeverStarts(Do(w, acts[0]), acts[1..], id);
    }
  }

  // --------------------------------------------------------- no timer is lost

  ghost predicate Cancels(a: Act, id: nat) {
    match a
    case Add(_, _) => false
    case Cancel(x) => x == id
    case Process(_, script, _) => exists k: nat :: CancelOp(id) in script(k)
  }

  /** A Process at the deadline or later. */
  predicate Reaches(a: Act, due: nat) { a.Process? && a.now >= due }

  lemma OccursAdd(a: seq<nat>, b: seq<nat>, id: nat)
    ensures Occurs(a + b, id) == Occurs(a, id) + Occurs(b, id)
    ensures id in b ==> Occurs(b, id) > 0
  {
  }

  lemma {:induction false} StartsGrow(w: Wheel, acts: seq<Act>, id: nat)
    requires |w.buckets| > 0
    ensures Occurs(After(w, acts).started, id) >= Occurs(w.started, id)
    decreases |acts|
  {
    if acts != [] {
      if acts[0].Process? {
        OccursAdd(w.started, Run(Begin(w, acts[0].now), acts[0].now, acts[0].script, acts[0].steps).trace, id);
      }
      StartsGrow(Do(w, acts[0]), acts[1..], id);
    }
  }

  /** One act: the timer is started, or is where it was, and the latter only
      while its deadline has not come. */
  lemma ActOnLive(w: Wheel, a: Act, id: nat)
    requires Valid(w) && NoneOverdue(w) && Legal(w, a) && id in w.table && !Cancels(a, id)
    ensures || Occurs(Do(w, a).started, id) > Occurs(w.started, id)
            || (&& !Reaches(a, w.due[id]) && Occurs(Do(w, a).started, id) == Occurs(w.started, id)
                && id in Do(w, a).table && id in Do(w, a).due && Do(w, a).due[id] == w.due[id])
  {
    if a.Process? {
      var s := Run(Begin(w, a.now), a.now, a.script, a.steps);
      OccursAdd(w.started, s.trace, id);
      SweepIsExact(w, a.now, a.script, s, id);
      if a.now >= w.due[id] {
        DueTimersFire(w, a.now, a.script, s, id);
      }
    }
  }

  /** A timer that nobody cancels is started by the first Process that comes at
      its deadline or later, if not before, whatever is added, cancelled and
      processed meanwhile. */
  lemma {:induction false} LiveIsStarted(w: Wheel, acts: seq<Act>, id: nat)
    requires Valid(w) && NoneOverdue(w) && LegalRun(w, acts) && id in w.table
    requires forall a :: a in acts ==> !Cancels(a, id)
    requires exists a :: a in acts && Reaches(a, w.due[id])
    ensures Occurs(After(w, acts).started, id) > Occurs(w.started, id)
    decreases |acts|
  {
    hide At, NoneOverdue, Legal, Cancels, Do, Occurs;
    var a := acts[0];
    assert acts == [a] + acts[1..];
    assert id in w.due;
    LegalTail(w, acts);
    DoKeeps(w, a);
    ActOnLive(w, a, id);
    if Occurs(Do(w, a).started, id) > Occurs(w.started, id) {
      StartsGrow(Do(w, a), acts[1..], id);
    } else {
      LiveIsStarted(Do(w, a), acts[1..], id);
    }
  }

  // ---------------------------------------------------------------- wake-ups

  lemma AskedIsTickStart(due: nat, tick: Pos, now: nat)
    ensures TickOf(due, tick) * tick <= due < TickOf(due, tick) * tick + tick
    ensures TickOf(due, tick) * tick <= now ==> TickOf(due, tick) <= TickOf(now, tick)
  {
    var t := TickOf(due, tick);
    DivMod(due, tick);
    SlotOf(0, t, tick);
    if t * tick <= now {
      Order(tick * t, now, tick);
    }
  }

  lemma AddedIsReached(w: Wheel, due: nat, interval: int, now: nat)
    requires Valid(w) && w.last <= due && w.Ticks(due) <= w.Ticks(now)
    ensures var w1 := AddTimer(w, due, interval);
            InZone(w1, now, w1.Ticks(due))
  {
    Order(w.last, due, w.tick);
    ZoneCoversDue(AddTimer(w, due, interval), now, w.Ticks(due));
  }

  /** Add asks the channel for an instant at or before the deadline, less than
      a tick before; a Process that comes at that instant or later starts the
      timer, unless it is cancelled meanwhile. */
  lemma AskedInstantSuffices(w: Wheel, due: nat, interval: int, now: nat, script: Script, s: Sweep)
    requires Valid(w) && NoneOverdue(w) && w.last <= due
    requires var w1 := AddTimer(w, due, interval);
             w1.asked[|w.asked|] <= now && Fair(script, now) && SweptFrom(w1, now, script, s) && Done(s)
    ensures var asked := AddTimer(w, due, interval).asked[|w.asked|];
            asked <= due < asked + w.tick
    ensures w.counter + 1 in s.trace || Cancelled(script, |s.trace|, w.counter + 1)
  {
    var w1 := AddTimer(w, due, interval);
    AskedIsTickStart(due, w.tick, now);
    hide TickOf;
    AddedIsReached(w, due, interval, now);
    AddKeeps(w, [], due, interval);
    SweepIsExact(w1, now, script, s, w.counter + 1);
  }

  // ------------------------------------------------ deadlines left behind

  predicate SameBucket(t: nat, u: nat, n: Pos) { t % n == u % n }

  /** The sweep goes through a tick that has the same bucket as `t`. */
  ghost predicate Passes(w: Wheel, now: nat, t: nat)
    requires |w.buckets| > 0
  {
    exists u: nat :: w.Ticks(w.last) <= u <= w.Ticks(now) && SameBucket(u, t, |w.buckets|)
  }

  /** The first tick from `t` on in the bucket of `u`. */
  lemma NextInBucket(t: nat, u: nat, n: Pos) returns (v: nat)
    ensures t <= v < t + n && SameBucket(v, u, n)
    ensures v - t == if t % n <= u % n then u % n - t % n else n - t % n + u % n
  {
    DivMod(t, n);
    var r := if t % n <= u % n then t / n else t / n + 1;
    assert n * (t / n + 1) == n * (t / n) + n;
    SlotOf(u % n, r, n);
    v := u % n + n * r;
  }

  lemma PlanMember(w: Wheel, now: nat, b: nat)
    requires |w.buckets| > 0 && w.last <= now && b < |w.buckets|
    ensures var n, t1, t2 := |w.buckets|, w.Ticks(w.last), w.Ticks(now);
            b in Plan(w, now) <==>
              (t2 < t1 + n ==> if t1 % n <= t2 % n then t1 % n <= b <= t2 % n else t1 % n <= b || b <= t2 % n)
  {
    Order(w.last, now, w.tick);
  }

  lemma PlanReaches(t1: nat, t2: nat, v: nat, b: nat, n: Pos)
    requires t1 <= t2 && b < n && t1 <= v < t1 + n
    requires v - t1 == if t1 % n <= b then b - t1 % n else n - t1 % n + b
    requires t2 < t1 + n ==> if t1 % n <= t2 % n then t1 % n <= b <= t2 % n else t1 % n <= b || b <= t2 % n
    ensures v <= t2
  {
    if t2 < t1 + n {
      NextRound(t1, t2, n);
      Order(t1, t2, n);
      DivMod(t1, n);
      DivMod(t2, n);
      assert t2 / n == t1 / n + 1 ==> n * (t2 / n) == n * (t1 / n) + n;
    }
  }

  lemma TicksGrow(t: nat, u: nat, tick: Pos)
    requires t <= u
    ensures TickOf(t, tick) <= TickOf(u, tick)
  {
    Order(t, u, tick);
  }

  lemma ZoneBehind(w: Wheel, now: nat, t: nat)
    requires |w.buckets| > 0 && w.last <= now && t < w.Ticks(w.last)
    ensures InZone(w, now, t) <==> Passes(w, now, t)
  {
    hide TickOf, Plan;
    var n := |w.buckets|;
    var t1, t2 := w.Ticks(w.last), w.Ticks(now);
    TicksGrow(w.last, now, w.tick);
    Order(t1, t2, n);
    Order(t, t2, n);
    if t % n in Plan(w, now) {
      var v := NextInBucket(t1, t, n);
      PlanMember(w, now, t % n);
      PlanReaches(t1, t2, v, t % n, n);
    }
    forall u: nat | t1 <= u <= t2 && SameBucket(u, t, n)
      ensures t % n in Plan(w, now)
    {
      ZoneCoversDue(w, now, u);
    }
  }

  /** A timer added with a deadline in a tick already left behind is started by
      the next sweep exactly when that sweep passes its bucket: at the latest
      when the wheel has come round. */
  lemma PastDeadlineIff(w: Wheel, due: nat, interval: int, now: nat, script: Script, s: Sweep)
    requires Valid(w) && w.last <= now && w.Ticks(due) < w.Ticks(w.last)
    requires Fair(script, now) && SweptFrom(AddTimer(w, due, interval), now, script, s) && Done(s)
    requires !Cancelled(script, |s.trace|, w.counter + 1)
    ensures w.counter + 1 in s.trace <==> Passes(w, now, w.Ticks(due))
    ensures w.Ticks(now) >= w.Ticks(w.last) + |w.buckets| ==> w.counter + 1 in s.trace
  {
    var w1 := AddTimer(w, due, interval);
    AddKeeps(w, [], due, interval);
    SweepIsExact(w1, now, script, s, w.counter + 1);
    ZoneBehind(w1, now, w.Ticks(due));
    assert Passes(w1, now, w.Ticks(due)) <==> Passes(w, now, w.Ticks(due));
    var v := NextInBucket(w.Ticks(w.last), w.Ticks(due), |w.buckets|);
  }

  /** It happens: the sweep 0.1 s later does not come by. */
  lemma PastDeadlineIsMissed()
    ensures var w := AddTimer(Create(100_000, 600, 1_000_000), 500_000, 0);
            Valid(w) && 1 in w.table && w.due[1] < 1_100_000 && !InZone(w, 1_100_000, w.Ticks(w.due[1]))
  {
    var w0 := Create(100_000, 600, 1_000_000);
    AddKeeps(w0, [], 500_000, 0);
    var w := AddTimer(w0, 500_000, 0);
    assert Plan(w, 1_100_000) == Range(10, 12);
    assert w.Ticks(500_000) == 5 && 5 !in Range(10, 12);
  }
}
