/** What becomes of a timer, told from the act that issued it and by the
    instants of the acts that follow. */
module WheelTimers {
  import opened Division
  import opened WheelSpec
  import opened WheelSweep
  import opened WheelTermination
  import opened WheelRuns

  /** The timer is live, repeats with `interval` if that is positive, and is
      filed for `due`, in that tick's list. */
  ghost predicate Holds(w: Wheel, id: nat, due: nat, interval: int) {
    && |w.buckets| > 0
    && id in w.table && w.table[id] == Entry(w.Rounds(due), interval)
    && id in w.due && w.due[id] == due
    && id in At(w.buckets, w.Ticks(due))
  }

  // ------------------------------------------------- a timer along a sweep

  /** In hand, or filed for `due`. */
  ghost predicate Sits(s: Sweep, id: nat, due: nat)
    requires |s.w.buckets| > 0
  {
    id in s.w.table &&
    (id in s.batch || (id in s.w.due && s.w.due[id] == due && s.w.table[id].rounds == s.w.Rounds(due)))
  }

  /** A timer with this deadline and interval that nobody cancels: it waits
      until it is started; then it is gone, or filed one interval from now. */
  ghost predicate Lives(s: Sweep, now: nat, id: nat, due: nat, interval: int)
    requires |s.w.buckets| > 0
  {
    && id <= s.w.counter
    && (id in s.w.table ==> s.w.table[id].interval == interval)
    && (id !in s.trace ==> Sits(s, id, due))
    && (id in s.trace && interval > 0 ==> Sits(s, id, now + interval))
    && (id in s.trace && interval <= 0 ==> id !in s.w.table)
  }

  lemma LivesSettle(s: Sweep, now: nat, x: nat, rest: seq<nat>, id: nat, due: nat, interval: int)
    requires SweepOk(s) && s.batch == [x] + rest && x in s.w.table && Lives(s, now, id, due, interval)
    ensures Lives(s.(w := Settle(s.w, x, now), batch := rest, trace := s.trace + [x]), now, id, due, interval)
  {
    hide Filed, File;
    SplitBatch(s.w, x, rest);
  }

  lemma LivesOps(s: Sweep, now: nat, ops: seq<Op>, id: nat, due: nat, interval: int)
    requires SweepOk(s) && Lives(s, now, id, due, interval) && CancelOp(id) !in ops
    ensures Lives(s.(w := ApplyAll(s.w, ops)), now, id, due, interval)
  {
    hide Filed, ApplyAll, TickOf;
    ApplyAllTable(s.w, ops, id);
    ApplyAllCounter(s.w, ops);
    if id in s.w.table {
      ApplyAllSpares(s.w, ops, id);
    }
  }

  lemma LivesVisit(s: Sweep, now: nat, script: Script, id: nat, due: nat, interval: int)
    requires SweepOk(s) && s.batch != [] && Lives(s, now, id, due, interval) && CancelOp(id) !in script(|s.trace|)
    ensures Lives(Visit(s, now, script), now, id, due, interval)
  {
    hide Filed, ApplyAll, TickOf, Settle;
    var x, rest := s.batch[0], s.batch[1..];
    assert s.batch == [x] + rest;
    if x in s.w.table {
      LivesSettle(s, now, x, rest, id, due, interval);
      SettleKeeps(s.w, x, rest, now);
      var s1 := s.(w := Settle(s.w, x, now), batch := rest, trace := s.trace + [x]);
      LivesOps(s1, now, script(|s.trace|), id, due, interval);
    } else {
      SplitBatch(s.w, x, rest);
    }
  }

  lemma LivesPop(s: Sweep, now: nat, script: Script, id: nat, due: nat, interval: int)
    requires SweepOk(s) && s.batch == [] && Lives(s, now, id, due, interval)
    ensures Lives(Step(s, now, script), now, id, due, interval)
  {
    hide Filed, TickOf, At;
  }

  lemma LivesStep(s: Sweep, now: nat, script: Script, id: nat, due: nat, interval: int)
    requires SweepOk(s) && Lives(s, now, id, due, interval) && NeverCancels(script, id)
    ensures Lives(Step(s, now, script), now, id, due, interval)
  {
    hide Lives, Visit, Pop;
    if s.batch != [] {
      LivesVisit(s, now, script, id, due, interval);
    } else {
      LivesPop(s, now, script, id, due, interval);
    }
  }

  lemma {:induction false} RunLives(w: Wheel, now: nat, script: Script, k: nat, id: nat, due: nat, interval: int)
    requires Valid(w) && Holds(w, id, due, interval) && NeverCancels(script, id)
    ensures Lives(Run(Begin(w, now), now, script, k), now, id, due, interval)
  {
    hide Step, Filed, Plan, At, TickOf, NeverCancels;
    BeginTracks(w, now);
    if k > 0 {
      RunLives(w, now, script, k - 1, id, due, interval);
      RunKeeps(Begin(w, now), now, script, k - 1);
      LivesStep(Run(Begin(w, now), now, script, k - 1), now, script, id, due, interval);
    }
  }

  /** At the end of a sweep. */
  lemma LivesAtEnd(s: Sweep, now: nat, id: nat, due: nat, interval: int)
    requires SweepOk(s) && Done(s) && Lives(s, now, id, due, interval)
    ensures var r := Finish(s, now);
            && (id !in s.trace ==> Holds(r, id, due, interval))
            && (id in s.trace && interval > 0 ==> Holds(r, id, now + interval, interval))
            && (id in s.trace && interval <= 0 ==> id !in r.table)
  {
    if id in s.w.due {
      assert id in At(s.w.buckets, TickOf(s.w.due[id], s.w.tick));
    }
  }

  // ------------------------------------------------- issued by a callback

  lemma StepStarted(s: Sweep, now: nat, script: Script)
    requires SweepOk(s) && forall id :: id in s.trace ==> id <= s.w.counter
    ensures var r := Step(s, now, script);
            s.w.counter <= r.w.counter && forall id :: id in r.trace ==> id <= r.w.counter
  {
    hide Filed, Pop, File, TickOf, ApplyAll;
    if s.batch != [] && s.batch[0] in s.w.table {
      assert s.batch[0] in s.batch;
      ApplyAllCounter(Settle(s.w, s.batch[0], now), script(|s.trace|));
    }
  }

  lemma {:induction false} RunStarted(w: Wheel, now: nat, script: Script, k: nat)
    requires Valid(w)
    ensures var r := Run(Begin(w, now), now, script, k);
            SweepOk(r) && forall id :: id in r.trace ==> id <= r.w.counter
  {
    hide Step, Filed, Plan;
    BeginTracks(w, now);
    RunKeeps(Begin(w, now), now, script, k);
    if k > 0 {
      RunStarted(w, now, script, k - 1);
      StepStarted(Run(Begin(w, now), now, script, k - 1), now, script);
    }
  }

  /** What operation `j` files is as it was asked for. */
  lemma {:induction false} ApplyAllFiles(w: Wheel, ops: seq<Op>, j: nat)
    requires |w.buckets| > 0 && j < |ops| && ops[j].AddOp? && CancelOp(w.counter + Adds(ops[..j + 1])) !in ops
    ensures var r, id := ApplyAll(w, ops), w.counter + Adds(ops[..j + 1]);
            && w.counter < id <= r.counter
            && id in r.table && r.table[id] == Entry(w.Rounds(ops[j].due), ops[j].interval)
            && id in r.due && r.due[id] == ops[j].due
    decreases |ops|
  {
    hide TickOf, File;
    var w1 := Apply(w, ops[0]);
    assert ops == [ops[0]] + ops[1..];
    assert ops[..j + 1][1..] == ops[1..][..j];
    if j == 0 {
      assert Adds(ops[..1]) == 1;
      ApplyAllCounter(w1, ops[1..]);
      ApplyAllSpares(w1, ops[1..], w1.counter);
    } else {
      ApplyAllFiles(w1, ops[1..], j - 1);
    }
  }

  lemma IssuedNow(s: Sweep, now: nat, script: Script, j: nat)
    requires SweepOk(s) && s.batch != [] && s.batch[0] in s.w.table && (forall x :: x in s.trace ==> x <= s.w.counter)
    requires var ops := script(|s.trace|);
             && j < |ops| && ops[j].AddOp? && CancelOp(s.w.counter + Adds(ops[..j + 1])) !in ops
    ensures var op := script(|s.trace|)[j];
            Lives(Visit(s, now, script), now, s.w.counter + Adds(script(|s.trace|)[..j + 1]), op.due, op.interval)
  {
    hide Filed, ApplyAll, TickOf, File, Adds;
    assert s.batch[0] in s.batch;
    ApplyAllFiles(Settle(s.w, s.batch[0], now), script(|s.trace|), j);
  }

  lemma StepIssued(s: Sweep, now: nat, script: Script, k: nat, j: nat)
    requires SweepOk(s) && (forall x :: x in s.trace ==> x <= s.w.counter) && |s.trace| <= k
    requires j < |script(k)| && script(k)[j].AddOp? && (|s.trace| == k ==> CancelOp(s.w.counter + Adds(script(k)[..j + 1])) !in script(k))
    ensures var r := Step(s, now, script);
            k < |r.trace| ==> |s.trace| == k && Lives(r, now, s.w.counter + Adds(script(k)[..j + 1]), script(k)[j].due, script(k)[j].interval)
  {
    hide Lives, Filed, Adds, ApplyAll, Pop;
    if s.batch != [] && s.batch[0] in s.w.table && |s.trace| == k {
      IssuedNow(s, now, script, j);
    }
  }

  lemma {:induction false} RunIssued(w: Wheel, now: nat, script: Script, steps: nat, k: nat, j: nat)
    requires Valid(w) && j < |script(k)| && script(k)[j].AddOp?
    requires NeverCancels(script, IdOf(w.counter, script, k, j))
    ensures var r := Run(Begin(w, now), now, script, steps);
            k < |r.trace| ==> Lives(r, now, IdOf(w.counter, script, k, j), script(k)[j].due, script(k)[j].interval)
    decreases steps
  {
    hide Step, At, Plan, TickOf, Lives, Adds, IssuedBefore;
    if steps > 0 {
      var s := Run(Begin(w, now), now, script, steps - 1);
      RunIssued(w, now, script, steps - 1, k, j);
      RunStarted(w, now, script, steps - 1);
      if k < |s.trace| {
        LivesStep(s, now, script, IdOf(w.counter, script, k, j), script(k)[j].due, script(k)[j].interval);
      } else {
        RunIssues(w, now, script, steps - 1);
        SparedBy(script, IdOf(w.counter, script, k, j), k);
        StepIssued(s, now, script, k, j);
      }
    }
  }

  // ------------------------------------------------- told from the act

  /** A Process in which the timer has been started or not, as `started` says,
      leaves it like this. */
  ghost predicate LeftAs(r: Wheel, now: nat, started: bool, id: nat, due: nat, interval: int) {
    && (!started ==> Holds(r, id, due, interval))
    && (started && interval > 0 ==> Holds(r, id, now + interval, interval))
    && (started && interval <= 0 ==> id !in r.table)
  }

  function SweepOf(w: Wheel, a: Act): Sweep
    requires |w.buckets| > 0 && a.Process?
  {
    Run(Begin(w, a.now), a.now, a.script, a.steps)
  }

  lemma SparedByAct(a: Act, id: nat)
    requires a.Process? && !Cancels(a, id)
    ensures NeverCancels(a.script, id)
  {
  }

  lemma SweepLeaves(w: Wheel, now: nat, script: Script, steps: nat, id: nat, due: nat, interval: int)
    requires |w.buckets| > 0 && Valid(w) && NeverCancels(script, id) && Holds(w, id, due, interval)
    requires Done(Run(Begin(w, now), now, script, steps))
    ensures var s := Run(Begin(w, now), now, script, steps);
            LeftAs(Finish(s, now), now, id in s.trace, id, due, interval)
  {
    hide Holds, Lives, Begin, Run, NeverCancels, SweepOk, Valid, Finish, Reached, Tracks;
    BeginTracks(w, now);
    RunLives(w, now, script, steps, id, due, interval);
    RunKeeps(Begin(w, now), now, script, steps);
    LivesAtEnd(Run(Begin(w, now), now, script, steps), now, id, due, interval);
  }

  lemma ProcessLeaves(w: Wheel, a: Act, id: nat, due: nat, interval: int)
    requires |w.buckets| > 0 && Valid(w) && a.Process? && Legal(w, a) && NeverCancels(a.script, id)
    requires Holds(w, id, due, interval)
    ensures LeftAs(Do(w, a), a.now, id in SweepOf(w, a).trace, id, due, interval)
  {
    hide Holds, Begin, Run, NeverCancels, Valid, Finish, LeftAs, Fair;
    SweepLeaves(w, a.now, a.script, a.steps, id, due, interval);
  }

  lemma ProcessStarts(w: Wheel, a: Act, id: nat)
    requires |w.buckets| > 0 && Valid(w) && NoneOverdue(w) && a.Process? && Legal(w, a) && NeverCancels(a.script, id)
    requires id in w.table && id in w.due && a.now >= w.due[id]
    ensures id in SweepOf(w, a).trace
  {
    hide Begin, Run, Valid, NoneOverdue, Fair;
    assert SweptFrom(w, a.now, a.script, SweepOf(w, a));
    DueTimersFire(w, a.now, a.script, SweepOf(w, a), id);
  }

  lemma ProcessOnTimer(w: Wheel, a: Act, id: nat, due: nat, interval: int)
    requires Valid(w) && NoneOverdue(w) && a.Process? && Legal(w, a) && !Cancels(a, id) && Holds(w, id, due, interval)
    ensures LeftAs(Do(w, a), a.now, id in SweepOf(w, a).trace, id, due, interval)
    ensures a.now >= due ==> id in SweepOf(w, a).trace
  {
    hide At, Valid, NoneOverdue, Legal, LeftAs, SweepOf, Do, NeverCancels;
    SparedByAct(a, id);
    ProcessLeaves(w, a, id, due, interval);
    if a.now >= due {
      ProcessStarts(w, a, id);
    }
  }

  lemma LeftLive(r: Wheel, now: nat, started: bool, id: nat, due: nat, interval: int)
    requires LeftAs(r, now, started, id, due, interval)
    ensures id in r.table <==> !started || interval > 0
  {
    hide At;
  }

  lemma AddHolds(w: Wheel, due: nat, interval: int)
    requires Valid(w)
    ensures Holds(AddTimer(w, due, interval), w.counter + 1, due, interval)
  {
    AddKeeps(w, [], due, interval);
    FileAt(w.buckets, w.Ticks(due), w.counter + 1);
  }

  lemma OtherActHolds(w: Wheel, a: Act, id: nat, due: nat, interval: int)
    requires Valid(w) && !a.Process? && !Cancels(a, id) && Holds(w, id, due, interval)
    ensures Holds(Do(w, a), id, due, interval)
  {
    if a.Add? {
      FileAt(w.buckets, w.Ticks(a.due), w.counter + 1);
    }
  }

  lemma ActUnlessStarted(w: Wheel, a: Act, id: nat, due: nat, interval: int)
    requires Valid(w) && NoneOverdue(w) && Legal(w, a) && !Cancels(a, id) && Holds(w, id, due, interval)
    ensures Occurs(Do(w, a).started, id) >= Occurs(w.started, id)
    ensures Occurs(Do(w, a).started, id) == Occurs(w.started, id) ==> Holds(Do(w, a), id, due, interval)
  {
    hide Holds, Valid, NoneOverdue, Cancels;
    if a.Process? {
      ProcessOnTimer(w, a, id, due, interval);
      OccursAdd(w.started, SweepOf(w, a).trace, id);
    } else {
      OtherActHolds(w, a, id, due, interval);
    }
  }

  /** Until a timer that nobody cancels is started, it stays as it was filed. */
  lemma {:induction false} HoldsUntilStarted(w: Wheel, acts: seq<Act>, id: nat, due: nat, interval: int)
    requires Valid(w) && NoneOverdue(w) && LegalRun(w, acts) && Holds(w, id, due, interval)
    requires forall a :: a in acts ==> !Cancels(a, id)
    requires Occurs(After(w, acts).started, id) == Occurs(w.started, id)
    ensures Valid(After(w, acts)) && NoneOverdue(After(w, acts)) && Holds(After(w, acts), id, due, interval)
    decreases |acts|
  {
    hide At, NoneOverdue, Legal, Cancels, Do, Occurs, Holds;
    if acts != [] {
      var a := acts[0];
      assert acts == [a] + acts[1..];
      LegalTail(w, acts);
      DoKeeps(w, a);
      StartsGrow(Do(w, a), acts[1..], id);
      ActUnlessStarted(w, a, id, due, interval);
      HoldsUntilStarted(Do(w, a), acts[1..], id, due, interval);
    }
  }

  lemma {:induction false} LegalSplit(w: Wheel, xs: seq<Act>, a: Act)
    requires |w.buckets| > 0 && LegalRun(w, xs + [a])
    ensures LegalRun(w, xs) && Legal(After(w, xs), a)
    decreases |xs|
  {
    LegalTail(w, xs + [a]);
    if xs == [] {
      assert (xs + [a])[0] == a;
    } else {
      DoRemembers(w, xs[0]);
      assert (xs + [a])[0] == xs[0] && (xs + [a])[1..] == xs[1..] + [a];
      LegalSplit(Do(w, xs[0]), xs[1..], a);
    }
  }

  lemma AddIs(w: Wheel, due: nat, interval: int)
    requires |w.buckets| > 0
    ensures Do(w, Add(due, interval)) == AddTimer(w, due, interval)
    ensures Do(w, Add(due, interval)).started == w.started
  {
  }

  /** A timer added with this deadline and interval, that nobody cancels: the
      first Process that starts it, at the deadline or later if not before,
      leaves it live if and only if the interval is positive, and then filed
      for one such interval after the instant of that Process; every Process
      before leaves it filed for its deadline. */
  lemma AddedTimer(w: Wheel, due: nat, interval: int, mid: seq<Act>, a: Act)
    requires |w.buckets| > 0 && Valid(w) && NoneOverdue(w) && Legal(w, Add(due, interval))
    requires a.Process? && LegalRun(Do(w, Add(due, interval)), mid + [a])
    requires forall x :: x in mid + [a] ==> !Cancels(x, w.counter + 1)
    requires Occurs(After(Do(w, Add(due, interval)), mid).started, w.counter + 1) == Occurs(w.started, w.counter + 1)
    ensures var before := After(Do(w, Add(due, interval)), mid);
            var started := w.counter + 1 in SweepOf(before, a).trace;
            && (a.now >= due ==> started)
            && (w.counter + 1 in Do(before, a).table <==> !started || interval > 0)
            && LeftAs(Do(before, a), a.now, started, w.counter + 1, due, interval)
  {
    hide Valid, NoneOverdue, Legal, LegalFrom, Holds, LeftAs, Cancels, Occurs, SweepOf, Do;
    var w1 := Do(w, Add(due, interval));
    assert a in mid + [a] && forall x :: x in mid ==> x in mid + [a];
    DoKeeps(w, Add(due, interval));
    AddIs(w, due, interval);
    AddHolds(w, due, interval);
    LegalSplit(w1, mid, a);
    HoldsUntilStarted(w1, mid, w.counter + 1, due, interval);
    var before := After(w1, mid);
    ProcessOnTimer(before, a, w.counter + 1, due, interval);
    LeftLive(Do(before, a), a.now, w.counter + 1 in SweepOf(before, a).trace, w.counter + 1, due, interval);
  }

  lemma SweepIssues(w: Wheel, now: nat, script: Script, steps: nat, k: nat, j: nat)
    requires |w.buckets| > 0 && Valid(w) && j < |script(k)| && script(k)[j].AddOp?
    requires NeverCancels(script, IdOf(w.counter, script, k, j))
    requires var s := Run(Begin(w, now), now, script, steps);
             Done(s) && k < |s.trace|
    ensures var s, id := Run(Begin(w, now), now, script, steps), IdOf(w.counter, script, k, j);
            LeftAs(Finish(s, now), now, id in s.trace, id, script(k)[j].due, script(k)[j].interval)
  {
    hide Holds, Lives, Begin, Run, NeverCancels, SweepOk, Valid, Finish, Reached, Tracks, IdOf;
    BeginTracks(w, now);
    RunIssued(w, now, script, steps, k, j);
    RunKeeps(Begin(w, now), now, script, steps);
    LivesAtEnd(Run(Begin(w, now), now, script, steps), now, IdOf(w.counter, script, k, j), script(k)[j].due,
               script(k)[j].interval);
  }

  /** The same for a timer that callback `k` of a Process adds by its operation
      `j`: if this very Process has started it, it is left so; otherwise it is
      filed as asked for. */
  lemma CallbackTimer(w: Wheel, a: Act, k: nat, j: nat)
    requires |w.buckets| > 0 && Valid(w) && NoneOverdue(w) && a.Process? && Legal(w, a) && k < |SweepOf(w, a).trace|
    requires j < |a.script(k)| && a.script(k)[j].AddOp? && !Cancels(a, IdOf(w.counter, a.script, k, j))
    ensures var id := IdOf(w.counter, a.script, k, j);
            LeftAs(Do(w, a), a.now, id in SweepOf(w, a).trace, id, a.script(k)[j].due, a.script(k)[j].interval)
  {
    hide Begin, Run, Valid, Finish, LeftAs, Fair, IdOf, NeverCancels;
    SparedByAct(a, IdOf(w.counter, a.script, k, j));
    SweepIssues(w, a.now, a.script, a.steps, k, j);
  }

  /** A Cancel of an issued id: nothing that follows starts it. */
  lemma CancelEndsIt(w: Wheel, id: nat, acts: seq<Act>)
    requires |w.buckets| > 0 && id <= w.counter
    ensures var r := After(Do(w, Cancel(id)), acts);
            id !in r.table && Occurs(r.started, id) == Occurs(w.started, id)
    ensures forall x :: x in w.table && x != id ==> x in Do(w, Cancel(id)).table && Do(w, Cancel(id)).table[x] == w.table[x]
  {
    CancelledNeverStarts(Do(w, Cancel(id)), acts, id);
  }

  // ------------------------------------------------ by the instants of acts

  ghost predicate NoProcess(acts: seq<Act>) { forall a :: a in acts ==> !a.Process? }

  lemma {:induction false} NoProcessKeeps(w: Wheel, acts: seq<Act>)
    requires |w.buckets| > 0 && NoProcess(acts)
    ensures var r := After(w, acts);
            r.last == w.last && r.tick == w.tick && |r.buckets| == |w.buckets|
    decreases |acts|
  {
    if acts != [] {
      assert acts == [acts[0]] + acts[1..];
      NoProcessKeeps(Do(w, acts[0]), acts[1..]);
    }
  }

  /** What a sweep at `now` does to a timer, given that the wheel was made or
      last swept at `since`: within one revolution it starts exactly what is due
      to the tick, less what a callback cancels, and nothing a full tick early;
      and ahead of its tick it starts a timer only across a revolution. */
  ghost predicate ByInstants(w: Wheel, since: nat, now: nat, script: Script, s: Sweep, id: nat)
    requires |w.buckets| > 0 && id in w.due
  {
    var n, tick, due := |w.buckets|, w.tick, w.due[id];
    && (since / tick / n == now / tick / n ==>
          && (id in s.trace ==> due / tick <= now / tick && due < now + tick)
          && (due / tick <= now / tick ==> id in s.trace || Cancelled(script, |s.trace|, id)))
    && (id in s.trace && due / tick > now / tick ==>
          && since / tick / n < now / tick / n == due / tick / n
          && due / tick - now / tick <= n - 1 - now / tick % n)
  }

  lemma SameRevolution(w: Wheel, a: Act, id: nat)
    requires |w.buckets| > 0 && Valid(w) && NoneOverdue(w) && a.Process? && Legal(w, a) && id in w.table && id in w.due
    requires w.Rounds(w.last) == w.Rounds(a.now)
    ensures var s, due := SweepOf(w, a), w.due[id];
            && (id in s.trace ==> due / w.tick <= a.now / w.tick && due < a.now + w.tick)
            && (due / w.tick <= a.now / w.tick ==> id in s.trace || Cancelled(a.script, |s.trace|, id))
  {
    hide Valid, NoneOverdue, Run, Begin, Fair, Cancelled;
    assert SweptFrom(w, a.now, a.script, SweepOf(w, a));
    AgreesWithDeadlines(w, a.now, a.script, SweepOf(w, a), id);
  }

  lemma AheadOfTick(w: Wheel, a: Act, id: nat)
    requires |w.buckets| > 0 && Valid(w) && a.Process? && Legal(w, a) && id in w.due && id in SweepOf(w, a).trace && id <= w.counter
    requires w.Ticks(w.due[id]) > w.Ticks(a.now)
    ensures w.Rounds(w.last) < w.Rounds(a.now) == w.Rounds(w.due[id])
    ensures w.Ticks(w.due[id]) - w.Ticks(a.now) <= |w.buckets| - 1 - w.Ticks(a.now) % |w.buckets|
  {
    hide Valid, Run, Begin, Fair;
    assert SweptFrom(w, a.now, a.script, SweepOf(w, a));
    EarlyOnlyAcrossRevolutions(w, a.now, a.script, SweepOf(w, a), id);
  }

  lemma SweepByInstants(w: Wheel, a: Act, id: nat)
    requires Valid(w) && NoneOverdue(w) && a.Process? && Legal(w, a) && id in w.table
    ensures id in w.due && ByInstants(w, w.last, a.now, a.script, SweepOf(w, a), id)
  {
    hide At, NoneOverdue, Legal, SweepOf, Cancelled;
    assert id in w.due && id <= w.counter;
    var s := SweepOf(w, a);
    if w.Rounds(w.last) == w.Rounds(a.now) {
      SameRevolution(w, a, id);
    }
    if id in s.trace && w.Ticks(w.due[id]) > w.Ticks(a.now) {
      AheadOfTick(w, a, id);
    }
  }

  /** From one Process to the next, with Adds and Cancels in between. */
  lemma NextSweep(w: Wheel, first: Act, mid: seq<Act>, second: Act, id: nat)
    requires Valid(w) && NoneOverdue(w) && first.Process? && NoProcess(mid) && second.Process?
    requires Legal(w, first) && LegalFrom(Do(w, first), first.now, mid + [second])
    requires id in After(Do(w, first), mid).table
    ensures var w2 := After(Do(w, first), mid);
            id in w2.due && ByInstants(w2, first.now, second.now, second.script, SweepOf(w2, second), id)
  {
    hide Legal, LegalFrom, ByInstants;
    DoRemembers(w, first);
    DoKeeps(w, first);
    assert LegalRun(Do(w, first), mid + [second]);
    LegalSplit(Do(w, first), mid, second);
    RunsStayValid(Do(w, first), mid);
    NoProcessKeeps(Do(w, first), mid);
    SweepByInstants(After(Do(w, first), mid), second, id);
  }

  /** The first Process of a new wheel. */
  lemma FirstSweep(tick: Pos, n: Pos, made: nat, mid: seq<Act>, a: Act, id: nat)
    requires NoProcess(mid) && a.Process? && LegalFrom(Create(tick, n, made), made, mid + [a])
    requires id in After(Create(tick, n, made), mid).table
    ensures var w := After(Create(tick, n, made), mid);
            id in w.due && ByInstants(w, made, a.now, a.script, SweepOf(w, a), id)
  {
    var w0 := Create(tick, n, made);
    assert w0.last == made;
    hide Legal, LegalFrom, ByInstants, Create;
    assert LegalRun(w0, mid + [a]);
    LegalSplit(w0, mid, a);
    RunsStayValid(w0, mid);
    NoProcessKeeps(w0, mid);
    SweepByInstants(After(w0, mid), a, id);
  }

  lemma NextTickStart(now: nat, tick: Pos)
    ensures now < TickOf(now + tick, tick) * tick <= now + tick && TickOf(now + tick, tick) * tick % tick == 0
  {
    AskedIsTickStart(now + tick, tick, 0);
    SlotOf(0, TickOf(now + tick, tick), tick);
  }

  /** Process ends by asking for an instant after its own, and not later than a
      tick after it, at the start of a tick. */
  lemma ProcessAsks(w: Wheel, a: Act)
    requires |w.buckets| > 0 && a.Process?
    ensures var asked := Do(w, a).asked;
            && asked != [] && a.now < asked[|asked| - 1] <= a.now + w.tick
            && asked[|asked| - 1] % w.tick == 0
  {
    hide Run, TickOf;
    NextTickStart(a.now, w.tick);
  }
}
