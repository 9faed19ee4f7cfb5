/** One sweep of the wheel as a step-by-step run.

    Callbacks are arbitrary: `script(k)` lists what the k-th callback of the
    sweep adds and cancels.  A sweep may go on forever, so statements are made
    about every prefix of a run (`Run`, any number of steps) and about runs
    that have finished (`Done`).
 */
module WheelSweep {
  import opened Division
  import opened WheelSpec

  type Script = nat -> seq<Op>

  /** `visit` are the buckets still to sweep, the current one first; `batch`
      the popped ids not looked at yet; `trace` the callbacks started. */
  datatype Sweep = Sweep(w: Wheel, visit: seq<nat>, batch: seq<nat>, trace: seq<nat>)

  predicate Done(s: Sweep) { s.visit == [] && s.batch == [] }

  predicate Shaped(s: Sweep) {
    |s.w.buckets| > 0 && forall i :: 0 <= i < |s.visit| ==> s.visit[i] < |s.w.buckets|
  }

  /** Before its callback runs, a one-shot timer is dropped and a repeating one
      goes back on the wheel. */
  function Settle(w: Wheel, id: nat, now: nat): (r: Wheel)
    requires |w.buckets| > 0 && id in w.table
    ensures |r.buckets| == |w.buckets| && r.tick == w.tick && r.counter == w.counter
  {
    if w.table[id].interval <= 0 then CancelTimer(w, id) else Refile(w, id, now + w.table[id].interval)
  }

  /** The loop body for the first id of the batch. */
  function Visit(s: Sweep, now: nat, script: Script): Sweep
    requires Shaped(s) && s.batch != []
  {
    var id := s.batch[0];
    if id !in s.w.table then
      s.(batch := s.batch[1..])
    else
      var w := Settle(s.w, id, now);
      s.(w := ApplyAll(w, script(|s.trace|)), batch := s.batch[1..], trace := s.trace + [id])
  }

  function Without(due: map<nat, nat>, ids: seq<nat>): map<nat, nat> {
    map id | id in due && id !in ids :: due[id]
  }

  function TakeOut(w: Wheel, i: nat, ids: seq<nat>, rest: Bucket): Wheel
    requires i < |w.buckets|
  {
    w.(buckets := w.buckets[i := rest], due := Without(w.due, ids))
  }

  function Step(s: Sweep, now: nat, script: Script): (r: Sweep)
    requires Shaped(s)
    ensures Shaped(r) && r.w.tick == s.w.tick && |r.w.buckets| == |s.w.buckets|
    ensures r.w.last == s.w.last && r.w.started == s.w.started
  {
    if s.batch != [] then
      Visit(s, now, script)
    else if s.visit == [] then
      s
    else
      match Pop(s.w.buckets[s.visit[0]], s.w.Rounds(now))
      case Nothing => s.(visit := s.visit[1..])
      case Batch(ids, rest) => s.(w := TakeOut(s.w, s.visit[0], ids, rest), batch := ids)
  }

  function Run(s: Sweep, now: nat, script: Script, k: nat): (r: Sweep)
    requires Shaped(s)
    ensures Shaped(r) && r.w.tick == s.w.tick && |r.w.buckets| == |s.w.buckets|
    ensures r.w.last == s.w.last && r.w.started == s.w.started
  {
    if k == 0 then s else Step(Run(s, now, script, k - 1), now, script)
  }

  ghost predicate Finishes(s: Sweep, now: nat, script: Script)
    requires Shaped(s)
  {
    exists k: nat :: Done(Run(s, now, script, k))
  }

  lemma {:induction false} DoneIsFinal(s: Sweep, now: nat, script: Script, k: nat, m: nat)
    requires Shaped(s) && k <= m && Done(Run(s, now, script, k))
    ensures Run(s, now, script, m) == Run(s, now, script, k)
    decreases m
  {
    if k < m {
      DoneIsFinal(s, now, script, k, m - 1);
    }
  }

  lemma {:induction false} RunAdds(s: Sweep, now: nat, script: Script, k: nat, m: nat)
    requires Shaped(s)
    ensures Run(Run(s, now, script, k), now, script, m) == Run(s, now, script, k + m)
  {
    hide Step;
    if m > 0 {
      RunAdds(s, now, script, k, m - 1);
    }
  }

  lemma NotDoneBefore(s: Sweep, now: nat, script: Script, k: nat)
    requires Shaped(s) && !Done(Run(s, now, script, k))
    ensures forall j: nat :: j <= k ==> !Done(Run(s, now, script, j))
  {
    forall j: nat | j <= k
      ensures !Done(Run(s, now, script, j))
    {
      if Done(Run(s, now, script, j)) {
        DoneIsFinal(s, now, script, j, k);
      }
    }
  }

  // ------------------------------------------------------- the three shapes

  function Range(lo: nat, hi: nat): (r: seq<nat>)
    ensures |r| == if lo <= hi then hi - lo else 0
    ensures forall i :: 0 <= i < |r| ==> r[i] == lo + i
    ensures forall x :: x in r <==> lo <= x < hi
    decreases hi - lo
  {
    if lo >= hi then [] else [lo] + Range(lo + 1, hi)
  }

  /** The order in which Process visits the buckets.  The distance is computed
      on unsigned numbers, so a clock that went back reads as a huge one. */
  function Plan(w: Wheel, now: nat): (r: seq<nat>)
    requires |w.buckets| > 0
    ensures forall i :: 0 <= i < |r| ==> r[i] < |w.buckets|
  {
    var n := |w.buckets|;
    var t1, t2 := w.Ticks(w.last), w.Ticks(now);
    if t1 <= t2 < t1 + n then
      var b1, b2 := t1 % n, t2 % n;
      if b1 <= b2 then Range(b1, b2 + 1) else Range(b1, n) + Range(0, b2 + 1)
    else
      Range(0, n)
  }

  function Begin(w: Wheel, now: nat): Sweep
    requires |w.buckets| > 0
  {
    Sweep(w, Plan(w, now), [], [])
  }

  /** Process, once its sweep has reached `s`. */
  function Finish(s: Sweep, now: nat): Wheel
    requires Shaped(s)
  {
    WakeUp(s.w.(last := now, started := s.w.started + s.trace), now + s.w.tick)
  }

  /** The ticks a sweep over `visit` pops: bucket swept and round reached. */
  predicate Zone(n: Pos, rounds: nat, visit: seq<nat>, t: nat) {
    t % n in visit && t / n <= rounds
  }

  predicate InZone(w: Wheel, now: nat, t: nat)
    requires |w.buckets| > 0
  {
    Zone(|w.buckets|, w.Rounds(now), Plan(w, now), t)
  }

  lemma Order(t: nat, u: nat, n: Pos)
    requires t <= u
    ensures t / n <= u / n
    ensures t / n == u / n ==> t % n <= u % n && u - t == u % n - t % n
  {
    DivMod(t, n);
    DivMod(u, n);
    var d := t / n - u / n;
    assert n * (t / n) == n * (u / n + d);
    assert n * (u / n + d) == n * (u / n) + n * d;
    Scale(n, d);
  }

  /** Less than one revolution apart: same round, or the next one with a
      smaller bucket. */
  lemma NextRound(t: nat, u: nat, n: Pos)
    requires t <= u < t + n
    ensures (u / n == t / n && t % n <= u % n) || (u / n == t / n + 1 && u % n < t % n)
  {
    DivMod(t, n);
    DivMod(u, n);
    var d := u / n - t / n;
    assert n * (u / n) == n * (t / n + d);
    assert n * (t / n + d) == n * (t / n) + n * d;
    Scale(n, d);
    Scale(n, d - 1);
    assert n * d == n * (d - 1) + n;
  }

  /** Every tick between the last sweep and now is in the zone. */
  lemma ZoneCoversDue(w: Wheel, now: nat, t: nat)
    requires |w.buckets| > 0
    requires w.Ticks(w.last) <= t <= w.Ticks(now)
    ensures InZone(w, now, t)
  {
    var n := |w.buckets|;
    var t1, t2 := w.Ticks(w.last), w.Ticks(now);
    Order(t1, t, n);
    Order(t, t2, n);
    Order(t1, t2, n);
    if t2 < t1 + n {
      NextRound(t1, t2, n);
      if t / n == t1 / n && t / n == t2 / n {
      } else if t / n == t1 / n {
      } else {
        assert t / n == t2 / n;
      }
    }
  }

  lemma FarRound(t: nat, u: nat, n: Pos)
    requires u >= t + n
    ensures u / n > t / n
  {
    DivMod(t, n);
    DivMod(u, n);
    var d := u / n - t / n;
    assert n * (u / n) == n * (t / n + d);
    assert n * (t / n + d) == n * (t / n) + n * d;
    Scale(n, d);
  }

  /** Which ticks that lie ahead of the clock are popped all the same: those of
      the current revolution, in a later bucket that the sweep visits, and only
      when the sweep has crossed into a new revolution.  Nothing further ahead
      than the end of the revolution is ever popped. */
  lemma ZoneAhead(w: Wheel, now: nat, t: nat)
    requires |w.buckets| > 0 && w.last <= now && t > w.Ticks(now)
    ensures InZone(w, now, t) <==>
            && w.Rounds(w.last) != w.Rounds(now)
            && t / |w.buckets| == w.Rounds(now)
            && (w.Ticks(now) < w.Ticks(w.last) + |w.buckets| ==> w.Ticks(w.last) % |w.buckets| <= t % |w.buckets|)
    ensures InZone(w, now, t) ==>
            t - w.Ticks(now) <= |w.buckets| - 1 - w.Ticks(now) % |w.buckets|
  {
    var n := |w.buckets|;
    var t1, t2 := w.Ticks(w.last), w.Ticks(now);
    Order(w.last, now, w.tick);
    Order(t1, t2, n);
    Order(t2, t, n);
    if t2 < t1 + n {
      NextRound(t1, t2, n);
    } else {
      FarRound(t1, t2, n);
    }
  }

  /** Within one revolution the zone is the set of due ticks. */
  lemma ZoneIsDue(w: Wheel, now: nat, t: nat)
    requires |w.buckets| > 0 && w.last <= now && w.Rounds(w.last) == w.Rounds(now)
    requires w.Ticks(w.last) <= t
    ensures InZone(w, now, t) <==> t <= w.Ticks(now)
  {
    if t <= w.Ticks(now) {
      ZoneCoversDue(w, now, t);
    } else {
      ZoneAhead(w, now, t);
    }
  }

  // --------------------------------------------------- what every step keeps

  ghost predicate SweepOk(s: Sweep) {
    && Shaped(s)
    && Consistent(s.w, s.batch)
    && (s.visit == [] ==> s.batch == [])
  }

  lemma PopFiled(bs: seq<Bucket>, tick: Pos, due: map<nat, nat>, i: nat, rounds: nat)
    requires Filed(bs, tick, due) && i < |bs| && Pop(bs[i], rounds).Batch?
    ensures var p := Pop(bs[i], rounds);
            && Filed(bs[i := p.rest], tick, Without(due, p.ids)) && p.ids != [] && NoDup(p.ids)
            && forall id :: id in p.ids <==> id in due && TickOf(due[id], tick) == PopTick(bs, i, rounds)
  {
    var p := Pop(bs[i], rounds);
    var bs', due' := bs[i := p.rest], Without(due, p.ids);
    var t := PopTick(bs, i, rounds);
    PopAt(bs, i, rounds);
    assert At(bs, t) == p.ids && NoDup(p.ids);
    forall u: nat, id: nat
      ensures id in At(bs', u) <==> id in due' && TickOf(due'[id], tick) == u
    {
      assert id in At(bs, u) <==> id in due && TickOf(due[id], tick) == u;
      assert id in At(bs, t) <==> id in due && TickOf(due[id], tick) == t;
    }
    forall u: nat
      ensures NoDup(At(bs', u))
    {
      assert NoDup(At(bs, u));
    }
  }

  lemma PopKeeps(w: Wheel, i: nat, rounds: nat)
    requires Consistent(w, []) && i < |w.buckets| && Pop(w.buckets[i], rounds).Batch?
    ensures var p := Pop(w.buckets[i], rounds);
            Consistent(TakeOut(w, i, p.ids, p.rest), p.ids) && p.ids != []
  {
    PopFiled(w.buckets, w.tick, w.due, i, rounds);
  }

  lemma SplitBatch(w: Wheel, id: nat, rest: seq<nat>)
    requires Consistent(w, [id] + rest)
    ensures NoDup(rest) && id !in rest && 1 <= id <= w.counter && id !in w.due
    ensures forall x :: x in rest ==> 1 <= x <= w.counter && x !in w.due
    ensures forall x :: x in w.table ==> x in w.due || x == id || x in rest
  {
    var batch := [id] + rest;
    assert batch[0] == id && batch[1..] == rest;
    assert forall x :: x in batch <==> x == id || x in rest;
    forall i, j | 0 <= i < j < |rest|
      ensures rest[i] != rest[j] && rest[i] != id && rest[j] != id
    {
      assert rest[i] == batch[i + 1] && rest[j] == batch[j + 1];
    }
  }

  lemma SettleKeeps(w: Wheel, id: nat, rest: seq<nat>, now: nat)
    requires Consistent(w, [id] + rest) && id in w.table
    ensures Consistent(Settle(w, id, now), rest)
  {
    hide Filed, TickOf, At, File;
    SplitBatch(w, id, rest);
    if w.table[id].interval > 0 {
      FileKeeps(w.buckets, w.tick, w.due, id, now + w.table[id].interval);
    }
  }

  lemma SkipKeeps(w: Wheel, id: nat, rest: seq<nat>)
    requires Consistent(w, [id] + rest) && id !in w.table
    ensures Consistent(w, rest)
  {
    SplitBatch(w, id, rest);
  }

  lemma VisitKeeps(s: Sweep, now: nat, script: Script)
    requires SweepOk(s) && s.batch != []
    ensures SweepOk(Visit(s, now, script))
  {
    var id := s.batch[0];
    var rest := s.batch[1..];
    assert s.batch == [id] + rest;
    if id in s.w.table {
      SettleKeeps(s.w, id, rest, now);
      ApplyAllKeeps(Settle(s.w, id, now), rest, script(|s.trace|));
    } else {
      SkipKeeps(s.w, id, rest);
    }
  }

  lemma StepKeeps(s: Sweep, now: nat, script: Script)
    requires SweepOk(s)
    ensures SweepOk(Step(s, now, script))
  {
    if s.batch != [] {
      VisitKeeps(s, now, script);
    } else if s.visit != [] && Pop(s.w.buckets[s.visit[0]], s.w.Rounds(now)).Batch? {
      PopKeeps(s.w, s.visit[0], s.w.Rounds(now));
    }
  }

  lemma {:induction false} RunKeeps(s: Sweep, now: nat, script: Script, k: nat)
    requires SweepOk(s)
    ensures SweepOk(Run(s, now, script, k))
  {
    if k > 0 {
      RunKeeps(s, now, script, k - 1);
      StepKeeps(Run(s, now, script, k - 1), now, script);
    }
  }

  // ------------------------------------------- what a sweep does to each id

  /** The clock does not go back: what callbacks add is due now or later. */
  ghost predicate Fair(script: Script, now: nat) {
    forall k: nat, j: nat :: j < |script(k)| && script(k)[j].AddOp? ==> now <= script(k)[j].due
  }

  ghost predicate FairOps(ops: seq<Op>, now: nat) {
    forall j :: 0 <= j < |ops| && ops[j].AddOp? ==> now <= ops[j].due
  }

  /** Callbacks add fresh ids, and drop or leave alone the others. */
  lemma {:induction false} ApplyAllEffect(w: Wheel, ops: seq<Op>, now: nat)
    requires |w.buckets| > 0 && FairOps(ops, now)
    requires forall id :: id in w.due ==> id <= w.counter
    ensures var r := ApplyAll(w, ops);
            && r.counter >= w.counter
            && (forall id :: id in w.due ==> id in r.due && r.due[id] == w.due[id])
            && (forall id :: id in r.due && id !in w.due ==> w.counter < id <= r.counter && now <= r.due[id])
            && (forall id :: id in r.table && id <= w.counter ==> id in w.table && r.table[id] == w.table[id])
    decreases |ops|
  {
    if ops != [] {
      assert FairOps(ops[1..], now);
      ApplyAllEffect(Apply(w, ops[0]), ops[1..], now);
    }
  }

  /** The filed ids the sweep from `w` reaches, each with its bucket. */
  function Reached(w: Wheel, now: nat): map<nat, nat>
    requires |w.buckets| > 0
  {
    map id | id in w.due && InZone(w, now, w.Ticks(w.due[id])) :: w.Ticks(w.due[id]) % |w.buckets|
  }

  /** How a sweep that began on `w0` has treated the ids so far.  An id that
      was on the wheel is untouched until its bucket is swept with its round
      reached; an id the sweep does not reach is never touched. */
  ghost predicate Tracks(w0: Wheel, reached: map<nat, nat>, s: Sweep, now: nat) {
    && |s.w.buckets| == |w0.buckets| && s.w.tick == w0.tick
    && s.w.counter >= w0.counter
    && (forall id :: id in w0.due ==> id <= w0.counter)
    && (forall id :: id in s.w.table && id <= w0.counter ==> id in w0.table && s.w.table[id].interval == w0.table[id].interval)
    && (forall id :: id in s.trace ==> id <= s.w.counter && (id <= w0.counter ==> id in w0.table))
    && (forall id :: id in s.trace && id <= w0.counter && w0.table[id].interval <= 0 ==> id !in s.w.table)
    && (forall id :: id in s.trace && id <= w0.counter && id in s.w.due
                     ==> w0.table[id].interval > 0 && s.w.due[id] == now + w0.table[id].interval)
    && (forall id :: (id in s.batch || id in s.trace || id in s.w.due) && id <= w0.counter ==> id in w0.due)
    && (forall id :: id in s.w.due && (id > w0.counter || id in s.trace) ==> now <= s.w.due[id])
    && (forall id :: id in s.w.due && id <= w0.counter && id !in s.trace ==> s.w.due[id] == w0.due[id])
    && (forall id :: id in s.w.due && id <= w0.counter && id !in s.trace && id in reached ==> reached[id] in s.visit)
    && (forall id :: id in w0.due && id !in reached ==> id in s.w.due && id !in s.trace && id !in s.batch)
  }

  lemma TracksPop(w0: Wheel, reached: map<nat, nat>, s: Sweep, now: nat, ids: seq<nat>, rest: Bucket)
    requires Tracks(w0, reached, s, now) && s.batch == [] && s.visit != [] && s.visit[0] < |s.w.buckets|
    requires forall id :: id in ids ==> id in s.w.due && (id <= w0.counter && id !in s.trace ==> id in reached)
    ensures Tracks(w0, reached, s.(w := TakeOut(s.w, s.visit[0], ids, rest), batch := ids), now)
  {
  }

  lemma TracksAdvance(w0: Wheel, reached: map<nat, nat>, s: Sweep, now: nat)
    requires Tracks(w0, reached, s, now) && s.batch == [] && s.visit != []
    requires forall id :: id in s.w.due && id in reached && id <= w0.counter && id !in s.trace ==> reached[id] != s.visit[0]
    ensures Tracks(w0, reached, s.(visit := s.visit[1..]), now)
  {
    assert s.visit == s.visit[..1] + s.visit[1..];
  }

  lemma TracksPopStep(w0: Wheel, s: Sweep, now: nat, script: Script)
    requires |w0.buckets| > 0 && (forall i :: i in s.visit ==> i in Plan(w0, now))
    requires Tracks(w0, Reached(w0, now), s, now) && SweepOk(s) && s.batch == [] && s.visit != []
    ensures Tracks(w0, Reached(w0, now), Step(s, now, script), now)
  {
    var i := s.visit[0];
    var rounds := s.w.Rounds(now);
    var p := Pop(s.w.buckets[i], rounds);
    if p.Batch? {
      PopAt(s.w.buckets, i, rounds);
      PopFiled(s.w.buckets, s.w.tick, s.w.due, i, rounds);
      assert i in Plan(w0, now);
      TracksPop(w0, Reached(w0, now), s, now, p.ids, p.rest);
    } else {
      PopNothingAt(s.w.buckets, i, rounds);
      forall id | id in s.w.due && id in Reached(w0, now) && id <= w0.counter && id !in s.trace
        ensures Reached(w0, now)[id] != i
      {
        assert id in At(s.w.buckets, TickOf(s.w.due[id], s.w.tick));
      }
      TracksAdvance(w0, Reached(w0, now), s, now);
    }
  }

  lemma TracksSettle(w0: Wheel, reached: map<nat, nat>, s: Sweep, now: nat, id: nat, rest: seq<nat>)
    requires Tracks(w0, reached, s, now) && Consistent(s.w, s.batch) && s.batch == [id] + rest && id in s.w.table
    ensures Tracks(w0, reached, s.(w := Settle(s.w, id, now), batch := rest, trace := s.trace + [id]), now)
  {
    hide Filed, TickOf, At, File, Wheel.Rounds;
    SplitBatch(s.w, id, rest);
  }

  lemma TracksSkip(w0: Wheel, reached: map<nat, nat>, s: Sweep, now: nat, id: nat, rest: seq<nat>)
    requires Tracks(w0, reached, s, now) && s.batch == [id] + rest
    ensures Tracks(w0, reached, s.(batch := rest), now)
  {
  }

  lemma TracksApply(w0: Wheel, reached: map<nat, nat>, s: Sweep, now: nat, ops: seq<Op>)
    requires Tracks(w0, reached, s, now) && Consistent(s.w, s.batch) && FairOps(ops, now)
    ensures Tracks(w0, reached, s.(w := ApplyAll(s.w, ops)), now)
  {
    hide TickOf, At, File, Wheel.Rounds, ApplyAll;
    ApplyAllEffect(s.w, ops, now);
  }

  lemma TracksVisit(w0: Wheel, reached: map<nat, nat>, s: Sweep, now: nat, script: Script)
    requires Tracks(w0, reached, s, now) && SweepOk(s) && s.batch != [] && Fair(script, now)
    ensures Tracks(w0, reached, Visit(s, now, script), now)
  {
    var id := s.batch[0];
    var rest := s.batch[1..];
    assert s.batch == [id] + rest;
    if id in s.w.table {
      var s1 := s.(w := Settle(s.w, id, now), batch := rest, trace := s.trace + [id]);
      TracksSettle(w0, reached, s, now, id, rest);
      SettleKeeps(s.w, id, rest, now);
      assert FairOps(script(|s.trace|), now);
      TracksApply(w0, reached, s1, now, script(|s.trace|));
    } else {
      TracksSkip(w0, reached, s, now, id, rest);
    }
  }

  lemma BeginTracks(w0: Wheel, now: nat)
    requires Valid(w0)
    ensures Tracks(w0, Reached(w0, now), Begin(w0, now), now) && SweepOk(Begin(w0, now))
  {
  }

  ghost predicate OnTrack(w0: Wheel, s: Sweep, now: nat) {
    && SweepOk(s) && |w0.buckets| > 0
    && Tracks(w0, Reached(w0, now), s, now)
    && forall i :: i in s.visit ==> i in Plan(w0, now)
  }

  lemma StepTracks(w0: Wheel, s: Sweep, now: nat, script: Script)
    requires OnTrack(w0, s, now) && Fair(script, now)
    ensures OnTrack(w0, Step(s, now, script), now)
  {
    StepKeeps(s, now, script);
    if s.batch != [] {
      TracksVisit(w0, Reached(w0, now), s, now, script);
    } else if s.visit != [] {
      TracksPopStep(w0, s, now, script);
    }
  }

  lemma {:induction false} RunTracks(w0: Wheel, now: nat, script: Script, k: nat)
    requires Valid(w0) && Fair(script, now)
    ensures OnTrack(w0, Run(Begin(w0, now), now, script, k), now)
  {
    if k == 0 {
      BeginTracks(w0, now);
    } else {
      RunTracks(w0, now, script, k - 1);
      StepTracks(w0, Run(Begin(w0, now), now, script, k - 1), now, script);
    }
  }

  // ---------------------------------------------------------- cancellations

  /** One of the first `n` callbacks cancels the timer. */
  ghost predicate Cancelled(script: Script, n: nat, id: nat) {
    exists k: nat :: k < n && CancelOp(id) in script(k)
  }

  lemma {:induction false} ApplyAllTable(w: Wheel, ops: seq<Op>, id: nat)
    requires |w.buckets| > 0 && id <= w.counter
    ensures var r := ApplyAll(w, ops);
            && (id in r.table <==> id in w.table && CancelOp(id) !in ops)
            && (id in r.table ==> r.table[id].interval == w.table[id].interval)
    decreases |ops|
  {
    if ops != [] {
      assert ops == [ops[0]] + ops[1..];
      ApplyAllTable(Apply(w, ops[0]), ops[1..], id);
    }
  }

  /** What may have become of a timer that was live when the sweep began: it
      leaves the table by being started, if it is a one-shot timer, or by being
      cancelled, and in no other way; and it is not started after it was
      cancelled. */
  ghost predicate Fate(script: Script, s: Sweep, id: nat, interval: int) {
    && id <= s.w.counter
    && (id in s.w.table || (id in s.trace && interval <= 0) || Cancelled(script, |s.trace|, id))
    && (id in s.w.table ==> s.w.table[id].interval == interval)
    && (Cancelled(script, |s.trace|, id) ==> id !in s.w.table)
    && (forall p :: 0 <= p < |s.trace| && s.trace[p] == id ==> !Cancelled(script, p, id))
  }

  lemma {:induction false} ApplyAllCounter(w: Wheel, ops: seq<Op>)
    requires |w.buckets| > 0
    ensures w.counter <= ApplyAll(w, ops).counter
    decreases |ops|
  {
    if ops != [] {
      ApplyAllCounter(Apply(w, ops[0]), ops[1..]);
    }
  }

  lemma VisitFate(s: Sweep, now: nat, script: Script, id: nat, interval: int)
    requires Shaped(s) && s.batch != [] && Fate(script, s, id, interval)
    ensures Fate(script, Visit(s, now, script), id, interval)
  {
    var x := s.batch[0];
    if x in s.w.table {
      var ops := script(|s.trace|);
      ApplyAllTable(Settle(s.w, x, now), ops, id);
      ApplyAllCounter(Settle(s.w, x, now), ops);
      assert Cancelled(script, |s.trace| + 1, id) <==> Cancelled(script, |s.trace|, id) || CancelOp(id) in ops;
      var r := Visit(s, now, script);
      assert r.trace == s.trace + [x] && r.trace[|s.trace|] == x;
    }
  }

  lemma {:induction false} RunFate(w: Wheel, now: nat, script: Script, k: nat, id: nat)
    requires |w.buckets| > 0 && id in w.table && id <= w.counter
    ensures Fate(script, Run(Begin(w, now), now, script, k), id, w.table[id].interval)
  {
    if k > 0 {
      RunFate(w, now, script, k - 1, id);
      var s := Run(Begin(w, now), now, script, k - 1);
      if s.batch != [] {
        VisitFate(s, now, script, id, w.table[id].interval);
      }
    }
  }

  // ---------------------------------------------------------- main theorems

  ghost predicate SweptFrom(w: Wheel, now: nat, script: Script, s: Sweep)
    requires |w.buckets| > 0
  {
    exists k: nat :: s == Run(Begin(w, now), now, script, k)
  }

  /** At every moment of a sweep, a callback it has started belongs to a timer
      that was live, and whose tick was in the zone when the sweep began. */
  lemma StartsOnlyReached(w: Wheel, now: nat, script: Script, s: Sweep, id: nat)
    requires Valid(w) && Fair(script, now) && SweptFrom(w, now, script, s)
    requires id in s.trace && id <= w.counter
    ensures id in w.table && id in w.due && InZone(w, now, w.Ticks(w.due[id]))
  {
    var k: nat :| s == Run(Begin(w, now), now, script, k);
    RunTracks(w, now, script, k);
    assert id in Reached(w, now);
  }

  lemma ExactAtEnd(w: Wheel, now: nat, script: Script, s: Sweep, id: nat)
    requires Valid(w) && OnTrack(w, s, now) && Done(s) && id in w.table && Fate(script, s, id, w.table[id].interval)
    ensures var reached := InZone(w, now, w.Ticks(w.due[id]));
            && (reached ==> id in s.trace || Cancelled(script, |s.trace|, id))
            && (!reached ==> id !in s.trace && id in s.w.due && s.w.due[id] == w.due[id])
            && (id in s.w.table <==> !Cancelled(script, |s.trace|, id) && (reached ==> w.table[id].interval > 0))
            && (id in s.trace && id in s.w.table ==> id in s.w.due && s.w.due[id] == now + w.table[id].interval)
  {
    hide Cancelled, Filed, Zone, TickOf, Plan;
    assert id in w.due;
    assert id in Reached(w, now) <==> InZone(w, now, w.Ticks(w.due[id]));
  }

  /** A finished sweep started exactly the timers it reaches, less those that
      an earlier callback of the same sweep cancelled.  A one-shot timer is then
      gone; a repeating one is due one interval from now, unless cancelled; the
      others are where they were. */
  lemma SweepIsExact(w: Wheel, now: nat, script: Script, s: Sweep, id: nat)
    requires Valid(w) && Fair(script, now) && SweptFrom(w, now, script, s) && Done(s)
    requires id in w.table
    ensures var reached := InZone(w, now, w.Ticks(w.due[id]));
            && (reached ==> id in s.trace || Cancelled(script, |s.trace|, id))
            && (!reached ==> id !in s.trace && id in s.w.due && s.w.due[id] == w.due[id])
            && (forall p :: 0 <= p < |s.trace| && s.trace[p] == id ==> !Cancelled(script, p, id))
            && (id in s.w.table <==> !Cancelled(script, |s.trace|, id) && (reached ==> w.table[id].interval > 0))
            && (id in s.trace && id in s.w.table ==> id in s.w.due && s.w.due[id] == now + w.table[id].interval)
  {
    var k: nat :| s == Run(Begin(w, now), now, script, k);
    RunTracks(w, now, script, k);
    RunFate(w, now, script, k, id);
    hide Run, Cancelled;
    ExactAtEnd(w, now, script, s, id);
  }

  /** No due timer is missed, whichever of the three shapes the sweep has:
      every one is started, unless a callback of the sweep cancels it. */
  lemma DueTimersFire(w: Wheel, now: nat, script: Script, s: Sweep, id: nat)
    requires Valid(w) && NoneOverdue(w) && Fair(script, now) && SweptFrom(w, now, script, s) && Done(s)
    requires id in w.table && w.due[id] <= now
    ensures id in s.trace || Cancelled(script, |s.trace|, id)
  {
    Order(w.due[id], now, w.tick);
    ZoneCoversDue(w, now, w.Ticks(w.due[id]));
    SweepIsExact(w, now, script, s, id);
  }

  /** A timer started before its tick has been reached means that the sweep
      crossed into a new revolution; it is then less than a revolution early. */
  lemma EarlyOnlyAcrossRevolutions(w: Wheel, now: nat, script: Script, s: Sweep, id: nat)
    requires Valid(w) && w.last <= now && Fair(script, now) && SweptFrom(w, now, script, s)
    requires id in s.trace && id <= w.counter && id in w.due && w.Ticks(w.due[id]) > w.Ticks(now)
    ensures w.Rounds(w.last) < w.Rounds(now) == w.Rounds(w.due[id])
    ensures w.Ticks(w.due[id]) - w.Ticks(now) <= |w.buckets| - 1 - w.Ticks(now) % |w.buckets|
  {
    StartsOnlyReached(w, now, script, s, id);
    ZoneAhead(w, now, w.Ticks(w.due[id]));
    Order(w.last, now, w.tick);
    Order(w.Ticks(w.last), w.Ticks(now), |w.buckets|);
  }

  /** Exactly which timers a finished sweep has started ahead of their tick:
      those of the current revolution in a later visited bucket, provided that
      the sweep has crossed into it. */
  lemma StartsEarlyIff(w: Wheel, now: nat, script: Script, s: Sweep, id: nat)
    requires Valid(w) && w.last <= now && Fair(script, now) && SweptFrom(w, now, script, s) && Done(s)
    requires id in w.table && w.Ticks(w.due[id]) > w.Ticks(now) && !Cancelled(script, |s.trace|, id)
    ensures id in s.trace <==>
            && w.Rounds(w.last) != w.Rounds(now)
            && w.Rounds(w.due[id]) == w.Rounds(now)
            && (w.Ticks(now) < w.Ticks(w.last) + |w.buckets|
                ==> w.Ticks(w.last) % |w.buckets| <= w.Ticks(w.due[id]) % |w.buckets|)
  {
    SweepIsExact(w, now, script, s, id);
    ZoneAhead(w, now, w.Ticks(w.due[id]));
  }

  lemma LateTick(t: nat, u: nat, n: Pos)
    requires t / n <= u / n
    ensures t < u + n
  {
    if t >= u + n {
      FarRound(u, t, n);
    }
  }

  /** Within one revolution the wheel agrees with a plain map from ids to
      deadlines: what is started was due to the tick, and what was due to the
      tick is started unless cancelled. */
  lemma AgreesWithDeadlines(w: Wheel, now: nat, script: Script, s: Sweep, id: nat)
    requires Valid(w) && NoneOverdue(w) && w.last <= now && w.Rounds(w.last) == w.Rounds(now)
    requires Fair(script, now) && SweptFrom(w, now, script, s) && Done(s)
    requires id in w.table
    ensures id in s.trace ==> w.Ticks(w.due[id]) <= w.Ticks(now) && w.due[id] < now + w.tick
    ensures w.Ticks(w.due[id]) <= w.Ticks(now) ==> id in s.trace || Cancelled(script, |s.trace|, id)
  {
    ZoneIsDue(w, now, w.Ticks(w.due[id]));
    SweepIsExact(w, now, script, s, id);
    if id in s.trace {
      DivMod(w.due[id], w.tick);
      DivMod(now, w.tick);
      Scale(w.tick, w.Ticks(now) - w.Ticks(w.due[id]) + 1);
      LateTick(w.due[id], now, w.tick);
    }
  }

  lemma NothingLeftBehind(w: Wheel, now: nat, s: Sweep, id: nat)
    requires Valid(w) && NoneOverdue(w) && OnTrack(w, s, now) && Done(s) && id in s.w.due
    ensures s.w.Ticks(now) <= s.w.Ticks(s.w.due[id])
  {
    if id > w.counter || id in s.trace {
      Order(now, s.w.due[id], w.tick);
    } else {
      assert id !in Reached(w, now);
      if w.Ticks(w.due[id]) <= w.Ticks(now) {
        ZoneCoversDue(w, now, w.Ticks(w.due[id]));
      }
    }
  }

  /** Process keeps the wheel well formed, and leaves nothing behind the tick
      its next sweep will start from. */
  lemma ProcessKeeps(w: Wheel, now: nat, script: Script, s: Sweep)
    requires Valid(w) && NoneOverdue(w) && Fair(script, now) && SweptFrom(w, now, script, s) && Done(s)
    ensures Valid(Finish(s, now)) && NoneOverdue(Finish(s, now))
  {
    var k: nat :| s == Run(Begin(w, now), now, script, k);
    RunTracks(w, now, script, k);
    forall id | id in s.w.due
      ensures s.w.Ticks(now) <= s.w.Ticks(s.w.due[id])
    {
      NothingLeftBehind(w, now, s, id);
    }
  }
}
