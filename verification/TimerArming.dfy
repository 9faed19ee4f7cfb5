/** The timerfd and its users, with every atomic access a step of its own.

    Any number of threads add timers while the event loop runs HandleEvents and
    Process.  The lock of the heap queue is left out, which only adds
    interleavings; so what is said of every run holds for the heap queue and for
    the wheel, which files its timers before WakeUp without holding a lock over
    it.  `Serial` are the runs that a lock around every WakeUpAfter admits, as
    the heap queue has it.
 */
module TimerArming {
  import opened TimerChannelSpec

  /** The timerfd: quiet, counting down, or expired and not read yet. */
  datatype Kernel = Off | Armed(until: int) | Expired

  /** Where a thread is in WakeUpAfter: not in it, before the load, between
      load and exchange, or before timerfd_settime.  Exchanges that succeed are
      numbered from 0. */
  datatype Arming = Quiet | Want(usec: Int64) | Loaded(want: Int64, us: Int64) | Setting(value: Int64, number: nat)

  /** Where the loop is: in the selector; told that the timer is readable;
      the lower sentinel stored; the timer read; in Process; in the WakeUpAt at
      the end of Process. */
  datatype Loop = Selecting | Told | Opened | Drained | Processing | Rearming

  /** A timerfd_settime: by the call of which exchange, and when. */
  datatype Settime = Settime(number: nat, at: int)

  /** History: the durations recorded by exchanges, in order; how many there
      were when HandleEvents last stored its lower sentinel; the calls of
      timerfd_settime. */
  datatype Log = Log(recorded: seq<Int64>, window: nat, sets: seq<Settime>)

  /** Thread 0 is the loop's own. */
  datatype State = State(
    clock: int,
    pending: multiset<nat>,
    last: Int64,
    fd: Kernel,
    arming: map<nat, Arming>,
    loop: Loop,
    log: Log)

  /** A clamped duration that is not within 100 of the largest integer. */
  predicate Sane(usec: Int64) { SLACK <= usec <= MAX64 - SLACK }

  ghost predicate Init(s: State) {
    && s.pending == multiset{} && s.last == MAX64 && s.fd == Off && s.loop == Selecting && 0 in s.arming
    && s.log == Log([], 0, [])
    && forall t :: t in s.arming ==> s.arming[t] == Quiet
  }

  ghost predicate Tick(s: State, r: State) {
    s.clock <= r.clock && r == s.(clock := r.clock)
  }

  // ---------------------------------------------------- Add and WakeUpAfter

  /** The timer is in the queue before the channel is asked; the loop's own
      thread adds timers from callbacks only. */
  ghost predicate Insert(s: State, r: State, t: nat, due: nat, usec: Int64) {
    && t in s.arming && s.arming[t] == Quiet && Sane(usec) && (t == 0 ==> s.loop == Processing)
    && r == s.(pending := s.pending + multiset{due}, arming := s.arming[t := Want(usec)])
  }

  ghost predicate Load(s: State, r: State, t: nat) {
    && t in s.arming && s.arming[t].Want?
    && r == s.(arming := s.arming[t := if Skips(s.arming[t].usec, s.last) then Quiet else Loaded(s.arming[t].usec, s.last)])
  }

  function Record(log: Log, usec: Int64): Log { log.(recorded := log.recorded + [usec]) }

  ghost predicate Exchange(s: State, r: State, t: nat) {
    && t in s.arming && s.arming[t].Loaded?
    && var want := s.arming[t].want;
       r == if s.last == s.arming[t].us
            then s.(last := want, log := Record(s.log, want), arming := s.arming[t := Setting(want, |s.log.recorded|)])
            else s.(arming := s.arming[t := Want(want)])
  }

  /** timerfd_settime with a positive value arms the timer, relative to the
      moment of the call, and forgets an expiration that has not been read. */
  ghost predicate SetTimer(s: State, r: State, t: nat) {
    && t in s.arming && s.arming[t].Setting?
    && r == s.(fd := Armed(s.clock + s.arming[t].value), arming := s.arming[t := Quiet],
               log := s.log.(sets := s.log.sets + [Settime(s.arming[t].number, s.clock)]))
  }

  // -------------------------------------------------------------- the loop

  /** At the deadline or later. */
  ghost predicate Expire(s: State, r: State) {
    s.fd.Armed? && s.clock <= r.clock && s.fd.until <= r.clock && r == s.(clock := r.clock, fd := Expired)
  }

  ghost predicate Tell(s: State, r: State) {
    s.loop == Selecting && s.fd == Expired && r == s.(loop := Told)
  }

  ghost predicate Open(s: State, r: State) {
    s.loop == Told && r == s.(last := MIN64, loop := Opened, log := s.log.(window := |s.log.recorded|))
  }

  /** The read fails, with a warning only, if another thread has armed the
      timer again meanwhile. */
  ghost predicate Drain(s: State, r: State) {
    s.loop == Opened && r == s.(fd := if s.fd == Expired then Off else s.fd, loop := Drained)
  }

  ghost predicate Close(s: State, r: State) {
    s.loop == Drained && r == s.(last := MAX64, loop := Processing)
  }

  /** The loop's thread is not inside a WakeUpAfter of its own. */
  predicate Free(s: State) { 0 in s.arming && s.arming[0] == Quiet }

  ghost predicate Pop(s: State, r: State, due: nat) {
    && s.loop == Processing && Free(s) && due in s.pending
    && r == s.(pending := s.pending - multiset{due})
  }

  /** A repeating timer goes back into the queue without asking the channel. */
  ghost predicate Requeue(s: State, r: State, due: nat) {
    s.loop == Processing && Free(s) && r == s.(pending := s.pending + multiset{due})
  }

  /** The end of Process: the wheel always asks for the next tick, the heap
      queue asks if it is not empty. */
  ghost predicate Rearm(s: State, r: State, usec: Int64) {
    && s.loop == Processing && Free(s) && Sane(usec)
    && r == s.(arming := s.arming[0 := Want(usec)], loop := Rearming)
  }

  ghost predicate Leave(s: State, r: State) {
    && Free(s)
    && (s.loop == Rearming || (s.loop == Processing && s.pending == multiset{}))
    && r == s.(loop := Selecting)
  }

  ghost predicate AddStep(s: State, r: State) {
    || (exists t, due, usec :: Insert(s, r, t, due, usec))
    || (exists t :: Load(s, r, t))
    || (exists t :: Exchange(s, r, t))
    || (exists t :: SetTimer(s, r, t))
  }

  ghost predicate LoopStep(s: State, r: State)
  {
    || Tell(s, r) || Open(s, r) || Drain(s, r) || Close(s, r)
    || (exists due :: Pop(s, r, due))
    || (exists due :: Requeue(s, r, due))
    || (exists usec :: Rearm(s, r, usec))
    || Leave(s, r)
  }

  ghost predicate Next(s: State, r: State)
  {
    AddStep(s, r) || LoopStep(s, r) || Expire(s, r) || Tick(s, r)
  }

  // -------------------------------------------------------------- invariant

  ghost predicate InFlight(arming: map<nat, Arming>) {
    exists t :: t in arming && arming[t] != Quiet
  }

  ghost predicate AboutToSet(arming: map<nat, Arming>) {
    exists t :: t in arming && arming[t].Setting?
  }

  /** Process will still look at the queue. */
  predicate WillLook(loop: Loop) { loop != Selecting && loop != Rearming }

  /** A timer that is pending is not forgotten. */
  ghost predicate NeverUnarmed(s: State) {
    s.pending != multiset{} ==> s.fd != Off || InFlight(s.arming) || WillLook(s.loop)
  }

  ghost predicate ArmingOk(arming: map<nat, Arming>) {
    && (forall t :: t in arming && arming[t].Want? ==> Sane(arming[t].usec))
    && (forall t :: t in arming && arming[t].Loaded? ==> Sane(arming[t].want) && arming[t].us != MIN64 && arming[t].want <= arming[t].us - SLACK)
  }

  ghost predicate Inv(s: State) {
    && 0 in s.arming
    && NeverUnarmed(s)
    && (s.last == MIN64 <==> s.loop == Opened || s.loop == Drained)
    && (s.last != MIN64 && s.last != MAX64 ==> Sane(s.last) && (s.fd != Off || AboutToSet(s.arming)))
    && (s.arming[0] != Quiet ==> s.loop == Processing || s.loop == Rearming)
    && ArmingOk(s.arming)
  }

  lemma InsertKeeps(s: State, r: State, t: nat, due: nat, usec: Int64)
    requires Inv(s) && Insert(s, r, t, due, usec)
    ensures Inv(r)
  {
    assert r.arming[t] != Quiet;
    if u :| u in s.arming && s.arming[u].Setting? {
      assert r.arming[u].Setting?;
    }
  }

  lemma LoadKeeps(s: State, r: State, t: nat)
    requires Inv(s) && Load(s, r, t)
    ensures Inv(r)
  {
    var usec := s.arming[t].usec;
    Sentinels(usec);
    SkipsIff(usec, s.last);
    if u :| u in s.arming && s.arming[u].Setting? {
      assert r.arming[u].Setting?;
    }
    if !Skips(usec, s.last) {
      assert r.arming[t] != Quiet;
    }
  }

  lemma ExchangeKeeps(s: State, r: State, t: nat)
    requires Inv(s) && Exchange(s, r, t)
    ensures Inv(r)
  {
    assert r.arming[t] != Quiet;
    if s.last == s.arming[t].us {
      assert r.arming[t].Setting?;
    } else if u :| u in s.arming && s.arming[u].Setting? {
      assert r.arming[u].Setting?;
    }
  }

  lemma SetTimerKeeps(s: State, r: State, t: nat)
    requires Inv(s) && SetTimer(s, r, t)
    ensures Inv(r)
  {
  }

  lemma RearmKeeps(s: State, r: State, usec: Int64)
    requires Inv(s) && Rearm(s, r, usec)
    ensures Inv(r)
  {
    assert r.arming[0] != Quiet;
    if t :| t in s.arming && s.arming[t].Setting? {
      assert r.arming[t].Setting?;
    }
  }

  lemma WindowKeeps(s: State, r: State)
    requires Inv(s) && (Tell(s, r) || Open(s, r) || Drain(s, r) || Close(s, r) || Expire(s, r) || Tick(s, r))
    ensures Inv(r)
  {
    hide InFlight, AboutToSet, ArmingOk;
  }

  lemma QueueKeeps(s: State, r: State)
    requires Inv(s) && ((exists due :: Pop(s, r, due)) || (exists due :: Requeue(s, r, due)) || Leave(s, r))
    ensures Inv(r)
  {
    hide InFlight, AboutToSet, ArmingOk;
  }

  lemma LoopKeeps(s: State, r: State)
    requires Inv(s) && (LoopStep(s, r) || Expire(s, r) || Tick(s, r))
    ensures Inv(r)
  {
    if usec :| Rearm(s, r, usec) {
      RearmKeeps(s, r, usec);
    } else if Tell(s, r) || Open(s, r) || Drain(s, r) || Close(s, r) || Expire(s, r) || Tick(s, r) {
      WindowKeeps(s, r);
    } else {
      QueueKeeps(s, r);
    }
  }

  lemma NextKeeps(s: State, r: State)
    requires Inv(s) && Next(s, r)
    ensures Inv(r)
  {
    if LoopStep(s, r) || Expire(s, r) || Tick(s, r) {
      LoopKeeps(s, r);
    } else if t, due, usec :| Insert(s, r, t, due, usec) {
      InsertKeeps(s, r, t, due, usec);
    } else if t :| Load(s, r, t) {
      LoadKeeps(s, r, t);
    } else if t :| Exchange(s, r, t) {
      ExchangeKeeps(s, r, t);
    } else {
      var t :| SetTimer(s, r, t);
      SetTimerKeeps(s, r, t);
    }
  }

  // ------------------------------------------------------------------- runs

  ghost predicate Run(tr: seq<State>)
    decreases |tr|
  {
    tr != [] && (|tr| == 1 || (Run(tr[..|tr| - 1]) && Next(tr[|tr| - 2], tr[|tr| - 1])))
  }

  lemma {:induction false} RunKeeps(tr: seq<State>)
    requires Run(tr) && Init(tr[0])
    ensures Inv(tr[|tr| - 1])
    decreases |tr|
  {
    if |tr| > 1 {
      RunKeeps(tr[..|tr| - 1]);
      NextKeeps(tr[|tr| - 2], tr[|tr| - 1]);
    }
  }

  /** At every moment of every run, a pending timer has the timerfd armed or
      expired, or an arming call under way, or a Process still to look. */
  lemma {:induction false} PendingIsNeverForgotten(tr: seq<State>)
    requires Run(tr) && Init(tr[0])
    ensures NeverUnarmed(tr[|tr| - 1])
  {
    RunKeeps(tr);
  }

  /** When every Add has returned and the loop is back in the selector, a
      pending timer means that the timerfd will wake the loop, or already has
      something to read. */
  lemma {:induction false} RestingMeansArmed(tr: seq<State>)
    requires Run(tr) && Init(tr[0])
    requires var s := tr[|tr| - 1];
             s.pending != multiset{} && s.loop == Selecting && forall t :: t in s.arming ==> s.arming[t] == Quiet
    ensures tr[|tr| - 1].fd != Off
    ensures exists r :: Next(tr[|tr| - 1], r) && (r.fd == Expired || r.loop == Told)
  {
    RunKeeps(tr);
    var s := tr[|tr| - 1];
    var r := if s.fd.Armed? then s.(clock := if s.clock < s.fd.until then s.fd.until else s.clock, fd := Expired) else s.(loop := Told);
    assert Next(s, r) by {
      assert Expire(s, r) || Tell(s, r);
      if Tell(s, r) {
        assert LoopStep(s, r);
      }
    }
  }

  // ------------------------------------------- what the timerfd is set for

  /** When the timerfd is due, by the last timerfd_settime. */
  function Deadline(log: Log): int
    requires log.sets != [] && log.sets[|log.sets| - 1].number < |log.recorded|
  {
    var final := log.sets[|log.sets| - 1];
    final.at + log.recorded[final.number]
  }

  /** Since the last window each exchange has recorded less than those before,
      by the slack or more; and what is recorded is what `last` holds. */
  ghost predicate RecordOk(last: Int64, log: Log) {
    var n := |log.recorded|;
    && log.window <= n
    && (forall i :: 0 <= i < n ==> Sane(log.recorded[i]))
    && (forall i, j :: log.window <= i < j < n ==> log.recorded[j] <= log.recorded[i] - SLACK * (j - i))
    && (if last == MIN64 || last == MAX64 then log.window == n else log.window < n && last == log.recorded[n - 1])
  }

  ghost predicate SetsOk(s: State) {
    var n := |s.log.recorded|;
    && (forall t :: t in s.arming && s.arming[t].Setting?
          ==> s.arming[t].number < n && s.arming[t].value == s.log.recorded[s.arming[t].number])
    && (forall i :: 0 <= i < |s.log.sets| ==> s.log.sets[i].number < n)
    && (s.fd != Off ==> s.log.sets != [])
    && (s.fd.Armed? ==> s.fd.until == Deadline(s.log))
  }

  lemma RecordMore(last: Int64, log: Log, want: Int64)
    requires RecordOk(last, log) && last != MIN64 && Sane(want) && want <= last - SLACK
    ensures RecordOk(want, Record(log, want))
  {
  }

  lemma ExchangeRecords(s: State, r: State, t: nat)
    requires Inv(s) && RecordOk(s.last, s.log) && SetsOk(s) && Exchange(s, r, t)
    ensures RecordOk(r.last, r.log) && SetsOk(r)
  {
    hide RecordOk, InFlight, AboutToSet, NeverUnarmed, Skips;
    if s.last == s.arming[t].us {
      RecordMore(s.last, s.log, s.arming[t].want);
    }
  }

  lemma SetTimerRecords(s: State, r: State, t: nat)
    requires RecordOk(s.last, s.log) && SetsOk(s) && SetTimer(s, r, t)
    ensures RecordOk(r.last, r.log) && SetsOk(r)
  {
  }

  lemma AskRecords(s: State, r: State)
    requires RecordOk(s.last, s.log) && SetsOk(s)
    requires (exists t, due, usec :: Insert(s, r, t, due, usec)) || (exists t :: Load(s, r, t)) || (exists usec :: Rearm(s, r, usec))
    ensures RecordOk(r.last, r.log) && SetsOk(r)
  {
    hide Skips, RecordOk, Sane;
  }

  lemma WindowRecords(s: State, r: State)
    requires Inv(s) && RecordOk(s.last, s.log) && SetsOk(s)
    requires Tell(s, r) || Open(s, r) || Drain(s, r) || Close(s, r) || Expire(s, r) || Tick(s, r)
    ensures RecordOk(r.last, r.log) && SetsOk(r)
  {
    hide InFlight, AboutToSet, ArmingOk, NeverUnarmed;
  }

  lemma QueueRecords(s: State, r: State)
    requires RecordOk(s.last, s.log) && SetsOk(s)
    requires (exists due :: Pop(s, r, due)) || (exists due :: Requeue(s, r, due)) || Leave(s, r)
    ensures RecordOk(r.last, r.log) && SetsOk(r)
  {
    hide RecordOk;
  }

  lemma StepRecords(s: State, r: State)
    requires Inv(s) && RecordOk(s.last, s.log) && SetsOk(s) && Next(s, r)
    ensures RecordOk(r.last, r.log) && SetsOk(r)
  {
    hide Inv, RecordOk, SetsOk, Insert, Load, Exchange, SetTimer, Tell, Open, Drain, Close, Pop, Requeue, Rearm, Leave;
    if t :| Exchange(s, r, t) {
      ExchangeRecords(s, r, t);
    } else if t :| SetTimer(s, r, t) {
      SetTimerRecords(s, r, t);
    } else if Tell(s, r) || Open(s, r) || Drain(s, r) || Close(s, r) || Expire(s, r) || Tick(s, r) {
      WindowRecords(s, r);
    } else if (exists due :: Pop(s, r, due)) || (exists due :: Requeue(s, r, due)) || Leave(s, r) {
      QueueRecords(s, r);
    } else {
      AskRecords(s, r);
    }
  }

  lemma {:induction false} RunRecords(tr: seq<State>)
    requires Run(tr) && Init(tr[0])
    ensures var s := tr[|tr| - 1];
            Inv(s) && RecordOk(s.last, s.log) && SetsOk(s)
    decreases |tr|
  {
    hide Next, Inv, InFlight;
    RunKeeps(tr);
    if |tr| > 1 {
      RunRecords(tr[..|tr| - 1]);
      StepRecords(tr[|tr| - 2], tr[|tr| - 1]);
    }
  }

  /** In every interleaving: each arm since the last window is shorter than the
      one before it by 100 microseconds or more, so that from a first one of d0
      microseconds there are at most d0 / 100. */
  lemma {:induction false} ArmsShrink(tr: seq<State>)
    requires Run(tr) && Init(tr[0])
    ensures var log := tr[|tr| - 1].log;
            && log.window <= |log.recorded|
            && (forall i, j :: log.window <= i < j < |log.recorded|
                  ==> log.recorded[j] <= log.recorded[i] - 100 * (j - i))
            && (log.window < |log.recorded| ==>
                  100 * (|log.recorded| - log.window) <= log.recorded[log.window])
  {
    RunRecords(tr);
    var log := tr[|tr| - 1].log;
    if log.window < |log.recorded| {
      assert Sane(log.recorded[|log.recorded| - 1]);
    }
  }

  ghost predicate Resting(s: State) {
    forall t :: t in s.arming ==> s.arming[t] == Quiet
  }

  /** Exactly when the timerfd is due as recorded.  With all calls returned and
      a duration recorded since the last window, the timerfd has been set, and
      its deadline is the recorded duration after the last timerfd_settime if
      and only if that was made by the call whose exchange was the last one, or
      is left over from before the window and happens to have set the same.  If
      an earlier call of this window came last, it is late by 100 or more. */
  lemma SetAsRecordedIff(tr: seq<State>)
    requires Run(tr) && Init(tr[0]) && Resting(tr[|tr| - 1])
    requires tr[|tr| - 1].last != MIN64 && tr[|tr| - 1].last != MAX64
    ensures var s := tr[|tr| - 1];
            var log := s.log;
            && s.fd != Off && log.sets != []
            && var final := log.sets[|log.sets| - 1];
            && final.number < |log.recorded|
            && (Deadline(log) == final.at + s.last <==>
                  || final.number == |log.recorded| - 1
                  || (final.number < log.window && log.recorded[final.number] == s.last))
            && (log.window <= final.number < |log.recorded| - 1 ==> Deadline(log) >= final.at + s.last + 100)
            && (s.fd.Armed? ==> s.fd.until == Deadline(log))
  {
    RunRecords(tr);
  }

  /** In every interleaving: a timerfd_settime puts off the deadline of a timer
      that is counting down exactly when more time has passed since the one
      before than its duration is shorter. */
  lemma SetTimerPostponesIff(tr: seq<State>, r: State, t: nat)
    requires Run(tr) && Init(tr[0]) && SetTimer(tr[|tr| - 1], r, t) && tr[|tr| - 1].fd.Armed?
    ensures var s := tr[|tr| - 1];
            var log := s.log;
            && log.sets != [] && log.sets[|log.sets| - 1].number < |log.recorded| && r.fd.Armed?
            && var final := log.sets[|log.sets| - 1];
            (r.fd.until > s.fd.until <==> s.clock - final.at > log.recorded[final.number] - s.arming[t].value)
  {
    RunRecords(tr);
  }

  // -------------------------------------------------- one caller at a time

  /** A lock around WakeUpAfter: at most one thread is in it. */
  ghost predicate Serial(s: State) {
    forall t, u :: t in s.arming && u in s.arming && s.arming[t] != Quiet && s.arming[u] != Quiet ==> t == u
  }

  /** The last exchange is the one whose timerfd_settime is last, or under way. */
  ghost predicate InStep(s: State) {
    var n := |s.log.recorded|;
    && (forall t :: t in s.arming && s.arming[t].Setting? ==> s.arming[t].number == n - 1)
    && (n > 0 && !AboutToSet(s.arming) ==> s.log.sets != [] && s.log.sets[|s.log.sets| - 1].number == n - 1)
  }

  lemma ExchangeInStep(s: State, r: State, t: nat)
    requires InStep(s) && Serial(s) && Exchange(s, r, t)
    ensures InStep(r)
  {
    assert r.arming[t] != Quiet;
    if s.last == s.arming[t].us {
      assert r.arming[t].Setting?;
    }
    assert !AboutToSet(s.arming);
  }

  lemma SetTimerInStep(s: State, r: State, t: nat)
    requires InStep(s) && Serial(s) && SetTimer(s, r, t)
    ensures InStep(r)
  {
  }

  lemma AskInStep(s: State, r: State)
    requires InStep(s)
    requires (exists t, due, usec :: Insert(s, r, t, due, usec)) || (exists t :: Load(s, r, t)) || (exists usec :: Rearm(s, r, usec))
    ensures InStep(r)
  {
    if AboutToSet(s.arming) {
      var u :| u in s.arming && s.arming[u].Setting?;
      assert r.arming[u].Setting?;
    }
  }

  lemma OtherInStep(s: State, r: State)
    requires InStep(s) && (LoopStep(s, r) || Expire(s, r) || Tick(s, r)) && !exists usec :: Rearm(s, r, usec)
    ensures InStep(r)
  {
    hide AboutToSet;
  }

  ghost predicate SerialRun(tr: seq<State>) {
    Run(tr) && Init(tr[0]) && forall i :: 0 <= i < |tr| ==> Serial(tr[i])
  }

  lemma StepInStep(s: State, r: State)
    requires InStep(s) && Serial(s) && Next(s, r)
    ensures InStep(r)
  {
    hide InStep, Serial, Insert, Load, Exchange, SetTimer, Tell, Open, Drain, Close, Pop, Requeue, Rearm, Leave;
    if t :| Exchange(s, r, t) {
      ExchangeInStep(s, r, t);
    } else if t :| SetTimer(s, r, t) {
      SetTimerInStep(s, r, t);
    } else if (exists t, due, usec :: Insert(s, r, t, due, usec)) || (exists t :: Load(s, r, t)) || (exists usec :: Rearm(s, r, usec)) {
      AskInStep(s, r);
    } else {
      OtherInStep(s, r);
    }
  }

  lemma {:induction false} SerialInStep(tr: seq<State>)
    requires SerialRun(tr)
    ensures InStep(tr[|tr| - 1])
    decreases |tr|
  {
    hide Next, Serial;
    if |tr| > 1 {
      SerialInStep(tr[..|tr| - 1]);
      assert Serial(tr[|tr| - 2]);
      StepInStep(tr[|tr| - 2], tr[|tr| - 1]);
    }
  }

  /** The call of thread `t`, for `usec`, comes to its end. */
  ghost predicate Returns(s: State, r: State, t: nat, usec: Int64) {
    || (SetTimer(s, r, t) && s.arming[t].value == usec)
    || (Load(s, r, t) && s.arming[t].usec == usec && r.arming[t] == Quiet)
  }

  /** Due less than 100 microseconds past `usec`, counted from now. */
  ghost predicate DueWithin(s: State, usec: Int64) {
    && s.fd != Off && s.log.sets != [] && s.log.sets[|s.log.sets| - 1].number < |s.log.recorded|
    && Deadline(s.log) < s.clock + usec + 100
  }

  ghost predicate SetsPast(s: State) {
    forall i :: 0 <= i < |s.log.sets| ==> s.log.sets[i].at <= s.clock
  }

  lemma SkippedIsServed(s: State, t: nat, usec: Int64)
    requires Inv(s) && RecordOk(s.last, s.log) && SetsOk(s) && InStep(s) && Serial(s)
    requires t in s.arming && s.arming[t] == Want(usec) && Skips(usec, s.last)
    requires SetsPast(s)
    ensures s.loop == Opened || s.loop == Drained || DueWithin(s, usec)
  {
    assert !AboutToSet(s.arming);
    SkipsIff(usec, s.last);
    Sentinels(usec);
    hide Skips, InFlight, NeverUnarmed, AboutToSet;
  }

  lemma StepSetsPast(s: State, r: State)
    requires SetsPast(s) && Next(s, r)
    ensures SetsPast(r)
  {
    hide Skips, Sane, Free;
  }

  lemma NothingSet(s: State)
    requires s.log.sets == []
    ensures SetsPast(s)
  {
  }

  lemma {:induction false} RunSetsPast(tr: seq<State>)
    requires Run(tr) && Init(tr[0])
    ensures SetsPast(tr[|tr| - 1])
    decreases |tr|
  {
    hide Next, SetsPast;
    if |tr| > 1 {
      RunSetsPast(tr[..|tr| - 1]);
      StepSetsPast(tr[|tr| - 2], tr[|tr| - 1]);
    } else {
      assert SetsPast(tr[0]) by { NothingSet(tr[0]); }
    }
  }

  /** Every request is served, where callers take turns: when a call returns,
      whether it has set the timer or was skipped, the timer is due less than
      100 microseconds past the duration asked for, counted from the return; or
      it was skipped in the window of HandleEvents, and Process is to come. */
  lemma SerialIsServed(tr: seq<State>, r: State, t: nat, usec: Int64)
    requires SerialRun(tr) && Returns(tr[|tr| - 1], r, t, usec)
    ensures r.loop == Opened || r.loop == Drained || DueWithin(r, usec)
  {
    var s := tr[|tr| - 1];
    RunRecords(tr);
    RunSetsPast(tr);
    SerialInStep(tr);
    assert Serial(tr[|tr| - 1]);
    hide Inv, InStep, Serial, Skips, RecordOk, Run;
    if SetTimer(s, r, t) {
      SetTimerRecords(s, r, t);
    } else {
      SkippedIsServed(s, t, usec);
    }
  }

  // --------------------------------------------- callers that overtake

  ghost predicate Reachable(s: State) {
    exists tr :: Run(tr) && Init(tr[0]) && tr[|tr| - 1] == s
  }

  lemma ReachInit(s: State)
    requires Init(s)
    ensures Reachable(s)
  {
    assert Run([s]) && [s][0] == s;
  }

  lemma ReachNext(s: State, r: State)
    requires Reachable(s) && Next(s, r)
    ensures Reachable(r)
  {
    hide Next, Init;
    var tr :| Run(tr) && Init(tr[0]) && tr[|tr| - 1] == s;
    assert (tr + [r])[..|tr + [r]| - 1] == tr;
    assert Run(tr + [r]);
  }

  /** A call that is taken up, as far as its exchange. */
  lemma ReachExchange(s: State, t: nat, due: nat, usec: Int64) returns (r: State)
    requires Reachable(s) && t in s.arming && t != 0 && s.arming[t] == Quiet && Sane(usec) && usec <= s.last - SLACK
    ensures Reachable(r)
    ensures r == s.(pending := s.pending + multiset{due}, last := usec, log := Record(s.log, usec),
                    arming := s.arming[t := Setting(usec, |s.log.recorded|)])
  {
    SkipsIff(usec, s.last);
    hide Skips, Reachable;
    var s1 := s.(pending := s.pending + multiset{due}, arming := s.arming[t := Want(usec)]);
    assert Insert(s, s1, t, due, usec);
    ReachNext(s, s1);
    var s2 := s1.(arming := s1.arming[t := Loaded(usec, s.last)]);
    assert Load(s1, s2, t);
    ReachNext(s1, s2);
    r := s2.(last := usec, log := Record(s.log, usec), arming := s2.arming[t := Setting(usec, |s.log.recorded|)]);
    assert Exchange(s2, r, t);
    ReachNext(s2, r);
  }

  lemma ReachSet(s: State, t: nat) returns (r: State)
    requires Reachable(s) && t in s.arming && s.arming[t].Setting?
    ensures Reachable(r)
    ensures r == s.(fd := Armed(s.clock + s.arming[t].value), arming := s.arming[t := Quiet],
                    log := s.log.(sets := s.log.sets + [Settime(s.arming[t].number, s.clock)]))
  {
    hide Reachable;
    r := s.(fd := Armed(s.clock + s.arming[t].value), arming := s.arming[t := Quiet],
            log := s.log.(sets := s.log.sets + [Settime(s.arming[t].number, s.clock)]));
    assert SetTimer(s, r, t);
    ReachNext(s, r);
  }

  lemma OneMillisecondSkips()
    ensures forall usec: Int64 :: usec > 900 ==> Skips(usec, 1_000)
  {
    forall usec: Int64 | usec > 900
      ensures Skips(usec, 1_000)
    {
      SkipsIff(usec, 1_000);
    }
  }

  /** Where callers may overtake each other, as with the wheel: thread 1 asks
      for ten seconds and makes its exchange; thread 2 asks for a millisecond,
      makes its exchange over it and sets the timer; then thread 1 sets it.  The
      millisecond is served after ten seconds, and until then every request for
      more than 900 microseconds is skipped. */
  lemma OvertakenIsLate()
    ensures exists s: State ::
              && Reachable(s) && Resting(s) && s.loop == Selecting && s.clock == 0
              && s.pending == multiset{1_000, 10_000_000} && s.last == 1_000 && s.fd == Armed(10_000_000)
    ensures forall usec: Int64 :: usec > 900 ==> Skips(usec, 1_000)
  {
    hide Reachable, Skips, Record;
    OneMillisecondSkips();
    var s := State(0, multiset{}, MAX64, Off, map[0 := Quiet, 1 := Quiet, 2 := Quiet], Selecting, Log([], 0, []));
    ReachInit(s);
    s := ReachExchange(s, 1, 10_000_000, 10_000_000);
    s := ReachExchange(s, 2, 1_000, 1_000);
    s := ReachSet(s, 2);
    s := ReachSet(s, 1);
  }

  // -------------------------------------- an arming call by itself finishes

  /** What is left of WakeUpAfter for a thread that runs undisturbed. */
  function Left(a: Arming, last: Int64): nat {
    match a
    case Quiet => 0
    case Setting(_, _) => 1
    case Loaded(_, us) => if us == last then 2 else 4
    case Want(_) => 3
  }

  /** An access of thread `t`. */
  ghost predicate ArmingStep(s: State, r: State, t: nat) {
    Load(s, r, t) || Exchange(s, r, t) || SetTimer(s, r, t)
  }

  /** The thread runs undisturbed: nothing else happens. */
  ghost predicate Undisturbed(tr: seq<State>, t: nat) {
    tr != [] && t in tr[0].arming && forall i :: 0 <= i < |tr| - 1 ==> ArmingStep(tr[i], tr[i + 1], t)
  }

  lemma StepsDown(s: State, r: State, t: nat)
    requires ArmingStep(s, r, t)
    ensures t in s.arming && t in r.arming && Left(r.arming[t], r.last) < Left(s.arming[t], s.last) <= 4
    ensures r.arming[t] == Quiet ==> r.fd.Armed? || (s.arming[t].Want? && r.last == s.last && Skips(s.arming[t].usec, s.last))
  {
  }

  lemma {:induction false} RunsDown(tr: seq<State>, t: nat)
    requires Undisturbed(tr, t)
    ensures var last := tr[|tr| - 1];
            t in last.arming && |tr| - 1 + Left(last.arming[t], last.last) <= Left(tr[0].arming[t], tr[0].last) <= 4
    decreases |tr|
  {
    if |tr| > 1 {
      RunsDown(tr[..|tr| - 1], t);
      StepsDown(tr[|tr| - 2], tr[|tr| - 1], t);
    }
  }

  lemma NextAccess(s: State, t: nat) returns (r: State)
    requires t in s.arming && s.arming[t] != Quiet
    ensures ArmingStep(s, r, t)
  {
    match s.arming[t]
    case Want(usec) => r := s.(arming := s.arming[t := if Skips(usec, s.last) then Quiet else Loaded(usec, s.last)]);
    case Loaded(want, us) =>
      r := if s.last == us
           then s.(last := want, log := Record(s.log, want), arming := s.arming[t := Setting(want, |s.log.recorded|)])
           else s.(arming := s.arming[t := Want(want)]);
    case Setting(value, number) =>
      r := s.(fd := Armed(s.clock + value), arming := s.arming[t := Quiet],
              log := s.log.(sets := s.log.sets + [Settime(number, s.clock)]));
  }

  /** An exchange that fails was overtaken by another thread or by
      HandleEvents.  Left alone, a call of WakeUpAfter, wherever it stands, is
      over after at most four accesses, and can make another one as long as it
      is not over; it ends with the timer armed, unless the request was rightly
      skipped. */
  lemma ArmingFinishes(tr: seq<State>, t: nat)
    requires Undisturbed(tr, t) && tr[0].arming[t] != Quiet
    ensures |tr| <= 5
    ensures var last := tr[|tr| - 1];
            && t in last.arming
            && (last.arming[t] != Quiet ==> exists r :: ArmingStep(last, r, t))
            && (last.arming[t] == Quiet ==>
                  last.fd.Armed? || exists usec: Int64 :: Skips(usec, last.last) && tr[|tr| - 2].arming[t] == Want(usec))
  {
    RunsDown(tr, t);
    var last := tr[|tr| - 1];
    if last.arming[t] == Quiet {
      assert ArmingStep(tr[|tr| - 2], tr[|tr| - 1], t);
      StepsDown(tr[|tr| - 2], last, t);
    } else {
      var r := NextAccess(last, t);
    }
  }
}
