/** EventBlockingQueue and EventDoubleBufferQueue: both keep a list under a
    mutex and write the eventfd when it stops being empty.  They differ in how
    the consumer takes callbacks: one at a time until none is left, or all at
    once.  Both are the same first-in-first-out executor. */
module LockedQueues {
  import opened Options

  type Callback = nat

  datatype Kind = Blocking | DoubleBuffer

  const FULL: nat := 0xffff_ffff_ffff_fffe

  /** A producer: outside Add, or in it with the lock held, and with the write
      to the eventfd still to come or not. */
  datatype Producer = Outside | Holding(wake: bool)

  /** The consumer: in the selector, about to take the lock, or at work on the
      callbacks it has taken. */
  datatype Consumer = Selecting | Taking | Working

  /** `running` are the callbacks taken and not started yet. */
  datatype State = State(
    pending: seq<Callback>,
    running: seq<Callback>,
    fd: nat,
    lock: Option<nat>,
    pcs: map<nat, Producer>,
    cpc: Consumer,
    added: seq<Callback>,
    done: seq<Callback>)

  /** What the first `n` callbacks add, in order, if the k-th adds `script[k]`. */
  function Spawned(script: seq<seq<Callback>>, n: nat): seq<Callback> {
    if n == 0 then [] else Spawned(script, n - 1) + (if n <= |script| then script[n - 1] else [])
  }

  lemma NothingSpawned(script: seq<seq<Callback>>)
    ensures Spawned(script, 0) == []
  {
  }

  lemma SpawnedMore(added: seq<Callback>, script: seq<seq<Callback>>, n: nat)
    ensures var more := if n < |script| then script[n] else [];
            && Spawned(script, n + 1) == Spawned(script, n) + more
            && added + Spawned(script, n + 1) == added + Spawned(script, n) + more
  {
  }

  ghost predicate Init(s: State) {
    && s.pending == [] && s.running == [] && s.fd == 0 && s.lock == None && s.cpc == Selecting
    && s.added == [] && s.done == []
    && forall p :: p in s.pcs ==> s.pcs[p] == Outside
  }

  // ------------------------------------------------------------------ steps

  function Bump(fd: nat): nat { if fd < FULL then fd + 1 else fd }

  ghost predicate Push(s: State, t: State, p: nat, x: Callback) {
    && p in s.pcs && s.pcs[p] == Outside && s.lock == None
    && t == s.(pending := s.pending + [x], added := s.added + [x], lock := Some(p),
               pcs := s.pcs[p := Holding(|s.pending| + 1 == 1)])
  }

  ghost predicate Wake(s: State, t: State, p: nat) {
    && p in s.pcs && s.pcs[p] == Holding(true)
    && t == s.(fd := Bump(s.fd), pcs := s.pcs[p := Holding(false)])
  }

  ghost predicate Unlock(s: State, t: State, p: nat) {
    && p in s.pcs && s.pcs[p] == Holding(false)
    && t == s.(lock := None, pcs := s.pcs[p := Outside])
  }

  ghost predicate ReadEvent(s: State, t: State) {
    s.cpc == Selecting && s.fd > 0 && t == s.(fd := 0, cpc := Taking)
  }

  /** Pop, or the swap of the two buffers, under the lock. */
  ghost predicate Take(kind: Kind, s: State, t: State) {
    && s.cpc == Taking && s.lock == None
    && match kind
       case DoubleBuffer => t == s.(pending := s.running, running := s.pending, cpc := Working)
       case Blocking =>
         if s.pending == [] then t == s.(cpc := Selecting)
         else t == s.(pending := s.pending[1..], running := [s.pending[0]], cpc := Working)
  }

  ghost predicate Call(s: State, t: State) {
    && s.cpc == Working && s.running != []
    && t == s.(running := s.running[1..], done := s.done + [s.running[0]])
  }

  ghost predicate Rest(kind: Kind, s: State, t: State) {
    && s.cpc == Working && s.running == []
    && t == s.(cpc := if kind == Blocking then Taking else Selecting)
  }

  ghost predicate ProducerStep(s: State, t: State) {
    || (exists p, x :: Push(s, t, p, x))
    || (exists p :: Wake(s, t, p))
    || (exists p :: Unlock(s, t, p))
  }

  ghost predicate ConsumerStep(kind: Kind, s: State, t: State) {
    ReadEvent(s, t) || Take(kind, s, t) || Call(s, t) || Rest(kind, s, t)
  }

  ghost predicate Next(kind: Kind, s: State, t: State) {
    ProducerStep(s, t) || ConsumerStep(kind, s, t)
  }

  // -------------------------------------------------------------- invariant

  ghost predicate AboutToWake(pcs: map<nat, Producer>) {
    exists p :: p in pcs && pcs[p] == Holding(true)
  }

  /** The consumer has yet to look at the pending list. */
  predicate WillLook(kind: Kind, cpc: Consumer) {
    cpc == Taking || (kind == Blocking && cpc == Working)
  }

  ghost predicate NoneForgotten(kind: Kind, s: State) {
    s.pending != [] ==> s.fd > 0 || AboutToWake(s.pcs) || WillLook(kind, s.cpc)
  }

  ghost predicate Locked(lock: Option<nat>, pcs: map<nat, Producer>) {
    && (lock.Some? ==> lock.value in pcs)
    && forall p :: p in pcs ==> (pcs[p].Holding? <==> lock == Some(p))
  }

  ghost predicate Inv(kind: Kind, s: State) {
    && s.done + s.running + s.pending == s.added
    && (s.running != [] ==> s.cpc == Working)
    && Locked(s.lock, s.pcs)
    && NoneForgotten(kind, s)
  }

  lemma PushKeeps(kind: Kind, s: State, t: State, p: nat, x: Callback)
    requires Inv(kind, s) && Push(s, t, p, x)
    ensures Inv(kind, t)
  {
    assert s.done + s.running + (s.pending + [x]) == s.done + s.running + s.pending + [x];
    assert t.pcs[p].Holding?;
    if s.pending == [] {
      assert t.pcs[p] == Holding(true);
    }
  }

  lemma WakeKeeps(kind: Kind, s: State, t: State, p: nat)
    requires Inv(kind, s) && Wake(s, t, p)
    ensures Inv(kind, t)
  {
  }

  lemma UnlockKeeps(kind: Kind, s: State, t: State, p: nat)
    requires Inv(kind, s) && Unlock(s, t, p)
    ensures Inv(kind, t)
  {
  }

  lemma ConsumerKeeps(kind: Kind, s: State, t: State)
    requires Inv(kind, s) && ConsumerStep(kind, s, t)
    ensures Inv(kind, t)
  {
    hide AboutToWake, Locked;
    if Call(s, t) {
      assert s.running == [s.running[0]] + s.running[1..];
      assert s.done + s.running == s.done + [s.running[0]] + s.running[1..];
    } else if Take(kind, s, t) {
      if kind == DoubleBuffer {
        assert s.done + [] + s.pending == s.done + s.pending + [];
      } else if s.pending != [] {
        assert s.pending == [s.pending[0]] + s.pending[1..];
        assert s.done + [] + s.pending == s.done + [s.pending[0]] + s.pending[1..];
      }
    }
  }

  lemma NextKeeps(kind: Kind, s: State, t: State)
    requires Inv(kind, s) && Next(kind, s, t)
    ensures Inv(kind, t)
  {
    if ConsumerStep(kind, s, t) {
      ConsumerKeeps(kind, s, t);
    } else if p, x :| Push(s, t, p, x) {
      PushKeeps(kind, s, t, p, x);
    } else if p :| Wake(s, t, p) {
      WakeKeeps(kind, s, t, p);
    } else {
      var p :| Unlock(s, t, p);
      UnlockKeeps(kind, s, t, p);
    }
  }

  // ------------------------------------------------- the executor they are

  datatype Executor = Executor(todo: seq<Callback>, done: seq<Callback>)

  function Abstract(s: State): Executor { Executor(s.running + s.pending, s.done) }

  /** Add at the end; run from the front; or nothing visible happens. */
  ghost predicate FifoStep(a: Executor, b: Executor) {
    || b == a
    || (exists x :: b == a.(todo := a.todo + [x]))
    || (a.todo != [] && b == Executor(a.todo[1..], a.done + [a.todo[0]]))
  }

  /** Every step of either queue is a step of the one executor. */
  lemma RefinesFifo(kind: Kind, s: State, t: State)
    requires Inv(kind, s) && Next(kind, s, t)
    ensures FifoStep(Abstract(s), Abstract(t))
  {
    var a, b := Abstract(s), Abstract(t);
    if p, x :| Push(s, t, p, x) {
      assert b.todo == a.todo + [x];
    } else if Call(s, t) {
      assert a.todo[1..] == b.todo && a.todo[0] == s.running[0];
    } else {
      assert b.todo == a.todo;
    }
  }

  // ------------------------------------------------------------------- runs

  ghost predicate Run(kind: Kind, tr: seq<State>)
    decreases |tr|
  {
    tr != [] && (|tr| == 1 || (Run(kind, tr[..|tr| - 1]) && Next(kind, tr[|tr| - 2], tr[|tr| - 1])))
  }

  ghost predicate Reachable(kind: Kind, s: State) {
    exists tr :: Run(kind, tr) && Init(tr[0]) && tr[|tr| - 1] == s
  }

  lemma ReachStep(kind: Kind, s: State, t: State)
    requires Reachable(kind, s) && Next(kind, s, t)
    ensures Reachable(kind, t)
  {
    hide Next, Init;
    var tr :| Run(kind, tr) && Init(tr[0]) && tr[|tr| - 1] == s;
    var longer := tr + [t];
    assert longer[..|longer| - 1] == tr;
    assert Run(kind, longer) && Init(longer[0]) && longer[|longer| - 1] == t;
  }

  lemma {:induction false} RunKeeps(kind: Kind, tr: seq<State>)
    requires Run(kind, tr) && Init(tr[0])
    ensures Inv(kind, tr[|tr| - 1])
    decreases |tr|
  {
    if |tr| > 1 {
      RunKeeps(kind, tr[..|tr| - 1]);
      NextKeeps(kind, tr[|tr| - 2], tr[|tr| - 1]);
    }
  }

  /** At every moment of every run, callbacks run, in hand and pending are the
      callbacks added, in the order in which they got the lock; and a pending
      one has a wake-up under way or a consumer that will look. */
  lemma ReachableIsFine(kind: Kind, s: State)
    requires Reachable(kind, s)
    ensures s.done + s.running + s.pending == s.added && NoneForgotten(kind, s) && Inv(kind, s)
  {
    var tr :| Run(kind, tr) && Init(tr[0]) && tr[|tr| - 1] == s;
    RunKeeps(kind, tr);
  }

  ghost predicate Quiet(s: State) {
    forall p :: p in s.pcs ==> s.pcs[p] == Outside
  }

  function Work(kind: Kind, s: State): nat {
    4 * |s.pending| + 2 * |s.running| + (if s.fd > 0 then 4 else 0)
    + match s.cpc
      case Selecting => 0
      case Taking => 2
      case Working => if kind == Blocking then 3 else 1
  }

  lemma ConsumerProgress(kind: Kind, s: State, t: State)
    requires Inv(kind, s) && ConsumerStep(kind, s, t)
    ensures Work(kind, t) < Work(kind, s) && t.pcs == s.pcs && t.added == s.added && t.lock == s.lock
  {
  }

  lemma ConsumerCanMove(kind: Kind, s: State)
    requires Inv(kind, s) && s.lock == None && !(s.cpc == Selecting && s.fd == 0)
    ensures exists t :: ConsumerStep(kind, s, t)
  {
    var t := match s.cpc
      case Selecting => s.(fd := 0, cpc := Taking)
      case Taking =>
        if kind == DoubleBuffer then s.(pending := s.running, running := s.pending, cpc := Working)
        else if s.pending == [] then s.(cpc := Selecting)
        else s.(pending := s.pending[1..], running := [s.pending[0]], cpc := Working)
      case Working =>
        if s.running != [] then s.(running := s.running[1..], done := s.done + [s.running[0]])
        else s.(cpc := if kind == Blocking then Taking else Selecting);
    assert ReadEvent(s, t) || Take(kind, s, t) || Call(s, t) || Rest(kind, s, t);
    assert ConsumerStep(kind, s, t);
  }

  ghost predicate ConsumerRun(kind: Kind, tr: seq<State>)
    decreases |tr|
  {
    tr != [] && (|tr| == 1 || (ConsumerRun(kind, tr[..|tr| - 1]) && ConsumerStep(kind, tr[|tr| - 2], tr[|tr| - 1])))
  }

  lemma {:induction false} ConsumerRunBound(kind: Kind, tr: seq<State>)
    requires ConsumerRun(kind, tr) && Inv(kind, tr[0])
    ensures var t := tr[|tr| - 1];
            && Inv(kind, t) && Work(kind, t) + |tr| - 1 <= Work(kind, tr[0])
            && t.pcs == tr[0].pcs && t.added == tr[0].added && t.lock == tr[0].lock
    decreases |tr|
  {
    if |tr| > 1 {
      ConsumerRunBound(kind, tr[..|tr| - 1]);
      hide Inv, Work;
      ConsumerProgress(kind, tr[|tr| - 2], tr[|tr| - 1]);
      ConsumerKeeps(kind, tr[|tr| - 2], tr[|tr| - 1]);
    }
  }

  /** With the producers through, the consumer comes to rest after a bounded
      number of steps, and then every callback added has run, once and in the
      order of addition. */
  lemma EveryCallbackRuns(kind: Kind, s: State, tr: seq<State>)
    requires Reachable(kind, s) && Quiet(s) && ConsumerRun(kind, tr) && tr[0] == s
    ensures |tr| <= Work(kind, s) + 1
    ensures var t := tr[|tr| - 1];
            (exists u :: ConsumerStep(kind, t, u)) || (t.done == s.added && t.pending == [] && t.running == [])
  {
    ReachableIsFine(kind, s);
    ConsumerRunBound(kind, tr);
    var t := tr[|tr| - 1];
    if t.cpc == Selecting && t.fd == 0 {
      assert !AboutToWake(t.pcs);
      assert t.done + [] + [] == t.done;
    } else {
      ConsumerCanMove(kind, t);
    }
  }
}
