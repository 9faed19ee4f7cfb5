/** The state of the hashed timing wheel and its elementary operations.

    A wheel has |buckets| buckets; a bucket is an ordered map from a round to
    the ids filed under it.  Reading tick `t` as bucket `t % n` and round
    `t / n` turns the whole array into one function from ticks to id lists
    (`At`), which is the view every proof works with.
 */
module WheelSpec {
  import opened Division

  type Bucket = map<nat, seq<nat>>

  datatype Entry = Entry(rounds: nat, interval: int)

  /** What a callback may do to the queue it runs from.  `due` is the clock
      reading of that moment plus the requested delay. */
  datatype Op = AddOp(due: nat, interval: int) | CancelOp(id: nat)

  function TickOf(ts: nat, tick: Pos): nat { ts / tick }

  /** `due`, `asked` and `started` are history variables: the deadline every
      filed id was filed for, the instants passed to the timer channel, and
      the callbacks started so far. */
  datatype Wheel = Wheel(
    tick: Pos,
    last: nat,
    counter: nat,
    buckets: seq<Bucket>,
    table: map<nat, Entry>,
    due: map<nat, nat>,
    asked: seq<nat>,
    started: seq<nat>)
  {
    function Ticks(ts: nat): nat { TickOf(ts, tick) }

    function Rounds(ts: nat): nat
      requires |buckets| > 0
    {
      TickOf(ts, tick) / |buckets|
    }
  }

  predicate NoDup(s: seq<nat>) {
    forall i, j :: 0 <= i < j < |s| ==> s[i] != s[j]
  }

  // ---------------------------------------------------------------- buckets

  function At(bs: seq<Bucket>, t: nat): seq<nat>
    requires |bs| > 0
  {
    var b := bs[t % |bs|];
    if t / |bs| in b then b[t / |bs|] else []
  }

  function File(bs: seq<Bucket>, t: nat, id: nat): (r: seq<Bucket>)
    requires |bs| > 0
    ensures |r| == |bs|
  {
    var r: nat := t / |bs|;
    var b: Bucket := bs[t % |bs|][r := At(bs, t) + [id]];
    bs[t % |bs| := b]
  }

  lemma {:induction false} HasLeast(s: set<nat>, bound: nat)
    requires exists x :: x in s && x <= bound
    ensures exists k :: k in s && forall j :: j in s ==> k <= j
  {
    if exists x :: x in s && x < bound {
      HasLeast(s, bound - 1);
    } else {
      assert bound in s && forall j :: j in s ==> bound <= j;
    }
  }

  lemma HasFirst(b: Bucket)
    requires b != map[]
    ensures exists k :: k in b && forall j :: j in b ==> k <= j
  {
    var some :| some in b;
    HasLeast(b.Keys, some);
  }

  /** The first key of an ordered map. */
  function First(b: Bucket): (k: nat)
    requires b != map[]
    ensures k in b && forall j :: j in b ==> k <= j
  {
    HasFirst(b);
    var k :| k in b && forall j :: j in b ==> k <= j;
    k
  }

  datatype PopResult = Nothing | Batch(ids: seq<nat>, rest: Bucket)

  /** Bucket::Pop: the earliest round not after `rounds`, if there is one. */
  function Pop(b: Bucket, rounds: nat): (p: PopResult)
    ensures p.Nothing? <==> forall r :: r in b ==> r > rounds
    ensures p.Batch? ==> exists r :: r in b && r <= rounds && p.ids == b[r] && p.rest == b - {r}
                                     && forall q :: q in b ==> r <= q
  {
    if b == map[] then
      Nothing
    else
      var k := First(b);
      if k > rounds then Nothing else Batch(b[k], b - {k})
  }

  lemma SlotIsUnique(t: nat, u: nat, n: Pos)
    requires t % n == u % n && t / n == u / n
    ensures t == u
  {
    DivMod(t, n);
    DivMod(u, n);
  }

  /** Bucket `i`, round `r` is exactly tick `i + n * r`. */
  lemma SlotOf(i: nat, r: nat, n: Pos)
    requires i < n
    ensures (i + n * r) % n == i && (i + n * r) / n == r
  {
    var t := i + n * r;
    DivMod(t, n);
    var d := t / n - r;
    assert t / n == r + d;
    assert n * (r + d) == n * r + n * d;
    assert n * d + t % n == i;
    Scale(n, d);
  }

  lemma FileAt(bs: seq<Bucket>, t: nat, id: nat)
    requires |bs| > 0
    ensures forall u: nat :: At(File(bs, t, id), u) == if u == t then At(bs, t) + [id] else At(bs, u)
  {
    forall u: nat
      ensures At(File(bs, t, id), u) == if u == t then At(bs, t) + [id] else At(bs, u)
    {
      if u != t && u % |bs| == t % |bs| && u / |bs| == t / |bs| {
        SlotIsUnique(u, t, |bs|);
      }
    }
  }

  /** The tick whose ids a successful Pop of bucket `i` hands out. */
  function PopTick(bs: seq<Bucket>, i: nat, rounds: nat): (t: nat)
    requires i < |bs| && Pop(bs[i], rounds).Batch?
  {
    i + |bs| * First(bs[i])
  }

  lemma PopAt(bs: seq<Bucket>, i: nat, rounds: nat)
    requires i < |bs| && Pop(bs[i], rounds).Batch?
    ensures var p := Pop(bs[i], rounds);
            var t := PopTick(bs, i, rounds);
            && t % |bs| == i && t / |bs| <= rounds && t / |bs| in bs[i]
            && p.ids == At(bs, t)
            && forall u: nat :: At(bs[i := p.rest], u) == if u == t then [] else At(bs, u)
  {
    var p := Pop(bs[i], rounds);
    var r := First(bs[i]);
    var t := PopTick(bs, i, rounds);
    SlotOf(i, r, |bs|);
    forall u: nat
      ensures At(bs[i := p.rest], u) == if u == t then [] else At(bs, u)
    {
      if u != t && u % |bs| == i && u / |bs| == r {
        SlotIsUnique(u, t, |bs|);
      }
    }
  }

  lemma PopNothingAt(bs: seq<Bucket>, i: nat, rounds: nat)
    requires i < |bs| && Pop(bs[i], rounds).Nothing?
    ensures forall u: nat :: u % |bs| == i && u / |bs| <= rounds ==> At(bs, u) == []
  {
  }

  // ------------------------------------------------------------- invariants

  /** An id sits in the list of tick `t` exactly when its deadline falls in
      tick `t`, once, and no list is left empty. */
  ghost predicate Filed(bs: seq<Bucket>, tick: Pos, due: map<nat, nat>) {
    && |bs| > 0
    && (forall t: nat, id: nat :: id in At(bs, t) <==> id in due && TickOf(due[id], tick) == t)
    && (forall t: nat :: NoDup(At(bs, t)))
    && (forall i, r :: 0 <= i < |bs| && r in bs[i] ==> bs[i][r] != [])
  }

  /** `batch` holds the ids already popped by the sweep in progress. */
  ghost predicate Consistent(w: Wheel, batch: seq<nat>) {
    && Filed(w.buckets, w.tick, w.due)
    && NoDup(batch)
    && (forall id :: id in batch ==> 1 <= id <= w.counter && id !in w.due)
    && (forall id :: id in w.due ==> 1 <= id <= w.counter)
    && (forall id :: id in w.table ==> id in w.due || id in batch)
  }

  ghost predicate Valid(w: Wheel) { Consistent(w, []) }

  /** Nothing is filed before the tick the next sweep starts from. */
  ghost predicate NoneOverdue(w: Wheel) {
    forall id :: id in w.due ==> w.Ticks(w.last) <= w.Ticks(w.due[id])
  }

  // ------------------------------------------------------------- operations

  function Create(tick: Pos, n: Pos, now: nat): (w: Wheel)
    ensures Valid(w) && NoneOverdue(w)
  {
    var w := Wheel(tick, now, 0, seq(n, (i: nat) => map[]), map[], map[], [now], []);
    w
  }

  /** WakeUp: the channel is asked for the start of the tick of `expire`. */
  function WakeUp(w: Wheel, expire: nat): Wheel {
    w.(asked := w.asked + [w.Ticks(expire) * w.tick])
  }

  function AddTimer(w: Wheel, due: nat, interval: int): Wheel
    requires |w.buckets| > 0
  {
    var id := w.counter + 1;
    WakeUp(w.(counter := id,
           table := w.table[id := Entry(w.Rounds(due), interval)],
           buckets := File(w.buckets, w.Ticks(due), id),
           due := w.due[id := due]),
           due)
  }

  function CancelTimer(w: Wheel, id: nat): Wheel {
    w.(table := w.table - {id})
  }

  /** A repeating timer goes back on the wheel, relative to the sweep's clock. */
  function Refile(w: Wheel, id: nat, expire: nat): Wheel
    requires |w.buckets| > 0 && id in w.table
  {
    w.(table := w.table[id := w.table[id].(rounds := w.Rounds(expire))],
       buckets := File(w.buckets, w.Ticks(expire), id),
       due := w.due[id := expire])
  }

  function Apply(w: Wheel, op: Op): (r: Wheel)
    requires |w.buckets| > 0
    ensures |r.buckets| == |w.buckets| && r.tick == w.tick && r.last == w.last && r.started == w.started
  {
    match op
    case AddOp(due, interval) => AddTimer(w, due, interval)
    case CancelOp(id) => CancelTimer(w, id)
  }

  function ApplyAll(w: Wheel, ops: seq<Op>): (r: Wheel)
    requires |w.buckets| > 0
    ensures |r.buckets| == |w.buckets| && r.tick == w.tick && r.last == w.last && r.started == w.started
    decreases |ops|
  {
    if ops == [] then w else ApplyAll(Apply(w, ops[0]), ops[1..])
  }

  // ------------------------------------------------ what the operations keep

  lemma FileKeeps(bs: seq<Bucket>, tick: Pos, due: map<nat, nat>, id: nat, ts: nat)
    requires Filed(bs, tick, due) && id !in due
    ensures Filed(File(bs, TickOf(ts, tick), id), tick, due[id := ts])
  {
    var t := TickOf(ts, tick);
    var bs', due' := File(bs, t, id), due[id := ts];
    FileAt(bs, t, id);
    assert id !in At(bs, t);
    forall u: nat, x: nat
      ensures x in At(bs', u) <==> x in due' && TickOf(due'[x], tick) == u
    {
      assert At(bs', u) == if u == t then At(bs, t) + [id] else At(bs, u);
      assert x in At(bs, u) <==> x in due && TickOf(due[x], tick) == u;
    }
    forall u: nat
      ensures NoDup(At(bs', u))
    {
      assert NoDup(At(bs, u));
    }
  }

  lemma AddKeeps(w: Wheel, batch: seq<nat>, due: nat, interval: int)
    requires Consistent(w, batch)
    ensures Consistent(AddTimer(w, due, interval), batch)
  {
    FileKeeps(w.buckets, w.tick, w.due, w.counter + 1, due);
  }

  lemma {:induction false} ApplyAllKeeps(w: Wheel, batch: seq<nat>, ops: seq<Op>)
    requires Consistent(w, batch)
    ensures Consistent(ApplyAll(w, ops), batch)
    decreases |ops|
  {
    if ops != [] {
      if ops[0].AddOp? {
        AddKeeps(w, batch, ops[0].due, ops[0].interval);
      }
      ApplyAllKeeps(Apply(w, ops[0]), batch, ops[1..]);
    }
  }
}
