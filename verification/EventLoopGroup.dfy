/** EventLoopGroup: one id for (loop, timer), and loops handed out in turn. */
module GroupArithmetic {
  import opened Division

  const MOD: int := 0x1_0000_0000_0000_0000

  type Word = x: int | 0 <= x < MOD

  /** The number of loops. */
  type Size = x: int | 0 < x < MOD witness 1

  // --------------------------------------------------------------- timer ids

  function Encode(timer: Word, loop: Word, n: Size): Word { (timer * n + loop) % MOD }

  function LoopOf(id: Word, n: Size): (loop: Word)
    ensures loop < n
  {
    id % n
  }

  lemma Grows(n: Size, a: nat)
    ensures n * a >= a
  {
  }

  lemma DivLess(a: nat, n: Size)
    ensures 0 <= a / n <= a
  {
    assert a == n * (a / n) + a % n;
    Scale(n, a / n);
    Grows(n, a / n);
  }

  function TimerOf(id: Word, n: Size): Word
  {
    assert id / n <= id by { DivLess(id, n); }
    id / n
  }

  /** Decoding undoes encoding exactly while the product does not overflow. */
  lemma DecodeIffNoOverflow(timer: Word, loop: Word, n: Size)
    requires loop < n
    ensures (LoopOf(Encode(timer, loop, n), n) == loop && TimerOf(Encode(timer, loop, n), n) == timer)
            <==> timer * n + loop < MOD
  {
    var id := Encode(timer, loop, n);
    assert id == n * (id / n) + id % n;
    assert n * timer == timer * n;
    if timer * n + loop < MOD {
      Grows(n, timer);
      assert id == timer * n + loop;
      DivModUnique(id, n, timer, loop);
    }
  }

  /** Encoding undoes decoding, always: no two ids name the same timer. */
  lemma EncodeDecode(id: Word, n: Size)
    ensures Encode(TimerOf(id, n), LoopOf(id, n), n) == id
  {
    assert id == n * (id / n) + id % n;
    assert n * (id / n) == (id / n) * n;
  }

  /** The group id of this timer does not overflow. */
  predicate Fits(timer: nat, loop: nat, n: Size) { timer * n + loop < MOD }

  lemma FitsWord(timer: nat, loop: nat, n: Size)
    requires Fits(timer, loop, n)
    ensures timer < MOD
  {
    Grows(n, timer);
    assert n * timer == timer * n;
  }

  /** No other id names the same timer of the same loop. */
  lemma OnlyId(timer: Word, loop: Word, n: Size)
    requires loop < n && Fits(timer, loop, n)
    ensures var id := Encode(timer, loop, n);
            && LoopOf(id, n) == loop && TimerOf(id, n) == timer
            && forall x: Word :: LoopOf(x, n) == loop && TimerOf(x, n) == timer ==> x == id
  {
    DecodeIffNoOverflow(timer, loop, n);
    forall x: Word | LoopOf(x, n) == loop && TimerOf(x, n) == timer
      ensures x == Encode(timer, loop, n)
    {
      EncodeDecode(x, n);
    }
  }

  // ------------------------------------------------------------- round robin

  /** The loop that the fetch_add with ticket `k`, counted from counter value
      `c`, picks; the counter wraps at 2^64. */
  function Pick(c: Word, k: nat, n: Size): nat { (c + k) % MOD % n }

  /** How often loop `l` is picked by `m` consecutive tickets. */
  function Count(c: Word, m: nat, n: Size, l: nat): nat {
    if m == 0 then 0 else Count(c, m - 1, n, l) + (if Pick(c, m - 1, n) == l then 1 else 0)
  }

  /** Every loop gets its share, rounded down or up. */
  ghost predicate Fair(c: Word, m: nat, n: Size) {
    forall l: nat :: l < n ==> m / n <= Count(c, m, n, l) <= m / n + (if m % n == 0 then 0 else 1)
  }

  /** The tickets below `x` that are `l` modulo `n`. */
  function Hits(x: nat, n: Size, l: nat): nat
    requires l < n
  {
    (x + n - 1 - l) / n
  }

  lemma HitsAt(x: nat, n: Size, l: nat)
    requires l < n
    ensures Hits(x, n, l) == x / n + (if l < x % n then 1 else 0)
  {
    var q, r := x / n, x % n;
    assert x == n * q + r && n * q == q * n;
    if l < r {
      assert (q + 1) * n == q * n + n;
      DivModUnique(x + n - 1 - l, n, q + 1, r - 1 - l);
    } else {
      DivModUnique(x + n - 1 - l, n, q, r + n - 1 - l);
    }
  }

  lemma Successor(x: nat, n: Size)
    ensures x % n == n - 1 ==> (x + 1) / n == x / n + 1 && (x + 1) % n == 0
    ensures x % n != n - 1 ==> (x + 1) / n == x / n && (x + 1) % n == x % n + 1
  {
    var q, r := x / n, x % n;
    assert x == n * q + r && n * q == q * n;
    if r == n - 1 {
      assert (q + 1) * n == q * n + n;
      DivModUnique(x + 1, n, q + 1, 0);
    } else {
      DivModUnique(x + 1, n, q, r + 1);
    }
  }

  lemma HitsStep(x: nat, n: Size, l: nat)
    requires l < n
    ensures Hits(x + 1, n, l) == Hits(x, n, l) + (if x % n == l then 1 else 0)
  {
    HitsAt(x, n, l);
    HitsAt(x + 1, n, l);
    Successor(x, n);
    hide Hits;
  }

  lemma {:induction false} CountIsHits(c: Word, m: nat, n: Size, l: nat)
    requires l < n
    requires forall k: nat :: k < m ==> Pick(c, k, n) == (c + k) % n
    ensures Count(c, m, n, l) == Hits(c + m, n, l) - Hits(c, n, l)
  {
    if m > 0 {
      CountIsHits(c, m - 1, n, l);
      HitsStep(c + m - 1, n, l);
      assert Pick(c, m - 1, n) == (c + (m - 1)) % n;
    }
  }

  lemma ShareOf(x: nat, m: nat, n: Size)
    ensures m / n <= (x + m) / n - x / n <= m / n + (if m % n == 0 then 0 else 1)
  {
    var q, r, s, t := x / n, x % n, m / n, m % n;
    assert x == n * q + r && m == n * s + t;
    assert (q + s) * n == n * q + n * s;
    if r + t < n {
      DivModUnique(x + m, n, q + s, r + t);
    } else {
      assert (q + s + 1) * n == (q + s) * n + n;
      DivModUnique(x + m, n, q + s + 1, r + t - n);
    }
  }

  lemma UnwrappedIsFair(c: Word, m: nat, n: Size)
    requires forall k: nat :: k < m ==> Pick(c, k, n) == (c + k) % n
    ensures Fair(c, m, n)
  {
    forall l: nat | l < n
      ensures m / n <= Count(c, m, n, l) <= m / n + (if m % n == 0 then 0 else 1)
    {
      CountIsHits(c, m, n, l);
      ShareOf(c + n - 1 - l, m, n);
    }
  }

  /** Before the counter wraps, any number of consecutive calls, from any
      starting value and by whatever threads, is shared out evenly. */
  lemma FairBeforeWrap(c: Word, m: nat, n: Size)
    requires c + m <= MOD
    ensures Fair(c, m, n)
  {
    hide Fair;
    forall k: nat | k < m
      ensures Pick(c, k, n) == (c + k) % n
    {
      assert (c + k) % MOD == c + k;
    }
    UnwrappedIsFair(c, m, n);
  }

  lemma WrapIsHarmless(x: nat, n: Size)
    requires MOD % n == 0
    ensures x % MOD % n == x % n
  {
    var q, r := x / MOD, x % MOD;
    var k := MOD / n;
    assert MOD == n * k;
    assert x == MOD * q + r;
    assert MOD * q == n * k * q == n * (k * q);
    var a, b := r / n, r % n;
    assert r == n * a + b;
    assert n * (k * q) + n * a == n * (k * q + a) == (k * q + a) * n;
    DivModUnique(x, n, k * q + a, b);
  }

  lemma {:induction false} CountGrows(c: Word, k: nat, m: nat, n: Size, l: nat)
    requires k <= m
    ensures Count(c, k, n, l) <= Count(c, m, n, l)
    decreases m
  {
    if k < m {
      CountGrows(c, k, m - 1, n, l);
    }
  }

  /** Otherwise: from the last ticket below 2^64 that picks loop 0, the calls up
      to and including the wrap pick loop 0 twice, and are at most n in all. */
  lemma UnfairAcrossWrap(n: Size)
    requires MOD % n != 0
    ensures exists c: Word, m: nat :: !Fair(c, m, n)
  {
    var r := MOD % n;
    var c := MOD - r;
    assert MOD == n * (MOD / n) + r;
    DivModUnique(c, n, MOD / n, 0);
    assert Pick(c, 0, n) == 0 && Pick(c, r, n) == 0 % n == 0;
    CountGrows(c, 1, r, n, 0);
    assert Count(c, 1, n, 0) == Count(c, 0, n, 0) + 1 == 1;
    assert Count(c, r + 1, n, 0) >= 2;
    if r + 1 == n {
      DivModUnique(r + 1, n, 1, 0);
    } else {
      DivModUnique(r + 1, n, 0, r + 1);
    }
    assert !Fair(c, r + 1, n);
  }

  /** The exact condition for the whole life of the counter: the number of
      loops divides 2^64. */
  lemma AlwaysFairIff(n: Size)
    ensures (forall c: Word, m: nat :: Fair(c, m, n)) <==> MOD % n == 0
  {
    if MOD % n == 0 {
      forall c: Word, m: nat
        ensures Fair(c, m, n)
      {
        forall k: nat | k < m
          ensures Pick(c, k, n) == (c + k) % n
        {
          WrapIsHarmless(c + k, n);
        }
        UnwrappedIsFair(c, m, n);
      }
    } else {
      UnfairAcrossWrap(n);
    }
  }

  // ------------------------------------------------------- loops in turn

  /** A loop as the group sees it: ids issued so far, timers not cancelled. */
  datatype Loop = Loop(issued: nat, live: set<nat>)

  datatype Group = Group(loops: seq<Loop>, next: Word)

  /** One ScheduleAfter or ScheduleEvery: a new timer on the loop whose turn it is. */
  function Scheduled(g: Group): (r: Group)
    requires 0 < |g.loops| < MOD
    ensures |r.loops| == |g.loops|
  {
    var l := g.next % |g.loops|;
    var timer := g.loops[l].issued + 1;
    Group(g.loops[l := Loop(timer, g.loops[l].live + {timer})], (g.next + 1) % MOD)
  }

  function ScheduledTimes(g: Group, m: nat): (r: Group)
    requires 0 < |g.loops| < MOD
    ensures |r.loops| == |g.loops|
  {
    if m == 0 then g else Scheduled(ScheduledTimes(g, m - 1))
  }

  lemma NextAfter(c: Word, m: nat)
    ensures ((c + m) % MOD + 1) % MOD == (c + m + 1) % MOD
  {
  }

  lemma {:induction false} TurnsAreCounted(g: Group, m: nat, l: nat)
    requires 0 < |g.loops| < MOD && l < |g.loops|
    ensures var r := ScheduledTimes(g, m);
            && r.next == (g.next + m) % MOD
            && r.loops[l].issued == g.loops[l].issued + Count(g.next, m, |g.loops|, l)
  {
    if m > 0 {
      TurnsAreCounted(g, m - 1, l);
      NextAfter(g.next, m - 1);
      assert ScheduledTimes(g, m - 1).next % |g.loops| == Pick(g.next, m - 1, |g.loops|);
    }
  }

  /** Any number of consecutive calls before the counter wraps give every loop
      its share of new timers, rounded down or up. */
  lemma SchedulesAreFair(g: Group, m: nat, l: nat)
    requires 0 < |g.loops| < MOD && l < |g.loops| && g.next + m <= MOD
    ensures var n := |g.loops|;
            var added := ScheduledTimes(g, m).loops[l].issued - g.loops[l].issued;
            m / n <= added <= m / n + (if m % n == 0 then 0 else 1)
  {
    TurnsAreCounted(g, m, l);
    FairBeforeWrap(g.next, m, |g.loops|);
  }
}

module EventLoopGroup {
  import opened GroupArithmetic

  class EventLoopGroup {
    var loops: seq<Loop>
    var next: Word

    /** The group ids returned so far. */
    ghost var issued: set<Word>

    ghost function View(): Group
      reads this
    {
      Group(loops, next)
    }

    /** Ids are issued from 1 on, and their group ids fit into 64 bits. */
    ghost predicate Valid()
      reads this
    {
      && 0 < |loops| < MOD
      && (forall id: Word :: id in issued <==> 1 <= TimerOf(id, |loops|) <= loops[LoopOf(id, |loops|)].issued)
      && forall l :: 0 <= l < |loops| ==>
           && Fits(loops[l].issued, l, |loops|)
           && forall t :: t in loops[l].live ==> 1 <= t <= loops[l].issued
    }

    /** The timer that the group id names is pending. */
    ghost predicate Pending(id: Word)
      requires 0 < |loops| < MOD
      reads this
    {
      TimerOf(id, |loops|) in loops[LoopOf(id, |loops|)].live
    }

    method Next() returns (loop: nat)
      requires 0 < |loops| < MOD
      modifies this`next
      ensures loop == old(next) % |loops| && next == (old(next) + 1) % MOD
      ensures loop < |loops|
    {
      loop := next % |loops|;
      next := (next + 1) % MOD;
    }

    /** ScheduleAfter and ScheduleEvery: an id that was never returned before,
        on whatever loop, and no other timer affected. */
    method Schedule() returns (id: Word)
      requires Valid()
      requires forall l :: 0 <= l < |loops| ==> Fits(loops[l].issued + 1, l, |loops|)
      modifies this
      ensures Valid() && |loops| == old(|loops|)
      ensures View() == Scheduled(old(View()))
      ensures LoopOf(id, |loops|) == old(next) % |loops| && next == (old(next) + 1) % MOD
      ensures TimerOf(id, |loops|) == old(loops[next % |loops|].issued) + 1
      ensures id !in old(issued) && issued == old(issued) + {id} && !old(Pending(id))
      ensures forall x: Word :: Pending(x) <==> old(Pending(x)) || x == id
    {
      hide Encode, LoopOf, TimerOf, Fits;
      var n: Size := |loops|;
      var l := Next();
      var timer := loops[l].issued + 1;
      FitsWord(timer, l, n);
      OnlyId(timer, l, n);
      id := Encode(timer, l, n);
      loops := loops[l := Loop(timer, loops[l].live + {timer})];
      issued := issued + {id};
    }

    /** Exactly the timer named by the id is cancelled, on no other loop and
        under no other id. */
    method ScheduleCancel(id: Word)
      requires Valid()
      modifies this`loops
      ensures Valid() && |loops| == old(|loops|)
      ensures forall x: Word :: Pending(x) <==> old(Pending(x)) && x != id
    {
      var n: Size := |loops|;
      var l := id % n;
      var timer := id / n;
      loops := loops[l := loops[l].(live := loops[l].live - {timer})];
      EncodeDecode(id, n);
      forall x: Word
        ensures Pending(x) <==> old(Pending(x)) && x != id
      {
        EncodeDecode(x, n);
      }
    }
  }
}
