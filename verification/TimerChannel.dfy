/** TimerChannel: which requests re-arm the timerfd, and what that costs, for
    requests that come one after another.  What becomes of it when callers
    overtake each other is the subject of TimerArming. */
module TimerChannelSpec {

  const MIN64: int := -0x8000_0000_0000_0000
  const MAX64: int := 0x7fff_ffff_ffff_ffff
  const SLACK: int := 100

  type Int64 = x: int | MIN64 <= x <= MAX64

  /** Two's complement, for the subtraction and std::abs of WakeUpAfter. */
  function Wrap(x: int): Int64 {
    var m := (x - MIN64) % 0x1_0000_0000_0000_0000;
    m + MIN64
  }

  function Abs(x: Int64): Int64 { if x < 0 then Wrap(0 - x) else x }

  function Clamp(usec: Int64): Int64 { if usec < SLACK then SLACK else usec }

  /** The test of WakeUpAfter on the recorded duration `us`. */
  predicate Skips(usec: Int64, us: Int64) {
    Abs(Wrap(usec - us)) < 100 || usec > us
  }

  /** For every clamped duration, and whatever is recorded, sentinels included
      and overflow notwithstanding, a request is taken up exactly when it is
      shorter than the recorded one by the slack or more. */
  lemma SkipsIff(usec: Int64, us: Int64)
    requires usec >= SLACK
    ensures Skips(usec, us) <==> usec > us - SLACK
  {
  }

  /** After a firing, when nothing is recorded, every duration is taken up but
      the absurdly long; during the window of HandleEvents, none is. */
  lemma Sentinels(usec: Int64)
    requires usec >= SLACK
    ensures Skips(usec, MIN64)
    ensures Skips(usec, MAX64) <==> usec > MAX64 - SLACK
  {
    SkipsIff(usec, MIN64);
    SkipsIff(usec, MAX64);
  }

  /** What timerfd_settime gets.  A value of zero would disarm the timer. */
  datatype Timespec = Timespec(sec: int, nsec: int)

  function ToTimespec(usec: Int64): (v: Timespec)
    requires usec >= SLACK
    ensures v.sec * 1_000_000_000 + v.nsec == usec * 1000
    ensures 0 <= v.nsec < 1_000_000_000 && v.sec >= 0 && v != Timespec(0, 0)
  {
    Timespec(usec / 1_000_000, usec % 1_000_000 * 1000)
  }

  datatype Fd = Disarmed | ArmedUntil(instant: int)

  function SetTime(now: int, v: Timespec): Fd {
    if v == Timespec(0, 0) then Disarmed else ArmedUntil(now + (v.sec * 1_000_000_000 + v.nsec) / 1000)
  }

  datatype Channel = Channel(last: Int64, fd: Fd)

  const FRESH := Channel(MAX64, Disarmed)

  datatype Request = Request(now: int, duration: Int64)

  predicate Accepted(c: Channel, r: Request) { !Skips(Clamp(r.duration), c.last) }

  function WakeUpAfter(c: Channel, r: Request): Channel {
    if Accepted(c, r) then Channel(Clamp(r.duration), SetTime(r.now, ToTimespec(Clamp(r.duration)))) else c
  }

  function Serve(c: Channel, rs: seq<Request>): Channel
    decreases |rs|
  {
    if rs == [] then c else WakeUpAfter(Serve(c, rs[..|rs| - 1]), rs[|rs| - 1])
  }

  /** The requests taken up, in order. */
  function Arms(c: Channel, rs: seq<Request>): seq<Request>
    decreases |rs|
  {
    if rs == [] then []
    else
      var front := rs[..|rs| - 1];
      var r := rs[|rs| - 1];
      if Accepted(Serve(c, front), r) then Arms(c, front) + [r] else Arms(c, front)
  }

  /** Requests between two firings: the clock moves on, and none comes after
      the timer has expired. */
  predicate BetweenFirings(c: Channel, rs: seq<Request>)
    decreases |rs|
  {
    rs == [] ||
    var front := rs[..|rs| - 1];
    var r := rs[|rs| - 1];
    && BetweenFirings(c, front)
    && (front != [] ==> front[|front| - 1].now <= r.now)
    && (Serve(c, front).fd.ArmedUntil? ==> r.now <= Serve(c, front).fd.instant)
  }

  predicate Shrinking(arms: seq<Request>) {
    forall i :: 0 <= i < |arms| - 1 ==> Clamp(arms[i + 1].duration) <= Clamp(arms[i].duration) - SLACK
  }

  function Total(arms: seq<Request>): int {
    if arms == [] then 0 else Total(arms[..|arms| - 1]) + Clamp(arms[|arms| - 1].duration)
  }

  /** The channel after the requests `arms` have been taken up. */
  ghost predicate Matches(c: Channel, arms: seq<Request>) {
    && Shrinking(arms)
    && (arms == [] ==> c == FRESH)
    && (arms != [] ==>
          var final := arms[|arms| - 1];
          && c == Channel(Clamp(final.duration), ArmedUntil(final.now + Clamp(final.duration)))
          && c.fd.instant <= arms[0].now + Total(arms))
  }

  lemma MatchesStep(c: Channel, arms: seq<Request>, r: Request)
    requires Matches(c, arms) && (c.fd.ArmedUntil? ==> r.now <= c.fd.instant)
    ensures Matches(WakeUpAfter(c, r), if Accepted(c, r) then arms + [r] else arms)
  {
    if Accepted(c, r) {
      SkipsIff(Clamp(r.duration), c.last);
      hide Skips;
      var longer := arms + [r];
      assert longer[..|longer| - 1] == arms;
      assert Total(longer) == Total(arms) + Clamp(r.duration);
    }
  }

  lemma {:induction false} ServedState(rs: seq<Request>)
    requires BetweenFirings(FRESH, rs)
    ensures Matches(Serve(FRESH, rs), Arms(FRESH, rs))
    ensures Arms(FRESH, rs) != [] ==> rs != [] && Arms(FRESH, rs)[|Arms(FRESH, rs)| - 1].now <= rs[|rs| - 1].now
    decreases |rs|
  {
    if rs != [] {
      var front := rs[..|rs| - 1];
      ServedState(front);
      hide Matches, Accepted;
      MatchesStep(Serve(FRESH, front), Arms(FRESH, front), rs[|rs| - 1]);
    }
  }

  lemma {:induction false} ShrinkingBound(arms: seq<Request>)
    requires Shrinking(arms) && arms != []
    ensures Clamp(arms[|arms| - 1].duration) + SLACK * (|arms| - 1) <= Clamp(arms[0].duration)
    ensures Total(arms) <= |arms| * Clamp(arms[0].duration) - 50 * |arms| * (|arms| - 1)
    decreases |arms|
  {
    if |arms| > 1 {
      var front := arms[..|arms| - 1];
      ShrinkingBound(front);
      var n, d := |front|, Clamp(arms[0].duration);
      assert Clamp(front[|front| - 1].duration) - SLACK >= Clamp(arms[|arms| - 1].duration);
      assert (n + 1) * d - 50 * (n + 1) * n == n * d - 50 * n * (n - 1) + d - 100 * n;
    } else {
      assert arms[..0] == [];
    }
  }

  /** A request, told without the pieces above: what is asked for is at least
      100 microseconds; it is taken up if and only if that is shorter than what
      is recorded by 100 or more, and then the timer is due exactly so long
      after the request. */
  lemma RequestIs(c: Channel, r: Request)
    ensures var usec := if r.duration < 100 then 100 else r.duration;
            && (Accepted(c, r) <==> usec <= c.last - 100)
            && WakeUpAfter(c, r) == if usec <= c.last - 100 then Channel(usec, ArmedUntil(r.now + usec)) else c
  {
    SkipsIff(Clamp(r.duration), c.last);
  }

  /** From a first arm of d0 microseconds there are at most d0 / 100 arms until
      the timer fires, each shorter than the one before by 100 or more, and it
      fires no later than the sum of their durations after the first. */
  lemma ReArmsAreBounded(rs: seq<Request>)
    requires BetweenFirings(FRESH, rs) && Arms(FRESH, rs) != []
    ensures var arms := Arms(FRESH, rs);
            var d0 := if arms[0].duration < 100 then 100 else arms[0].duration;
            && (forall i :: 0 <= i < |arms| - 1 ==> arms[i + 1].duration <= arms[i].duration - 100)
            && 100 * |arms| <= d0
            && Serve(FRESH, rs).fd.ArmedUntil?
            && Serve(FRESH, rs).fd.instant <= arms[0].now + Total(arms)
            && Total(arms) <= |arms| * d0 - 50 * |arms| * (|arms| - 1)
  {
    ServedState(rs);
    hide Serve, Arms, Total, BetweenFirings;
    ShrinkingBound(Arms(FRESH, rs));
  }

  /** Every request, taken up or skipped, leaves the timer armed for less than
      100 microseconds after the instant it asked for, or for less than 200
      after the request if it asked for less than 100. */
  lemma EveryRequestIsServed(rs: seq<Request>, r: Request)
    requires BetweenFirings(FRESH, rs + [r]) && r.duration <= MAX64 - 100
    ensures var fd := Serve(FRESH, rs + [r]).fd;
            && fd.ArmedUntil?
            && (r.duration >= 100 ==> fd.instant < r.now + r.duration + 100)
            && (r.duration < 100 ==> fd.instant < r.now + 200)
  {
    assert (rs + [r])[..|rs|] == rs;
    ServedState(rs);
    RequestIs(Serve(FRESH, rs), r);
  }

  /** The other side of comparing durations and not instants.  A request that
      is taken up puts off the deadline of the last arm exactly when more time
      has passed since that arm than the new duration is shorter. */
  lemma {:induction false} PostponesIff(rs: seq<Request>, r: Request)
    requires BetweenFirings(FRESH, rs + [r]) && Arms(FRESH, rs) != [] && Accepted(Serve(FRESH, rs), r)
    ensures var c, arms := Serve(FRESH, rs), Arms(FRESH, rs);
            var final := arms[|arms| - 1];
            var usec := if r.duration < 100 then 100 else r.duration;
            && c.fd.ArmedUntil? && Serve(FRESH, rs + [r]).fd == ArmedUntil(r.now + usec)
            && c.last == (if final.duration < 100 then 100 else final.duration)
            && c.fd.instant == final.now + c.last
            && (r.now + usec > c.fd.instant <==> r.now - final.now > c.last - usec)
  {
    assert (rs + [r])[..|rs|] == rs;
    ServedState(rs);
    RequestIs(Serve(FRESH, rs), r);
  }

  /** It happens. */
  lemma ReArmCanPostpone()
    ensures exists rs, r :: BetweenFirings(FRESH, rs + [r]) && Serve(FRESH, rs).fd.ArmedUntil?
                            && Serve(FRESH, rs + [r]).fd.ArmedUntil?
                            && Serve(FRESH, rs + [r]).fd.instant > Serve(FRESH, rs).fd.instant
  {
    var r0, r1 := Request(0, 1000), Request(950, 900);
    assert [r0][..0] == [] && ([r0] + [r1])[..1] == [r0];
    assert Serve(FRESH, [r0]) == Channel(1000, ArmedUntil(1000));
    assert BetweenFirings(FRESH, [r0]);
    assert Serve(FRESH, [r0] + [r1]) == Channel(900, ArmedUntil(1850));
    assert BetweenFirings(FRESH, [r0] + [r1]);
  }
}

module TimerChannel {
  import opened TimerChannelSpec

  class TimerChannel {
    var last: Int64
    var fd: Fd

    /** What HandleEvents has stored in `last`, in order. */
    ghost var stores: seq<Int64>

    ghost function View(): Channel
      reads this
    {
      Channel(last, fd)
    }

    constructor ()
      ensures View() == FRESH && stores == []
    {
      last := MAX64;
      fd := Disarmed;
      stores := [];
    }

    /** The compare-and-swap loop.  `rivals` are the values other threads store
        between this thread's loads and its exchanges.  `over` is the value the
        exchange replaced: the decision is right for it, not only for what was
        loaded. */
    method WakeUpAfter(now: int, duration: Int64, rivals: seq<Int64>) returns (armed: bool, over: Int64)
      modifies this`last, this`fd
      ensures var usec := if duration < 100 then 100 else duration;
              if armed then
                usec <= over - 100 && last == usec && fd == ArmedUntil(now + usec) && (over == old(last) || over in rivals)
              else
                usec > last - 100 && fd == old(fd) && (last == old(last) || last in rivals)
      ensures rivals == [] ==> View() == TimerChannelSpec.WakeUpAfter(old(View()), Request(now, duration))
    {
      var usec := Clamp(duration);
      var i := 0;
      over := last;
      while true
        invariant i <= |rivals| && fd == old(fd) && (last == old(last) || last in rivals)
        invariant rivals == [] ==> last == old(last)
        decreases |rivals| - i
      {
        var us := last;
        SkipsIff(usec, us);
        if Skips(usec, us) {
          return false, us;
        }
        if i < |rivals| {
          last := rivals[i];
          i := i + 1;
        }
        if last == us {
          over, last := us, usec;
          break;
        }
      }
      fd := SetTime(now, ToTimespec(usec));
      armed := true;
    }

    method Store(us: Int64)
      modifies this`last, this`stores
      ensures last == us && stores == old(stores) + [us]
    {
      last := us;
      stores := stores + [us];
    }

    /** HandleEvents up to its callback, without interference: the window is
        opened, the timer read, the window closed; whatever had been recorded,
        the next request will be looked at afresh. */
    method HandleEvents()
      modifies this
      ensures last == MAX64 && fd == Disarmed && stores == old(stores) + [MIN64, MAX64]
    {
      Store(MIN64);
      fd := Disarmed;
      Store(MAX64);
    }
  }
}
