/** The poll(2) selector: an array of slots, compacted and partitioned in
    place, and an index from descriptors to slots. */
module PollerSpec {

  datatype Slot = Slot(fd: int, events: nat, revents: nat)

  datatype Locator = Locator(slot: nat, channel: nat)

  /** The slots whose descriptor is registered, in their order. */
  function Kept(buf: seq<Slot>, fds: set<int>): seq<Slot>
    decreases |buf|
  {
    if buf == [] then []
    else
      var last := buf[|buf| - 1];
      Kept(buf[..|buf| - 1], fds) + if last.fd in fds then [last] else []
  }

  lemma {:induction false} KeptOnly(buf: seq<Slot>, fds: set<int>)
    ensures |Kept(buf, fds)| <= |buf|
    ensures forall x :: x in Kept(buf, fds) ==> x.fd in fds
    ensures forall x :: multiset(Kept(buf, fds))[x] == if x.fd in fds then multiset(buf)[x] else 0
    decreases |buf|
  {
    if buf != [] {
      var front := buf[..|buf| - 1];
      var last := buf[|buf| - 1];
      KeptOnly(front, fds);
      assert buf == front + [last];
      assert multiset(buf) == multiset(front) + multiset{last};
      if last.fd in fds {
        assert Kept(buf, fds) == Kept(front, fds) + [last];
      } else {
        assert Kept(buf, fds) == Kept(front, fds);
      }
    }
  }

  /** Where the k-th kept slot came from. */
  function Origins(buf: seq<Slot>, fds: set<int>): seq<nat>
    decreases |buf|
  {
    if buf == [] then []
    else
      Origins(buf[..|buf| - 1], fds) + if buf[|buf| - 1].fd in fds then [|buf| - 1] else []
  }

  /** The relative order is kept: the k-th kept slot is a registered one of the
      old array, later ones come from later positions, and every registered
      one is among them. */
  lemma {:induction false} KeptInOrder(buf: seq<Slot>, fds: set<int>)
    ensures var o := Origins(buf, fds);
            && |o| == |Kept(buf, fds)|
            && (forall k :: 0 <= k < |o| ==> o[k] < |buf| && Kept(buf, fds)[k] == buf[o[k]] && buf[o[k]].fd in fds)
            && (forall j, k :: 0 <= j < k < |o| ==> o[j] < o[k])
            && (forall i: nat :: i < |buf| && buf[i].fd in fds ==> i in o)
    decreases |buf|
  {
    if buf != [] {
      KeptInOrder(buf[..|buf| - 1], fds);
    }
  }

  lemma KeptStep(buf: seq<Slot>, i: nat, fds: set<int>)
    requires i < |buf|
    ensures Kept(buf[..i + 1], fds) == Kept(buf[..i], fds) + if buf[i].fd in fds then [buf[i]] else []
  {
    assert buf[..i + 1][..i] == buf[..i];
  }

  // ----------------------------------------------------------------- polling

  /** The slots as poll leaves them. */
  function Answered(buf: seq<Slot>, answer: seq<nat>): (r: seq<Slot>)
    requires |answer| == |buf|
    ensures |r| == |buf| && forall i :: 0 <= i < |r| ==> r[i] == buf[i].(revents := answer[i])
  {
    seq(|buf|, i requires 0 <= i < |buf| => buf[i].(revents := answer[i]))
  }

  /** The slots with something to report; poll returns their number. */
  function Active(buf: seq<Slot>): multiset<Slot>
    decreases |buf|
  {
    if buf == [] then multiset{}
    else Active(buf[..|buf| - 1]) + (if buf[|buf| - 1].revents != 0 then multiset{buf[|buf| - 1]} else multiset{})
  }

  lemma {:induction false} ActiveCounts(buf: seq<Slot>)
    ensures forall x :: Active(buf)[x] == if x.revents != 0 then multiset(buf)[x] else 0
    decreases |buf|
  {
    if buf != [] {
      ActiveCounts(buf[..|buf| - 1]);
      assert buf == buf[..|buf| - 1] + [buf[|buf| - 1]];
      assert multiset(buf) == multiset(buf[..|buf| - 1]) + multiset{buf[|buf| - 1]};
    }
  }

  ghost predicate Split(buf: seq<Slot>, k: nat) {
    && k <= |buf|
    && (forall i :: 0 <= i < k ==> buf[i].revents != 0)
    && (forall i :: k <= i < |buf| ==> buf[i].revents == 0)
  }

  /** However the partition rearranges the slots, the first ones are those with
      something to report, each as often as it is there, and their number is
      what poll has returned. */
  lemma PrefixIsActive(polled: seq<Slot>, buf: seq<Slot>, k: nat)
    requires multiset(buf) == multiset(polled) && Split(buf, k)
    ensures multiset(buf[..k]) == Active(polled) && k == |Active(polled)|
  {
    ActiveCounts(polled);
    assert buf == buf[..k] + buf[k..];
    assert multiset(buf) == multiset(buf[..k]) + multiset(buf[k..]);
    forall x
      ensures multiset(buf[..k])[x] == Active(polled)[x]
    {
      if x.revents != 0 {
        assert x !in buf[k..];
      } else {
        assert x !in buf[..k];
      }
    }
    assert multiset(buf[..k]) == Active(polled);
    assert |multiset(buf[..k])| == k;
  }

  /** Locators agree with the slots. */
  ghost predicate Located(buf: seq<Slot>, channels: map<int, Locator>) {
    forall fd :: fd in channels ==> channels[fd].slot < |buf| && buf[channels[fd].slot].fd == fd
  }

  /** Every descriptor has one slot, and is registered. */
  ghost predicate OneSlotEach(buf: seq<Slot>, channels: map<int, Locator>) {
    && (forall i :: 0 <= i < |buf| ==> buf[i].fd in channels)
    && (forall i, j :: 0 <= i < j < |buf| ==> buf[i].fd != buf[j].fd)
  }

  /** A slot with nothing to report comes before one with something. */
  ghost predicate IdleBeforeReady(buf: seq<Slot>) {
    exists i, j :: 0 <= i < j < |buf| && buf[i].revents == 0 && buf[j].revents != 0
  }

  function Swapped(buf: seq<Slot>, i: nat, j: nat): seq<Slot>
    requires i < |buf| && j < |buf|
  {
    buf[i := buf[j]][j := buf[i]]
  }

  lemma OutOfPlace(buf: seq<Slot>, i: nat, j: nat)
    requires i < j < |buf| && buf[i].revents == 0 && buf[j].revents != 0
    ensures IdleBeforeReady(buf)
    ensures var r := Swapped(buf, i, j);
            && multiset(r) == multiset(buf) && |r| == |buf| && r[i] == buf[j] && r[j] == buf[i]
            && forall k :: 0 <= k < |buf| && k != i && k != j ==> r[k] == buf[k]
  {
  }

  /** Rearranged slots under right locators have not moved at all. */
  lemma LocatedIsUnmoved(polled: seq<Slot>, buf: seq<Slot>, channels: map<int, Locator>)
    requires OneSlotEach(polled, channels) && Located(polled, channels)
    requires multiset(buf) == multiset(polled) && Located(buf, channels)
    ensures buf == polled
  {
    assert |multiset(buf)| == |multiset(polled)|;
    forall i | 0 <= i < |polled|
      ensures buf[i] == polled[i]
    {
      var fd := polled[i].fd;
      assert channels[fd].slot == i && buf[i].fd == fd;
      assert buf[i] in multiset(polled) by { assert buf[i] in multiset(buf); }
      var j :| 0 <= j < |polled| && polled[j] == buf[i];
    }
  }

  lemma SplitIff(buf: seq<Slot>)
    ensures (exists k :: Split(buf, k)) <==> !IdleBeforeReady(buf)
  {
    if !IdleBeforeReady(buf) {
      var k := 0;
      while k < |buf| && buf[k].revents != 0
        invariant k <= |buf| && forall i :: 0 <= i < k ==> buf[i].revents != 0
      {
        k := k + 1;
      }
      assert Split(buf, k);
    }
  }

  /** Exactly when a partition can leave the locators right: as soon as an idle
      slot precedes a ready one, every way of putting the ready ones in front
      makes some locator wrong; otherwise leaving the slots alone is one that
      does not, and the only one. */
  lemma PartitionKeepsLocatorsIff(polled: seq<Slot>, channels: map<int, Locator>)
    requires OneSlotEach(polled, channels) && Located(polled, channels)
    ensures (exists buf, k :: multiset(buf) == multiset(polled) && Split(buf, k) && Located(buf, channels))
            <==> !IdleBeforeReady(polled)
    ensures forall buf :: multiset(buf) == multiset(polled) && Located(buf, channels) ==> buf == polled
  {
    forall buf | multiset(buf) == multiset(polled) && Located(buf, channels)
      ensures buf == polled
    {
      LocatedIsUnmoved(polled, buf, channels);
    }
    SplitIff(polled);
    if k :| Split(polled, k) {
      assert multiset(polled) == multiset(polled) && Split(polled, k) && Located(polled, channels);
    }
  }

  /** Update writes through the locator. */
  function Updated(buf: seq<Slot>, channels: map<int, Locator>, fd: int, events: nat): seq<Slot>
    requires fd in channels && channels[fd].slot < |buf|
  {
    var k := channels[fd].slot;
    buf[k := buf[k].(events := events)]
  }

  ghost predicate OthersUntouched(buf: seq<Slot>, after: seq<Slot>, fd: int) {
    |after| == |buf| && forall i :: 0 <= i < |buf| && buf[i].fd != fd ==> after[i] == buf[i]
  }

  lemma StraysUnlessLocated(buf: seq<Slot>, channels: map<int, Locator>, fd: int)
    requires fd in channels && channels[fd].slot < |buf|
    ensures (forall events: nat :: OthersUntouched(buf, Updated(buf, channels, fd, events), fd))
            <==> buf[channels[fd].slot].fd == fd
  {
    var k := channels[fd].slot;
    var after := Updated(buf, channels, fd, buf[k].events + 1);
    assert after[k] != buf[k];
  }

  /** What this means for Update: after a Wait has rearranged the slots, every
      Update of every registered descriptor leaves the slots of the others
      alone if and only if the slots have not moved; which takes that no idle
      slot preceded a ready one. */
  lemma UpdatesAreRightIff(polled: seq<Slot>, buf: seq<Slot>, channels: map<int, Locator>, k: nat)
    requires OneSlotEach(polled, channels) && Located(polled, channels)
    requires multiset(buf) == multiset(polled) && Split(buf, k)
    requires |buf| == |polled|
    ensures (forall fd, events: nat :: fd in channels ==> OthersUntouched(buf, Updated(buf, channels, fd, events), fd))
            <==> buf == polled
    ensures IdleBeforeReady(polled) ==> buf != polled
  {
    forall fd | fd in channels
      ensures (forall events: nat :: OthersUntouched(buf, Updated(buf, channels, fd, events), fd))
              <==> buf[channels[fd].slot].fd == fd
    {
      StraysUnlessLocated(buf, channels, fd);
    }
    if Located(buf, channels) {
      LocatedIsUnmoved(polled, buf, channels);
    }
    SplitIff(polled);
  }

  /** Locators that were right before the partition are so after it exactly if
      no idle slot preceded a ready one. */
  ghost predicate RightIffInPlace(polled: seq<Slot>, buf: seq<Slot>, channels: map<int, Locator>) {
    (OneSlotEach(polled, channels) && Located(polled, channels)) ==>
    (Located(buf, channels) <==> !IdleBeforeReady(polled))
  }

  lemma LocatedAfter(polled: seq<Slot>, buf: seq<Slot>, channels: map<int, Locator>, k: nat)
    requires multiset(buf) == multiset(polled) && Split(buf, k) && (!IdleBeforeReady(polled) ==> buf == polled)
    ensures RightIffInPlace(polled, buf, channels)
  {
    if OneSlotEach(polled, channels) && Located(polled, channels) {
      PartitionKeepsLocatorsIff(polled, channels);
    }
  }

  /** A partition is enough to make a right locator wrong. */
  lemma WaitCanMislead()
    ensures exists polled: seq<Slot>, buf: seq<Slot>, channels: map<int, Locator> ::
              && multiset(buf) == multiset(polled) && Split(buf, 1)
              && Located(polled, channels) && !Located(buf, channels)
  {
    var a, b := Slot(5, 0, 0), Slot(6, 0, 1);
    var polled, buf := [a, b], [b, a];
    var channels := map[5 := Locator(0, 0), 6 := Locator(1, 1)];
    assert multiset(buf) == multiset(polled);
    assert 5 in channels && buf[channels[5].slot].fd == 6;
    assert Located(polled, channels) && !Located(buf, channels);
    assert Split(buf, 1);
  }
}

module Poller {
  import opened Options
  import opened PollerSpec

  class Poller {
    var cleanable: bool
    var buf: seq<Slot>
    var ready: nat
    var channels: map<int, Locator>

    method Add(fd: int, channel: nat, events: nat)
      modifies this`buf, this`channels
      ensures buf == old(buf) + [Slot(fd, events, 0)]
      ensures channels == old(channels)[fd := Locator(|old(buf)|, channel)]
      ensures old(Located(buf, channels)) ==> Located(buf, channels)
    {
      buf := buf + [Slot(fd, events, 0)];
      channels := channels[fd := Locator(|buf| - 1, channel)];
    }

    method Remove(fd: int)
      modifies this`channels, this`cleanable
      ensures channels == old(channels) - {fd}
      ensures cleanable == (old(cleanable) || fd in old(channels))
      ensures old(Located(buf, channels)) ==> Located(buf, channels)
    {
      if fd in channels {
        channels := channels - {fd};
        cleanable := true;
      } else {
        assert channels - {fd} == channels;
      }
    }

    method Update(fd: int, events: nat)
      requires fd in channels ==> channels[fd].slot < |buf|
      modifies this`buf
      ensures fd !in channels ==> buf == old(buf)
      ensures fd in channels ==> buf == Updated(old(buf), channels, fd, events)
      ensures |buf| == |old(buf)|
      ensures fd in channels ==>
                var k := channels[fd].slot;
                buf[k].events == events && buf[k].fd == old(buf)[k].fd && buf[k].revents == old(buf)[k].revents
      ensures old(Located(buf, channels)) ==> Located(buf, channels) && OthersUntouched(old(buf), buf, fd)
    {
      if fd in channels {
        var k := channels[fd].slot;
        buf := buf[k := buf[k].(events := events)];
      }
    }

    /** Compaction in place.  Locators are right afterwards, however wrong they
        were, for every descriptor that has a slot; they keep their channels. */
    method CleanUp()
      modifies this`buf, this`channels
      ensures buf == Kept(old(buf), old(channels).Keys)
      ensures channels.Keys == old(channels).Keys
      ensures forall fd :: fd in channels ==> channels[fd].channel == old(channels)[fd].channel
      ensures forall fd, j :: fd in channels && 0 <= j < |old(buf)| && old(buf)[j].fd == fd
                              ==> channels[fd].slot < |buf| && buf[channels[fd].slot].fd == fd
    {
      ghost var before := buf;
      ghost var fds := channels.Keys;
      ghost var seen: set<int> := {};
      var head, i := 0, 0;
      while i < |buf|
        invariant head <= i <= |buf| == |before|
        invariant buf[..head] == Kept(before[..i], fds) && buf[i..] == before[i..]
        invariant channels.Keys == fds
        invariant forall fd :: fd in channels ==> channels[fd].channel == old(channels)[fd].channel
        invariant forall j :: 0 <= j < i ==> before[j].fd in seen
        invariant forall fd :: fd in channels && fd in seen
                               ==> channels[fd].slot < head && buf[channels[fd].slot].fd == fd
      {
        KeptStep(before, i, fds);
        var p := buf[i];
        assert p == before[i];
        if p.fd in channels {
          buf := buf[head := p];
          channels := channels[p.fd := channels[p.fd].(slot := head)];
          head := head + 1;
        }
        seen := seen + {p.fd};
        i := i + 1;
      }
      assert before[..i] == before;
      buf := buf[..head];
    }

    /** std::partition on the slots with something to report, as it works from
        both ends: an idle slot is exchanged for a ready one behind it. */
    method Partition() returns (k: nat)
      modifies this`buf
      ensures multiset(buf) == multiset(old(buf)) && k <= |buf| && Split(buf, k)
      ensures !IdleBeforeReady(old(buf)) ==> buf == old(buf)
    {
      k := 0;
      var j := |buf|;
      while k < j
        invariant k <= j <= |buf| && multiset(buf) == multiset(old(buf))
        invariant forall i :: 0 <= i < k ==> buf[i].revents != 0
        invariant forall i :: j <= i < |buf| ==> buf[i].revents == 0
        invariant !IdleBeforeReady(old(buf)) ==> buf == old(buf)
        decreases j - k
      {
        hide IdleBeforeReady, Swapped;
        if buf[k].revents != 0 {
          k := k + 1;
        } else if buf[j - 1].revents == 0 {
          j := j - 1;
        } else {
          j := j - 1;
          OutOfPlace(buf, k, j);
          buf := Swapped(buf, k, j);
          k := k + 1;
        }
      }
    }

    /** Wait, with the answers of poll by position, or a failure of poll. */
    method Wait(answer: seq<nat>, fails: bool) returns (ok: bool)
      requires |answer| >= |buf|
      modifies this
      ensures ok == !fails && channels.Keys == old(channels).Keys
      ensures fails ==> ready == 0
      ensures var kept := if old(cleanable) then Kept(old(buf), old(channels).Keys) else old(buf);
              && |kept| <= |answer|
              && (fails ==> buf == kept)
              && (!fails ==>
                    var polled := Answered(kept, answer[..|kept|]);
                    && multiset(buf) == multiset(polled) && ready <= |buf|
                    && multiset(buf[..ready]) == Active(polled)
                    && RightIffInPlace(polled, buf, channels))
    {
      hide Kept, Active, Split, RightIffInPlace, IdleBeforeReady;
      KeptOnly(buf, channels.Keys);
      if cleanable {
        CleanUp();
      }
      ready := 0;
      if fails {
        return false;
      }
      buf := Answered(buf, answer[..|buf|]);
      ghost var polled := buf;
      var k := Partition();
      PrefixIsActive(polled, buf, k);
      LocatedAfter(polled, buf, channels, k);
      ready := k;
      ok := true;
    }

    /** Get: nobody, if the channel was removed since the last Wait. */
    method Get(index: nat) returns (channel: Option<nat>, revents: nat)
      requires index < |buf|
      ensures channel.Some? <==> buf[index].fd in channels
      ensures channel.Some? ==> channel.value == channels[buf[index].fd].channel && revents == buf[index].revents
    {
      var p := buf[index];
      if p.fd in channels {
        return Some(channels[p.fd].channel), p.revents;
      }
      return None, 0;
    }
  }
}
