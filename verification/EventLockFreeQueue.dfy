/** The lock-free queue as an object whose methods run without interference;
    each is a run of the step relation of LockFreeQueue. */
module EventLockFreeQueue {
  import opened LockFreeQueue

  class EventLockFreeQueue {
    var queue: seq<Item>
    var size: Word
    var fd: nat

    ghost var pcs: map<nat, Producer>
    ghost var cpc: Consumer
    ghost var added: seq<Item>
    ghost var done: seq<Item>

    ghost function View(): State
      reads this
    {
      State(queue, size, fd, pcs, cpc, added, done)
    }

    method Add(p: nat, callback: Item)
      requires p in pcs && pcs[p] == Ready && callback.owner == p
      modifies this
      ensures Reachable(old(View())) ==> Reachable(View())
      ensures queue == old(queue) + [callback] && added == old(added) + [callback] && size == FetchAdd(old(size), 1)
      ensures pcs == old(pcs) && cpc == old(cpc) && done == old(done)
      ensures fd == old(fd) || (old(size) == 0 && fd == old(fd) + 1)
      ensures old(size) == 0 ==> fd > 0
    {
      hide Reachable, Next;
      ghost var s0 := View();
      queue := queue + [callback];
      added, pcs := added + [callback], pcs[p := Enqueued];
      ghost var s1 := View();
      var before := size;
      size := FetchAdd(size, 1);
      pcs := pcs[p := if before == 0 then Waking else Ready];
      ghost var s2 := View();
      if before == 0 {
        WakeUp();
        pcs := pcs[p := Ready];
      }
      if Reachable(s0) {
        ReachEnqueue(s0, s1, p, callback);
        ReachProducer(s1, s2, p);
        if before == 0 {
          ReachProducer(s2, View(), p);
        }
      }
    }

    /** EventChannel::WakeUp: the eventfd write. */
    method WakeUp()
      modifies this`fd
      ensures fd == if old(fd) + 1 < MOD - 1 then old(fd) + 1 else old(fd)
    {
      if fd + 1 < MOD - 1 {
        fd := fd + 1;
      }
    }

    /** The bulk dequeue; callers know it by its contract only. */
    method TryDequeueBulk(capacity: nat) returns (batch: seq<Item>)
      requires 1 <= capacity
      modifies this`queue
      ensures Splits(old(queue), batch, queue) && |batch| <= capacity
      ensures batch == [] <==> old(queue) == []
    {
      var n := if |queue| < capacity then |queue| else capacity;
      PrefixSplits(queue, n);
      batch := queue[..n];
      queue := queue[n..];
    }

    /** The loop over one buffer of callbacks. */
    method RunBatch(batch: seq<Item>)
      requires cpc == Running(batch)
      modifies this`cpc, this`done
      ensures Reachable(old(View())) ==> Reachable(View())
      ensures cpc == Running([]) && done == old(done) + batch
    {
      hide Reachable, Next;
      var i := 0;
      while i < |batch|
        invariant i <= |batch| && cpc == Running(batch[i..]) && done == old(done) + batch[..i]
        invariant Reachable(old(View())) ==> Reachable(View())
      {
        ghost var s := View();
        done, cpc := done + [batch[i]], Running(batch[i..][1..]);
        assert Call(s, View());
        if Reachable(s) {
          ReachConsumer(s, View());
        }
        i := i + 1;
      }
    }

    /** The rest of the loop body, once a batch is in the buffer. */
    method Serve(batch: seq<Item>)
      requires cpc == Taken(batch) && |batch| <= 32
      modifies this`size, this`cpc, this`done
      ensures Reachable(old(View())) ==> Reachable(View())
      ensures cpc == Dequeuing && done == old(done) + batch
    {
      hide Reachable, Next;
      ghost var s1 := View();
      size := FetchAdd(size, (MOD - |batch|) % MOD);
      cpc := Running(batch);
      ghost var s2 := View();
      assert Subtract(s1, s2);
      RunBatch(batch);
      ghost var s3 := View();
      cpc := Dequeuing;
      assert Again(s3, View());
      if Reachable(s1) {
        ReachConsumer(s1, s2);
        ReachConsumer(s3, View());
      }
    }

    /** Process: drain the queue in batches of 32. */
    method Process()
      requires cpc == Dequeuing
      modifies this
      ensures Reachable(old(View())) ==> Reachable(View())
      ensures cpc == SawEmpty && queue == [] && fd == old(fd) && added == old(added) && pcs == old(pcs)
      ensures forall p :: Proj(done, p) == Proj(old(done), p) + Proj(old(queue), p)
    {
      hide Reachable, Next;
      while true
        invariant cpc == Dequeuing && fd == old(fd) && added == old(added) && pcs == old(pcs)
        invariant Reachable(old(View())) ==> Reachable(View())
        invariant forall p :: Proj(done, p) + Proj(queue, p) == Proj(old(done), p) + Proj(old(queue), p)
        decreases |queue|
      {
        ghost var s := View();
        var batch := TryDequeueBulk(32);
        if batch == [] {
          cpc := SawEmpty;
          assert FindEmpty(s, View());
          if Reachable(s) {
            ReachConsumer(s, View());
          }
          return;
        }
        cpc := Taken(batch);
        assert Dequeue(s, View(), batch, queue);
        if Reachable(s) {
          ReachConsumer(s, View());
        }
        Serve(batch);
        forall p
          ensures Proj(done, p) + Proj(queue, p) == Proj(s.done, p) + Proj(s.queue, p)
        {
          ProjAppend(s.done, batch, p);
        }
      }
    }

    /** EventChannel::HandleEvents: drain the eventfd, then the queue. */
    method HandleEvents()
      requires cpc == Idle && fd > 0
      modifies this
      ensures Reachable(old(View())) ==> Reachable(View())
      ensures cpc == Idle && queue == [] && fd == 0 && added == old(added)
      ensures forall p :: Proj(done, p) == Proj(old(done), p) + Proj(old(queue), p)
    {
      hide Reachable, Next;
      ghost var s := View();
      fd, cpc := 0, Dequeuing;
      ghost var s1 := View();
      assert ReadEvent(s, s1);
      Process();
      ghost var s2 := View();
      cpc := Idle;
      assert Leave(s2, View());
      if Reachable(s) {
        ReachConsumer(s, s1);
        ReachConsumer(s2, View());
      }
    }
  }
}
