/** The two locked queues as objects whose methods run without interference;
    `script[k]` lists what the k-th callback of a Process adds to the queue. */
module EventDoubleBufferQueue {
  import opened LockedQueues
  import opened Options

  class EventDoubleBufferQueue {
    var pending: seq<Callback>
    var running: seq<Callback>
    var fd: nat

    ghost var added: seq<Callback>
    ghost var done: seq<Callback>

    /** The state as seen by an outsider, between two calls. */
    ghost function View(cpc: Consumer): State
      reads this
    {
      State(pending, running, fd, None, map[], cpc, added, done)
    }

    method Add(callback: Callback)
      modifies this`pending, this`fd, this`added
      ensures pending == old(pending) + [callback] && added == old(added) + [callback]
      ensures fd == if old(pending) == [] then Bump(old(fd)) else old(fd)
    {
      pending := pending + [callback];
      added := added + [callback];
      if |pending| == 1 {
        fd := Bump(fd);
      }
    }

    method AddAll(callbacks: seq<Callback>)
      requires pending != [] ==> fd > 0
      modifies this`pending, this`fd, this`added
      ensures pending == old(pending) + callbacks && added == old(added) + callbacks
      ensures pending != [] ==> fd > 0
    {
      var i := 0;
      while i < |callbacks|
        invariant i <= |callbacks| && (pending != [] ==> fd > 0)
        invariant pending == old(pending) + callbacks[..i] && added == old(added) + callbacks[..i]
      {
        Add(callbacks[i]);
        i := i + 1;
      }
    }

    /** Process, from HandleEvents: exactly what was pending runs; what the
        callbacks add waits, with the eventfd written. */
    method Process(script: seq<seq<Callback>>)
      requires Inv(DoubleBuffer, View(Taking))
      modifies this
      ensures Inv(DoubleBuffer, View(Selecting))
      ensures done == old(done) + old(pending) && running == []
      ensures pending == Spawned(script, |old(pending)|) && added == old(added) + pending
      ensures pending != [] ==> fd > 0
    {
      RunPending(script);
      assert old(done) + [] + old(pending) == old(added);
      assert done + [] + pending == added;
    }

    /** The loop of Process. */
    method RunPending(script: seq<seq<Callback>>)
      requires running == []
      modifies this
      ensures done == old(done) + old(pending) && running == []
      ensures pending == Spawned(script, |old(pending)|) && added == old(added) + pending
      ensures pending != [] ==> fd > 0
    {
      hide Spawned;
      NothingSpawned(script);
      var i := 0;
      pending, running := running, pending;
      while i < |running|
        invariant i <= |running| && running == old(pending)
        invariant done == old(done) + running[..i]
        invariant pending == Spawned(script, i) && added == old(added) + pending && (pending != [] ==> fd > 0)
      {
        done := done + [running[i]];
        SpawnedMore(old(added), script, i);
        if i < |script| {
          AddAll(script[i]);
        }
        i := i + 1;
      }
      running := [];
    }
  }
}

module EventBlockingQueue {
  import opened LockedQueues
  import opened Options

  class EventBlockingQueue {
    var queue: seq<Callback>
    var fd: nat

    ghost var added: seq<Callback>
    ghost var done: seq<Callback>

    ghost function View(cpc: Consumer): State
      reads this
    {
      State(queue, [], fd, None, map[], cpc, added, done)
    }

    method Add(callback: Callback)
      modifies this`queue, this`fd, this`added
      ensures queue == old(queue) + [callback] && added == old(added) + [callback]
      ensures fd == if old(queue) == [] then Bump(old(fd)) else old(fd)
    {
      queue := queue + [callback];
      added := added + [callback];
      if |queue| == 1 {
        fd := Bump(fd);
      }
    }

    method AddAll(callbacks: seq<Callback>)
      modifies this`queue, this`fd, this`added
      ensures queue == old(queue) + callbacks && added == old(added) + callbacks
    {
      var i := 0;
      while i < |callbacks|
        invariant i <= |callbacks|
        invariant queue == old(queue) + callbacks[..i] && added == old(added) + callbacks[..i]
      {
        Add(callbacks[i]);
        i := i + 1;
      }
    }

    method Pop() returns (more: bool, callback: Callback)
      modifies this`queue
      ensures more == (old(queue) != [])
      ensures queue == if more then old(queue)[1..] else old(queue)
      ensures more ==> callback == old(queue)[0]
    {
      if queue == [] {
        return false, 0;
      }
      more, callback := true, queue[0];
      queue := queue[1..];
    }

    /** The loop of Process. */
    method RunAll(script: seq<seq<Callback>>)
      requires done + queue == added
      modifies this
      ensures queue == [] && done == added && old(done) + old(queue) <= done
      ensures |old(done)| <= |done| && added == old(added) + Spawned(script, |done| - |old(done)|)
    {
      hide Spawned;
      var calls := 0;
      NothingSpawned(script);
      while true
        invariant done + queue == added && |done| == |old(done)| + calls
        invariant added == old(added) + Spawned(script, calls)
        decreases if calls < |script| then |script| - calls else 0, |queue|
      {
        ghost var before := queue;
        var more, callback := Pop();
        if !more {
          break;
        }
        assert before == [callback] + queue;
        assert done + before == done + [callback] + queue;
        done := done + [callback];
        SpawnedMore(old(added), script, calls);
        if calls < |script| {
          ghost var rest := queue;
          AddAll(script[calls]);
          assert done + (rest + script[calls]) == done + rest + script[calls];
        }
        calls := calls + 1;
      }
      assert done + [] == done;
    }

    /** Process, from HandleEvents: everything runs, what the callbacks add as
        well. */
    method Process(script: seq<seq<Callback>>)
      requires Inv(Blocking, View(Taking))
      modifies this
      ensures Inv(Blocking, View(Selecting))
      ensures queue == [] && done == added && old(done) + old(queue) <= done
      ensures |old(done)| <= |done| && added == old(added) + Spawned(script, |done| - |old(done)|)
    {
      assert done + [] + queue == done + queue;
      RunAll(script);
      assert done + [] + [] == done;
    }
  }
}
