/** TcpConnection, SocketChannel and the selector as objects.  Each method runs
    on the loop's thread without interference and amounts to the events of
    TcpSpec named in its contract. */
module TcpConnection {
  import opened Options
  import opened TcpSpec

  /** The part of a selector that concerns one channel. */
  class Selector {
    var registered: bool
    var interest: Interest

    constructor ()
      ensures !registered && interest == NONE
    {
      registered := false;
      interest := NONE;
    }

    method Add(events: Interest)
      modifies this
      ensures registered && interest == events
    {
      registered, interest := true, events;
    }

    method Update(events: Interest)
      modifies this
      ensures registered == old(registered) && interest == (if registered then events else old(interest))
    {
      if registered {
        interest := events;
      }
    }

    method Remove()
      modifies this
      ensures !registered && interest == old(interest)
    {
      registered := false;
    }
  }

  class SocketChannel {
    const selector: Selector
    var events: Interest

    constructor (selector: Selector)
      ensures this.selector == selector && events == NONE
    {
      this.selector := selector;
      events := NONE;
    }

    ghost function View(): Channel
      reads this, selector
    {
      Channel(events, selector.registered, selector.interest)
    }

    method SetWritable(on: bool)
      modifies this, selector
      ensures View() == SetEvents(old(View()), old(events).(write := on))
    {
      var before := events;
      events := events.(write := on);
      if before != events {
        selector.Update(events);
      }
    }

    method SetReadable(on: bool)
      modifies this, selector
      ensures View() == SetEvents(old(View()), old(events).(read := on))
    {
      var before := events;
      events := events.(read := on);
      if before != events {
        selector.Update(events);
      }
    }
  }

  /** What OnWriteComplete may call, with the socket's answer to a send. */
  datatype Call =
    | CallSend(buffer: seq<Byte>, answer: Outcome)
    | CallShutdown
    | CallForceShutdown
    | CallClose
    | CallForceClose

  predicate Fits(call: Call) {
    call.CallSend? && call.answer.Wrote? ==> call.answer.n <= |call.buffer|
  }

  /** The events of each such call, made on the loop's thread, where the task
      runs at once. */
  function AfterSend(c: Conn, buffer: seq<Byte>, answer: Outcome): (r: Conn)
    requires c.sending.None? && (answer.Wrote? ==> answer.n <= |buffer|)
    ensures r.sending.None? && r.completing == c.completing
  {
    var c1 := Apply(c, BeginSend(buffer));
    if c1.sending.None? then c1 else Apply(c1, FinishSend(answer))
  }

  function AfterShutdown(c: Conn): (r: Conn)
    requires c.sending.None?
    ensures r.sending.None? && r.completing == c.completing
  {
    var c1 := Apply(c, ShutdownCas);
    if c1 == c then c else Apply(c1, ShutdownTask)
  }

  function AfterForceShutdown(c: Conn): (r: Conn)
    requires c.sending.None?
    ensures r.sending.None? && r.completing == c.completing
  {
    var c1 := Apply(c, ForceShutdownSet);
    if c1 == c then c else Apply(c1, ForceShutdownTask)
  }

  lemma ForceShutdownIs(c: Conn)
    requires c.sending.None?
    ensures AfterForceShutdown(c) ==
            if c.phase == Disconnected then c
            else CloseWrite(TcpSpec.SetWritable(c.(phase := Disconnecting, log := c.log.(forced := true)), false))
  {
    var c1 := Apply(c, ForceShutdownSet);
    assert c.phase != Disconnected ==> c1.posted.forceShutdowns == c.posted.forceShutdowns + 1;
  }

  function AfterClose(c: Conn): (r: Conn)
    requires c.sending.None?
    ensures r.sending.None? && r.completing == c.completing
  {
    var c1 := Apply(c, CloseCas);
    if c1 == c then c else Apply(c1, CloseTask)
  }

  function AfterForceClose(c: Conn): (r: Conn)
    requires c.sending.None?
    ensures r.sending.None? && r.completing == c.completing
  {
    var c1 := Apply(c, ForceCloseSet);
    if c1 == c then c else Apply(c1, ForceCloseTask)
  }

  function Reply(c: Conn, call: Call): (r: Conn)
    requires c.sending.None? && Fits(call)
    ensures r.sending.None? && r.completing == c.completing
  {
    match call
    case CallSend(buffer, answer) => AfterSend(c, buffer, answer)
    case CallShutdown => AfterShutdown(c)
    case CallForceShutdown => AfterForceShutdown(c)
    case CallClose => AfterClose(c)
    case CallForceClose => AfterForceClose(c)
  }

  function Replies(c: Conn, calls: seq<Call>): (r: Conn)
    requires c.sending.None? && forall i :: 0 <= i < |calls| ==> Fits(calls[i])
    ensures r.sending.None? && r.completing == c.completing
    decreases |calls|
  {
    if calls == [] then c else Replies(Reply(c, calls[0]), calls[1..])
  }

  class TcpConnection {
    const channel: SocketChannel
    var phase: Phase
    var output: seq<Byte>
    var shut: bool

    ghost var opening: bool
    ghost var sending: Option<seq<Byte>>
    ghost var completing: bool
    ghost var posted: Posted
    ghost var log: Log

    ghost const Repr := {this, channel, channel.selector}

    ghost function View(): Conn
      reads Repr
    {
      Conn(phase, output, channel.View(), opening, sending, completing, posted, shut, log)
    }

    /** Between two calls from the loop. */
    ghost predicate Resting()
      reads this
    {
      sending.None? && !completing && !opening
    }

    constructor ()
      ensures View() == FRESH && fresh(Repr)
    {
      var selector := new Selector();
      channel := new SocketChannel(selector);
      phase, output, shut := Connecting, [], false;
      opening, sending, completing := false, None, false;
      posted, log := Posted(0, 0, 0, 0), Log([], [], false, false, false);
    }

    /** The first Start connects, registers and asks to be told of the peer's
        bytes; one of a registered connection does nothing. */
    method Start()
      requires Resting()
      modifies Repr
      ensures View() == (var c := Apply(old(View()), Register); if c.opening then Apply(c, Opened) else c)
      ensures old(phase) == Connecting && !old(channel.selector.registered) && old(channel.events) == NONE
              ==> && phase == Connected && channel.selector.registered
                  && channel.selector.interest == channel.events == Interest(true, false)
      ensures old(channel.selector.registered) ==> View() == old(View())
      ensures channel.selector.registered && output == old(output) && shut == old(shut) && log == old(log)
    {
      if !channel.selector.registered {
        channel.selector.Add(NONE);
        if phase == Connecting {
          phase := Connected;
          channel.SetReadable(true);
        }
      }
    }

    /** Socket::Write, for the bytes the socket takes. */
    method Write(bytes: seq<Byte>)
      modifies this`log
      ensures View() == Put(old(View()), bytes)
    {
      log := log.(wire := log.wire + bytes, late := log.late || shut);
    }

    method CloseWrite()
      modifies this`shut, this`log
      ensures View() == TcpSpec.CloseWrite(old(View()))
    {
      shut := true;
      log := log.(cutOff := log.cutOff || output != [] || sending.Some?);
    }

    /** ForceClose on the loop's own thread, where the removal runs at once. */
    method ForceClose()
      modifies Repr
      ensures View() == TcpSpec.ForceClose(old(View()))
      ensures sending.None? ==> View() == AfterForceClose(old(View()))
    {
      if phase != Disconnected {
        phase := Disconnected;
        channel.selector.Remove();
      }
    }

    method HandleError(err: Errno)
      modifies Repr
      ensures View() == TcpSpec.HandleError(old(View()), err)
    {
      if err == NoError {
        ForceClose();
      }
    }

    method HandleClose()
      requires Resting()
      modifies Repr
      ensures View() == Apply(old(View()), Event.HandleClose)
    {
      ForceClose();
    }

    /** `answer` is what the socket says, should it be asked. */
    method HandleSend(buffer: seq<Byte>, answer: Outcome)
      requires sending.None? && (answer.Wrote? ==> answer.n <= |buffer|)
      modifies Repr
      ensures View() == AfterSend(old(View()), buffer, answer)
    {
      if phase != Connected {
        return;
      }
      log := log.(accepted := log.accepted + buffer);
      ghost var begun := View();
      var rest := buffer;
      if output == [] && buffer != [] {
        match answer {
          case Failed(err) =>
            if err != WouldBlock {
              HandleError(err);
            }
          case Wrote(n) =>
            Write(buffer[..n]);
            rest := buffer[n..];
        }
      }
      if rest != [] {
        output := output + rest;
        channel.SetWritable(true);
      }
      assert View() == Send(begun, buffer, answer);
    }

    /** Called on the loop's thread, where the task runs at once. */
    method Shutdown()
      requires sending.None?
      modifies Repr
      ensures View() == AfterShutdown(old(View()))
    {
      if phase != Connected {
        return;
      }
      phase := Disconnecting;
      if output == [] {
        channel.SetWritable(false);
        CloseWrite();
      }
    }

    method ForceShutdown()
      requires sending.None?
      modifies Repr
      ensures View() == AfterForceShutdown(old(View()))
    {
      ForceShutdownIs(View());
      hide Apply, AfterForceShutdown;
      if phase == Disconnected {
        return;
      }
      phase := Disconnecting;
      log := log.(forced := true);
      channel.SetWritable(false);
      CloseWrite();
    }

    method Close()
      requires sending.None?
      modifies Repr
      ensures View() == AfterClose(old(View()))
    {
      if phase != Connected {
        return;
      }
      phase := Disconnected;
      if output == [] {
        channel.selector.Remove();
      }
    }

    /** The handler, given by what it calls. */
    method OnWriteComplete(calls: seq<Call>)
      requires sending.None? && forall i :: 0 <= i < |calls| ==> Fits(calls[i])
      modifies Repr
      ensures View() == Replies(old(View()), calls)
    {
      hide Apply;
      var i := 0;
      assert calls[0..] == calls;
      while i < |calls|
        invariant i <= |calls| && sending.None?
        invariant Replies(View(), calls[i..]) == Replies(old(View()), calls)
      {
        assert calls[i..][1..] == calls[i + 1..];
        match calls[i] {
          case CallSend(buffer, answer) =>
            HandleSend(buffer, answer);
          case CallShutdown =>
            Shutdown();
          case CallForceShutdown =>
            ForceShutdown();
          case CallClose =>
            Close();
          case CallForceClose =>
            ForceClose();
        }
        i := i + 1;
      }
    }

    /** The end of handleWrite, when nothing is left. */
    method WriteCompleted(calls: seq<Call>)
      requires Resting() && output == [] && forall i :: 0 <= i < |calls| ==> Fits(calls[i])
      modifies Repr
      ensures View() == Apply(Replies(Complete(old(View())), calls), CheckPhase)
    {
      hide Reply, Replies;
      channel.SetWritable(false);
      completing := true;
      OnWriteComplete(calls);
      completing := false;
      if phase == Disconnecting {
        CloseWrite();
      }
    }

    /** `calls` are what OnWriteComplete does, if it comes to that. */
    method HandleWrite(answer: Outcome, calls: seq<Call>)
      requires Resting() && (answer.Wrote? ==> answer.n <= |output|)
      requires forall i :: 0 <= i < |calls| ==> Fits(calls[i])
      modifies Repr
      ensures var c := Apply(old(View()), Event.HandleWrite(answer));
              View() == if c.completing then Apply(Replies(c, calls), CheckPhase) else c
    {
      hide Reply, Replies;
      if !channel.events.write {
        return;
      }
      if output != [] {
        match answer {
          case Failed(err) =>
            HandleError(err);
            return;
          case Wrote(n) =>
            Write(output[..n]);
            output := output[n..];
        }
      }
      if output == [] {
        WriteCompleted(calls);
      }
    }
  }
}
