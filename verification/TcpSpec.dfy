/** The output side of TcpConnection as a state machine.

    One event is what happens between two accesses to the atomic `state_`, so
    that the compare-and-swap of another thread's Shutdown or Close may come at
    every place where the code can see it: in the middle of handleSend, and
    between OnWriteComplete and the test that follows it.  What the socket and
    GetError answer comes with the event.
 */
module TcpSpec {
  import opened Options

  type Byte = x: int | 0 <= x < 256

  datatype Phase = Connecting | Connected | Disconnecting | Disconnected

  datatype Errno = NoError | WouldBlock | OtherError

  datatype Outcome = Wrote(n: nat) | Failed(err: Errno)

  datatype Interest = Interest(read: bool, write: bool)

  const NONE := Interest(false, false)

  /** SocketChannel and its entry in the selector: the remembered interest,
      whether the selector contains the channel, and the interest it waits for. */
  datatype Channel = Channel(cached: Interest, registered: bool, interest: Interest)

  /** Tasks posted to the loop and not run yet. */
  datatype Posted = Posted(shutdowns: nat, forceShutdowns: nat, closes: nat, forceCloses: nat)

  /** History: bytes taken from senders, bytes given to the socket, whether the
      write end was ever shut with bytes left, whether a write was tried after
      that, whether ForceShutdown was called. */
  datatype Log = Log(accepted: seq<Byte>, wire: seq<Byte>, cutOff: bool, late: bool, forced: bool)

  /** `sending` is the buffer of a handleSend in progress; `opening` and
      `completing` say that the loop is in OnConnect, or in or past
      OnWriteComplete; `shut` that the write end has been shut. */
  datatype Conn = Conn(
    phase: Phase,
    output: seq<Byte>,
    channel: Channel,
    opening: bool,
    sending: Option<seq<Byte>>,
    completing: bool,
    posted: Posted,
    shut: bool,
    log: Log)

  const FRESH := Conn(Connecting, [], Channel(NONE, false, NONE), false, None, false, Posted(0, 0, 0, 0), false,
                      Log([], [], false, false, false))

  datatype Event =
    | Register
    | Opened
    | BeginSend(buffer: seq<Byte>)
    | FinishSend(sent: Outcome)
    | HandleWrite(written: Outcome)
    | CheckPhase
    | HandleClose
    | ShutdownCas | ShutdownTask
    | ForceShutdownSet | ForceShutdownTask
    | CloseCas | CloseTask
    | ForceCloseSet | ForceCloseTask

  // ----------------------------------------------------------------- pieces

  /** SocketChannel: the selector is told only when the set changes, and only
      has an effect on a channel it contains. */
  function SetEvents(ch: Channel, ev: Interest): Channel {
    if ev == ch.cached then ch
    else Channel(ev, ch.registered, if ch.registered then ev else ch.interest)
  }

  function SetWritable(c: Conn, on: bool): Conn {
    c.(channel := SetEvents(c.channel, c.channel.cached.(write := on)))
  }

  function SetReadable(c: Conn, on: bool): Conn {
    c.(channel := SetEvents(c.channel, c.channel.cached.(read := on)))
  }

  function CloseWrite(c: Conn): Conn {
    c.(shut := true, log := c.log.(cutOff := c.log.cutOff || c.output != [] || c.sending.Some?))
  }

  function Remove(c: Conn): Conn { c.(channel := c.channel.(registered := false)) }

  function ForceClose(c: Conn): Conn {
    if c.phase == Disconnected then c else Remove(c.(phase := Disconnected))
  }

  /** OnError is up to the user; only the absence of an error has an effect. */
  function HandleError(c: Conn, err: Errno): Conn {
    if err == NoError then ForceClose(c) else c
  }

  function Put(c: Conn, bytes: seq<Byte>): Conn {
    c.(log := c.log.(wire := c.log.wire + bytes, late := c.log.late || c.shut))
  }

  /** The end of handleSend: what the socket did not take is buffered. */
  function Buffer(c: Conn, rest: seq<Byte>): Conn {
    if rest == [] then c else SetWritable(c.(output := c.output + rest), true)
  }

  function Send(c: Conn, buffer: seq<Byte>, o: Outcome): Conn
    requires o.Wrote? ==> o.n <= |buffer|
  {
    if c.output == [] && buffer != [] then
      match o
      case Wrote(n) => Buffer(Put(c, buffer[..n]), buffer[n..])
      case Failed(err) => Buffer(if err == WouldBlock then c else HandleError(c, err), buffer)
    else
      Buffer(c, buffer)
  }

  function Complete(c: Conn): Conn {
    if c.output == [] then SetWritable(c, false).(completing := true) else c
  }

  function Drain(c: Conn, n: nat): Conn
    requires n <= |c.output|
  {
    Put(c, c.output[..n]).(output := c.output[n..])
  }

  /** handleWrite up to and including the call of OnWriteComplete. */
  function Flush(c: Conn, o: Outcome): Conn
    requires o.Wrote? ==> o.n <= |c.output|
  {
    if !c.channel.cached.write then c
    else if c.output == [] then Complete(c)
    else if o.Failed? then HandleError(c, o.err)
    else Complete(Drain(c, o.n))
  }

  // ----------------------------------------------------------------- events

  /** Tasks and socket events run on the loop's thread, one at a time; a
      Shutdown or Send called from OnWriteComplete runs inside handleWrite. */
  predicate Legal(c: Conn, e: Event) {
    match e
    case Register | HandleClose => c.sending.None? && !c.completing && !c.opening
    case Opened => c.sending.None? && c.opening
    case BeginSend(_) => c.sending.None?
    case FinishSend(o) => c.sending.Some? && (o.Wrote? ==> o.n <= |c.sending.value|)
    case HandleWrite(o) => c.sending.None? && !c.completing && !c.opening && (o.Wrote? ==> o.n <= |c.output|)
    case CheckPhase => c.sending.None? && c.completing
    case ShutdownTask => c.sending.None? && c.posted.shutdowns > 0
    case ForceShutdownTask => c.sending.None? && c.posted.forceShutdowns > 0
    case CloseTask => c.sending.None? && c.posted.closes > 0
    case ForceCloseTask => c.sending.None? && c.posted.forceCloses > 0
    case _ => true
  }

  function Apply(c: Conn, e: Event): Conn
    requires Legal(c, e)
  {
    match e
    case Register =>
      if c.channel.registered then c
      else
        var c1 := c.(channel := Channel(c.channel.cached, true, NONE));
        if c.phase == Connecting then c1.(phase := Connected, opening := true) else c1
    case Opened => SetReadable(c.(opening := false), true)
    case BeginSend(buffer) =>
      if c.phase != Connected then c else c.(sending := Some(buffer), log := c.log.(accepted := c.log.accepted + buffer))
    case FinishSend(o) => Send(c.(sending := None), c.sending.value, o)
    case HandleWrite(o) => Flush(c, o)
    case CheckPhase =>
      var c1 := c.(completing := false);
      if c.phase == Disconnecting then CloseWrite(c1) else c1
    case HandleClose => ForceClose(c)
    case ShutdownCas => if c.phase == Connected then c.(phase := Disconnecting, posted := c.posted.(shutdowns := c.posted.shutdowns + 1)) else c
    case ShutdownTask =>
      var c1 := c.(posted := c.posted.(shutdowns := c.posted.shutdowns - 1));
      if c.output == [] then CloseWrite(SetWritable(c1, false)) else c1
    case ForceShutdownSet =>
      if c.phase == Disconnected then c
      else c.(phase := Disconnecting, posted := c.posted.(forceShutdowns := c.posted.forceShutdowns + 1), log := c.log.(forced := true))
    case ForceShutdownTask => CloseWrite(SetWritable(c.(posted := c.posted.(forceShutdowns := c.posted.forceShutdowns - 1)), false))
    case CloseCas => if c.phase == Connected then c.(phase := Disconnected, posted := c.posted.(closes := c.posted.closes + 1)) else c
    case CloseTask =>
      var c1 := c.(posted := c.posted.(closes := c.posted.closes - 1));
      if c.output == [] then Remove(c1) else c1
    case ForceCloseSet =>
      if c.phase == Disconnected then c else c.(phase := Disconnected, posted := c.posted.(forceCloses := c.posted.forceCloses + 1))
    case ForceCloseTask => Remove(c.(posted := c.posted.(forceCloses := c.posted.forceCloses - 1)))
  }

  // ------------------------------------------------------------------- runs

  predicate LegalRun(c: Conn, es: seq<Event>)
    decreases |es|
  {
    es == [] || (Legal(c, es[0]) && LegalRun(Apply(c, es[0]), es[1..]))
  }

  function After(c: Conn, es: seq<Event>): Conn
    requires LegalRun(c, es)
    decreases |es|
  {
    if es == [] then c else After(Apply(c, es[0]), es[1..])
  }

  ghost predicate Reachable(c: Conn) {
    exists es :: LegalRun(FRESH, es) && After(FRESH, es) == c
  }

  lemma {:induction false} Append(c: Conn, es: seq<Event>, e: Event)
    requires LegalRun(c, es) && Legal(After(c, es), e)
    ensures LegalRun(c, es + [e]) && After(c, es + [e]) == Apply(After(c, es), e)
    decreases |es|
  {
    if es == [] {
      assert [e][1..] == [];
    } else {
      Append(Apply(c, es[0]), es[1..], e);
      assert (es + [e])[1..] == es[1..] + [e];
    }
  }

  lemma ReachStep(c: Conn, e: Event) returns (r: Conn)
    requires Reachable(c) && Legal(c, e)
    ensures r == Apply(c, e) && Reachable(r)
  {
    var es :| LegalRun(FRESH, es) && After(FRESH, es) == c;
    Append(FRESH, es, e);
    r := Apply(c, e);
  }

  // ----------------------------------------------------------- conservation

  function InTransit(c: Conn): seq<Byte> { if c.sending.Some? then c.sending.value else [] }

  /** Bytes on the wire, then bytes buffered, then the buffer in hand, are the
      accepted bytes in the order of acceptance. */
  predicate Conserved(c: Conn) {
    c.log.wire + c.output + InTransit(c) == c.log.accepted
  }

  /** What a piece of code does to the bytes: `out` of them go to the wire,
      and the rest of `bytes` is buffered. */
  lemma BufferBytes(c: Conn, rest: seq<Byte>)
    ensures var r := Buffer(c, rest);
            && r.output == c.output + rest
            && r.log.wire == c.log.wire && r.log.accepted == c.log.accepted && r.sending == c.sending
  {
  }

  lemma SendBytes(c: Conn, buffer: seq<Byte>, o: Outcome)
    requires o.Wrote? ==> o.n <= |buffer|
    ensures var r := Send(c, buffer, o);
            && r.log.accepted == c.log.accepted && r.sending == c.sending
            && ((r.log.wire == c.log.wire && r.output == c.output + buffer)
                || (c.output == [] && o.Wrote? && r.log.wire == c.log.wire + buffer[..o.n] && r.output == buffer[o.n..]))
  {
    if c.output == [] && buffer != [] {
      match o
      case Wrote(n) => BufferBytes(Put(c, buffer[..n]), buffer[n..]);
      case Failed(err) => BufferBytes(if err == WouldBlock then c else HandleError(c, err), buffer);
    } else {
      BufferBytes(c, buffer);
    }
  }

  predicate SameBytes(c: Conn, r: Conn) {
    r.log.wire == c.log.wire && r.output == c.output && r.sending == c.sending && r.log.accepted == c.log.accepted
  }

  lemma FlushBytes(c: Conn, o: Outcome)
    requires o.Wrote? ==> o.n <= |c.output|
    ensures SameBytes(c, Flush(c, o)) || (o.Wrote? && SameBytes(Drain(c, o.n), Flush(c, o)))
  {
  }

  lemma OtherBytes(c: Conn, e: Event)
    requires Legal(c, e) && !e.BeginSend? && !e.FinishSend? && !e.HandleWrite?
    ensures SameBytes(c, Apply(c, e))
  {
  }

  lemma Split(a: seq<Byte>, b: seq<Byte>, n: nat, tail: seq<Byte>)
    requires n <= |b|
    ensures a + b[..n] + b[n..] + tail == a + b + tail
  {
    assert b == b[..n] + b[n..];
    assert a + b[..n] + b[n..] == a + (b[..n] + b[n..]);
  }

  lemma FinishConserves(c: Conn, o: Outcome)
    requires Conserved(c) && Legal(c, FinishSend(o))
    ensures Conserved(Apply(c, FinishSend(o)))
  {
    var buffer := c.sending.value;
    SendBytes(c.(sending := None), buffer, o);
    hide Send;
    if o.Wrote? {
      Split(c.log.wire, buffer, o.n, []);
    }
    assert c.log.wire + c.output + buffer == c.log.wire + (c.output + buffer);
    assert c.output == [] ==> c.log.wire + c.output == c.log.wire;
  }

  lemma WriteConserves(c: Conn, o: Outcome)
    requires Conserved(c) && Legal(c, HandleWrite(o))
    ensures Conserved(Apply(c, HandleWrite(o)))
  {
    FlushBytes(c, o);
    hide Flush;
    if o.Wrote? {
      Split(c.log.wire, c.output, o.n, InTransit(c));
    }
  }

  lemma BeginConserves(c: Conn, buffer: seq<Byte>)
    requires Conserved(c) && Legal(c, BeginSend(buffer))
    ensures Conserved(Apply(c, BeginSend(buffer)))
  {
    assert c.log.wire + c.output + [] == c.log.wire + c.output;
  }

  lemma StepConserves(c: Conn, e: Event)
    requires Conserved(c) && Legal(c, e)
    ensures Conserved(Apply(c, e))
  {
    hide Apply, Legal;
    match e
    case BeginSend(buffer) => BeginConserves(c, buffer);
    case FinishSend(o) => FinishConserves(c, o);
    case HandleWrite(o) => WriteConserves(c, o);
    case _ => OtherBytes(c, e);
  }

  /** Whatever the socket does and whoever calls what, no byte is lost,
      repeated or moved. */
  lemma {:induction false} OutputIsConserved(c: Conn, es: seq<Event>)
    requires Conserved(c) && LegalRun(c, es)
    ensures Conserved(After(c, es))
    decreases |es|
  {
    if es != [] {
      StepConserves(c, es[0]);
      OutputIsConserved(Apply(c, es[0]), es[1..]);
    }
  }

  // --------------------------------------------------------- write interest

  /** Alive: registered for good, and ForceShutdown not called. */
  predicate Alive(c: Conn) { !c.log.forced && (c.phase == Connected || c.phase == Disconnecting) }

  /** The selector waits for the socket to become writable exactly when bytes
      are buffered. */
  predicate InterestExact(c: Conn) {
    c.channel.registered && c.channel.interest == c.channel.cached && (c.channel.interest.write <==> c.output != [])
  }

  predicate Settled(c: Conn) {
    && (c.phase == Connecting ==> !c.channel.registered && c.output == [] && c.channel.cached == NONE && c.sending.None? && !c.completing)
    && (Alive(c) ==> InterestExact(c))
    && (c.phase == Connected ==> !c.log.forced && c.posted.shutdowns == 0)
    && (c.phase == Connecting || c.phase == Connected ==> !c.shut && c.posted.closes == 0 && c.posted.forceCloses == 0)
    && (c.posted.forceShutdowns > 0 ==> c.log.forced)
    && (Alive(c) ==> c.posted.closes == 0 && c.posted.forceCloses == 0)
    && (c.phase == Disconnecting && !c.log.forced && c.sending.Some? ==> c.posted.shutdowns > 0)
    && (c.phase == Connecting ==> !c.opening && !c.log.forced && c.posted.shutdowns == 0)
    && ((c.phase == Disconnecting && !c.log.forced && !c.shut && c.posted.shutdowns == 0 && c.sending.None? && !c.completing)
        ==> c.output != [])
  }

  lemma TakenSettles(c: Conn, n: nat)
    requires Settled(c) && Legal(c, FinishSend(Wrote(n)))
    ensures Settled(Apply(c, FinishSend(Wrote(n))))
  {
  }

  lemma RefusedSettles(c: Conn, err: Errno)
    requires Settled(c) && Legal(c, FinishSend(Failed(err))) && err != NoError
    ensures Settled(Apply(c, FinishSend(Failed(err))))
  {
  }

  lemma DroppedSettles(c: Conn)
    requires Settled(c) && Legal(c, FinishSend(Failed(NoError)))
    ensures Settled(Apply(c, FinishSend(Failed(NoError))))
  {
  }

  lemma FinishSettles(c: Conn, o: Outcome)
    requires Settled(c) && Legal(c, FinishSend(o))
    ensures Settled(Apply(c, FinishSend(o)))
  {
    hide Settled, Apply;
    match o
    case Wrote(n) => TakenSettles(c, n);
    case Failed(err) =>
      if err == NoError {
        DroppedSettles(c);
      } else {
        RefusedSettles(c, err);
      }
  }

  lemma WriteSettles(c: Conn, o: Outcome)
    requires Settled(c) && Legal(c, HandleWrite(o))
    ensures Settled(Apply(c, HandleWrite(o)))
  {
  }

  lemma LoopSettles(c: Conn, e: Event)
    requires Settled(c) && Legal(c, e)
    requires e.Register? || e.Opened? || e.BeginSend? || e.CheckPhase? || e.HandleClose?
    ensures Settled(Apply(c, e))
  {
  }

  lemma ShutdownSettles(c: Conn, e: Event)
    requires Settled(c) && Legal(c, e)
    requires e.ShutdownCas? || e.ShutdownTask? || e.ForceShutdownSet? || e.ForceShutdownTask?
    ensures Settled(Apply(c, e))
  {
  }

  lemma CloseSettles(c: Conn, e: Event)
    requires Settled(c) && Legal(c, e)
    requires e.CloseCas? || e.CloseTask? || e.ForceCloseSet? || e.ForceCloseTask?
    ensures Settled(Apply(c, e))
  {
  }

  lemma StepSettles(c: Conn, e: Event)
    requires Settled(c) && Legal(c, e)
    ensures Settled(Apply(c, e))
  {
    hide Apply, Settled, Legal;
    match e
    case FinishSend(o) => FinishSettles(c, o);
    case HandleWrite(o) => WriteSettles(c, o);
    case Register | Opened | BeginSend(_) | CheckPhase | HandleClose => LoopSettles(c, e);
    case ShutdownCas | ShutdownTask | ForceShutdownSet | ForceShutdownTask => ShutdownSettles(c, e);
    case CloseCas | CloseTask | ForceCloseSet | ForceCloseTask => CloseSettles(c, e);
  }

  lemma {:induction false} RunSettles(c: Conn, es: seq<Event>)
    requires Settled(c) && LegalRun(c, es)
    ensures Settled(After(c, es))
    decreases |es|
  {
    if es != [] {
      StepSettles(c, es[0]);
      RunSettles(Apply(c, es[0]), es[1..]);
    }
  }

  /** In every run, while the connection is alive: it is registered, what the
      selector waits for is what the channel remembers, and it waits for
      writing if and only if bytes are buffered. */
  lemma WriteInterestIsExact(es: seq<Event>)
    requires LegalRun(FRESH, es) && Alive(After(FRESH, es))
    ensures InterestExact(After(FRESH, es))
  {
    RunSettles(FRESH, es);
  }

  // ---------------------------------------------------------- read interest

  /** Past OnConnect, the channel remembers an interest in reading. */
  predicate Reading(c: Conn) { Alive(c) && !c.opening ==> c.channel.cached.read }

  lemma StepReads(c: Conn, e: Event)
    requires Settled(c) && Reading(c) && Legal(c, e)
    ensures Reading(Apply(c, e))
  {
  }

  lemma {:induction false} RunReads(c: Conn, es: seq<Event>)
    requires Settled(c) && Reading(c) && LegalRun(c, es)
    ensures Settled(After(c, es)) && Reading(After(c, es))
    decreases |es|
  {
    hide Settled, Reading, Apply, Legal;
    if es != [] {
      StepSettles(c, es[0]);
      StepReads(c, es[0]);
      RunReads(Apply(c, es[0]), es[1..]);
    }
  }

  /** In every run, while the connection is alive and OnConnect is over, the
      selector waits for the peer's bytes. */
  lemma {:induction false} ReadsWhileAlive(es: seq<Event>)
    requires LegalRun(FRESH, es) && Alive(After(FRESH, es)) && !After(FRESH, es).opening
    ensures var ch := After(FRESH, es).channel;
            ch.registered && ch.interest.read
  {
    RunReads(FRESH, es);
  }

  // ---------------------------------------------------- sends and writes

  /** Somebody is connected, and the loop is in none of its handlers. */
  predicate Idle(c: Conn) {
    c.phase == Connected && c.sending.None? && !c.completing && !c.opening
  }

  /** A whole send.  With nothing buffered, the socket gets the buffer first;
      what it takes is on the wire, the rest is buffered and waited for.  With
      bytes buffered, nothing is written, and the buffer joins them. */
  lemma SendIs(es: seq<Event>, buffer: seq<Byte>, n: nat)
    requires LegalRun(FRESH, es) && Idle(After(FRESH, es)) && n <= |buffer|
    ensures var c := After(FRESH, es);
            var r := Apply(Apply(c, BeginSend(buffer)), FinishSend(Wrote(n)));
            && r.phase == Connected && r.sending.None? && r.log.accepted == c.log.accepted + buffer
            && (c.output == [] ==> r.log.wire == c.log.wire + buffer[..n] && r.output == buffer[n..])
            && (c.output != [] ==> r.log.wire == c.log.wire && r.output == c.output + buffer)
            && (r.channel.interest.write <==> r.output != [])
  {
    RunSettles(FRESH, es);
  }

  /** Once it is not connected any more, or not yet, a send changes nothing,
      and neither does Shutdown or Close; once it is disconnected, neither does
      anything that would end it. */
  lemma RefusedUnlessConnected(c: Conn, buffer: seq<Byte>)
    requires c.phase != Connected && Legal(c, BeginSend(buffer))
    ensures Apply(c, BeginSend(buffer)) == Apply(c, ShutdownCas) == Apply(c, CloseCas) == c
    ensures c.phase == Disconnected ==> Apply(c, ForceShutdownSet) == Apply(c, ForceCloseSet) == c
    ensures c.phase == Disconnected && Legal(c, HandleClose) ==> Apply(c, HandleClose) == c
  {
  }

  /** A writable event.  With bytes buffered, the socket gets all of them; what
      it takes is on the wire, and OnWriteComplete runs if that was the rest.
      With none, the selector was not waiting, and the event changes nothing. */
  lemma WriteIs(es: seq<Event>, n: nat)
    requires LegalRun(FRESH, es) && Idle(After(FRESH, es)) && n <= |After(FRESH, es).output|
    ensures var c := After(FRESH, es);
            var r := Apply(c, HandleWrite(Wrote(n)));
            && (c.output == [] ==> r == c)
            && (c.output != [] ==>
                  && r.log.wire == c.log.wire + c.output[..n] && r.output == c.output[n..]
                  && (r.completing <==> n == |c.output|)
                  && (r.channel.interest.write <==> n < |c.output|)
                  && r.phase == Connected && r.channel.registered && r.channel.interest.read)
  {
    RunReads(FRESH, es);
  }

  /** A writable event whose write fails: the connection is dropped exactly when
      GetError has no error; otherwise nothing changes, and the bytes are tried
      again. */
  lemma FailedWriteDropsIff(es: seq<Event>, err: Errno)
    requires LegalRun(FRESH, es) && Idle(After(FRESH, es)) && After(FRESH, es).output != []
    ensures var c := After(FRESH, es);
            var r := Apply(c, HandleWrite(Failed(err)));
            && (err == NoError <==> r.phase == Disconnected && !r.channel.registered)
            && (err != NoError ==> r == c)
            && r.output == c.output && r.log == c.log
  {
    RunSettles(FRESH, es);
  }

  /** A send that the socket refuses is buffered whole and waited for, unless
      GetError has no error to tell: then the connection is force-closed. */
  lemma RefusedSend(es: seq<Event>, buffer: seq<Byte>, err: Errno)
    requires LegalRun(FRESH, es) && buffer != []
    requires var c := After(FRESH, es); c.phase == Connected && c.sending.None? && c.output == []
    ensures var r := Apply(Apply(After(FRESH, es), BeginSend(buffer)), FinishSend(Failed(err)));
            && r.output == buffer && r.log.wire == After(FRESH, es).log.wire
            && (r.phase == Connected && r.channel.interest.write <==> err != NoError)
            && (r.phase == Disconnected && !r.channel.registered <==> err == NoError)
  {
    RunSettles(FRESH, es);
  }

  /** It happens: a first send that would block, with no error pending. */
  lemma RefusalDrops()
    ensures exists c :: Reachable(c) && c.phase == Disconnected && !c.channel.registered && c.output == [1]
  {
    assert LegalRun(FRESH, []) && After(FRESH, []) == FRESH;
    var c := ReachStep(FRESH, Register);
    c := ReachStep(c, Opened);
    c := ReachStep(c, BeginSend([1]));
    c := ReachStep(c, FinishSend(Failed(NoError)));
  }

  // ------------------------------------------------------ graceful shutdown

  /** No ForceShutdown, and no Send from OnWriteComplete. */
  predicate Gentle(c: Conn, es: seq<Event>)
    requires LegalRun(c, es)
    decreases |es|
  {
    es == [] ||
    (!es[0].ForceShutdownSet? && !(es[0].BeginSend? && c.completing) && Gentle(Apply(c, es[0]), es[1..]))
  }

  /** The write end was shut with nothing left, and nothing is written after. */
  predicate Clean(c: Conn) {
    && !c.log.cutOff && !c.log.late && !c.log.forced
    && (c.completing ==> c.output == [] && c.sending.None?)
    && (c.shut ==> c.output == [] && c.sending.None? && c.phase != Connecting && c.phase != Connected)
  }

  lemma FinishStaysClean(c: Conn, o: Outcome)
    requires Settled(c) && Clean(c) && Legal(c, FinishSend(o))
    ensures Clean(Apply(c, FinishSend(o)))
  {
  }

  lemma WriteStaysClean(c: Conn, o: Outcome)
    requires Settled(c) && Clean(c) && Legal(c, HandleWrite(o))
    ensures Clean(Apply(c, HandleWrite(o)))
  {
  }

  lemma OtherStaysClean(c: Conn, e: Event)
    requires Settled(c) && Clean(c) && Legal(c, e) && !e.FinishSend? && !e.HandleWrite?
    requires !e.ForceShutdownSet? && !(e.BeginSend? && c.completing)
    ensures Clean(Apply(c, e))
  {
  }

  lemma {:induction false} RunStaysClean(c: Conn, es: seq<Event>)
    requires Settled(c) && Clean(c) && LegalRun(c, es) && Gentle(c, es)
    ensures Clean(After(c, es))
    decreases |es|
  {
    if es != [] {
      StepSettles(c, es[0]);
      var e := es[0];
      if e.FinishSend? {
        FinishStaysClean(c, e.sent);
      } else if e.HandleWrite? {
        WriteStaysClean(c, e.written);
      } else {
        OtherStaysClean(c, e);
      }
      RunStaysClean(Apply(c, es[0]), es[1..]);
    }
  }

  /** Shutdown drains: the write end is never shut with bytes left, nothing is
      written afterwards, and once it is shut the wire has carried every byte
      accepted.  Shutdown may come from any thread, in the middle of a send or
      of handleWrite as well. */
  lemma ShutdownDrains(es: seq<Event>)
    requires LegalRun(FRESH, es) && Gentle(FRESH, es)
    ensures var c := After(FRESH, es);
            !c.log.cutOff && !c.log.late && (c.shut ==> c.log.wire == c.log.accepted)
  {
    RunSettles(FRESH, es);
    RunStaysClean(FRESH, es);
    OutputIsConserved(FRESH, es);
  }

  /** A Shutdown is not forgotten: with the loop at rest, the write end is shut
      or the selector waits to send the rest. */
  lemma ShutdownIsPursued(es: seq<Event>)
    requires LegalRun(FRESH, es)
    requires var c := After(FRESH, es);
             c.phase == Disconnecting && !c.log.forced && c.sending.None? && !c.completing && c.posted.shutdowns == 0
    ensures var c := After(FRESH, es);
            c.shut || (c.output != [] && c.channel.registered && c.channel.interest.write)
  {
    RunSettles(FRESH, es);
  }

  /** A Shutdown whose task has run, with the loop at rest. */
  predicate Draining(c: Conn) {
    && c.phase == Disconnecting && !c.log.forced && !c.shut && c.posted.shutdowns == 0
    && c.sending.None? && !c.completing && !c.opening
  }

  function Taken(c: Conn, room: nat): nat { if room < |c.output| then room else |c.output| }

  /** The socket is writable and has room for `room` bytes; OnWriteComplete
      leaves the connection alone. */
  function WriteOnce(c: Conn, room: nat): Conn
    requires c.sending.None? && !c.completing && !c.opening
  {
    var c1 := Apply(c, HandleWrite(Wrote(Taken(c, room))));
    if c1.completing then Apply(c1, CheckPhase) else c1
  }

  /** Each write with room for a byte shortens what is buffered by what it
      sends, and the one that sends the rest shuts the write end. */
  lemma WriteProgress(c: Conn, room: nat)
    requires Settled(c) && Draining(c) && room > 0
    ensures var r := WriteOnce(c, room);
            && Settled(r)
            && |r.output| == |c.output| - Taken(c, room) < |c.output|
            && r.log.wire + r.output == c.log.wire + c.output
            && (if r.output == [] then r.shut && r.log.cutOff == c.log.cutOff else Draining(r))
  {
    var e := HandleWrite(Wrote(Taken(c, room)));
    StepSettles(c, e);
    var c1 := Apply(c, e);
    if c1.completing {
      StepSettles(c1, CheckPhase);
    }
    Split(c.log.wire, c.output, Taken(c, room), []);
  }

  function WriteAll(c: Conn, rooms: seq<nat>): Conn
    decreases |rooms|
  {
    if rooms == [] || !Draining(c) then c else WriteAll(WriteOnce(c, rooms[0]), rooms[1..])
  }

  lemma {:induction false} DrainsOut(c: Conn, rooms: seq<nat>)
    requires Settled(c) && Draining(c) && |rooms| >= |c.output| && forall room :: room in rooms ==> room > 0
    ensures var r := WriteAll(c, rooms);
            r.shut && r.output == [] && r.log.wire == c.log.wire + c.output && r.log.cutOff == c.log.cutOff
    decreases |rooms|
  {
    assert c.output != [];
    assert rooms[0] in rooms && rooms == [rooms[0]] + rooms[1..];
    var r := WriteOnce(c, rooms[0]);
    WriteProgress(c, rooms[0]);
    hide Settled, WriteOnce;
    if r.output != [] {
      assert forall room :: room in rooms[1..] ==> room in rooms;
      DrainsOut(r, rooms[1..]);
    } else {
      assert WriteAll(r, rooms[1..]) == r;
    }
  }

  /** Shutdown completes.  From any state it may have been called in, as many
      writes as bytes are buffered are enough, if the socket has room for
      something each time, to put every accepted byte on the wire, in order,
      and then to shut the write end. */
  lemma ShutdownCompletes(es: seq<Event>, rooms: seq<nat>)
    requires LegalRun(FRESH, es) && Draining(After(FRESH, es))
    requires |rooms| >= |After(FRESH, es).output| && forall room :: room in rooms ==> room > 0
    ensures var r := WriteAll(After(FRESH, es), rooms);
            r.shut && r.output == [] && r.log.wire == After(FRESH, es).log.accepted
  {
    RunSettles(FRESH, es);
    OutputIsConserved(FRESH, es);
    DrainsOut(After(FRESH, es), rooms);
  }

  // ------------------------------------------------------- the other ends

  /** Removed from the selector, or about to be. */
  predicate Gone(c: Conn) {
    c.phase == Disconnected ==> !c.channel.registered || c.posted.forceCloses > 0
  }

  /** Start is called once, and nobody calls Close. */
  predicate StartedOnce(es: seq<Event>) {
    forall i :: 0 <= i < |es| ==> es[i] != Register && es[i] != CloseCas
  }

  lemma StepGone(c: Conn, e: Event)
    requires Gone(c) && Legal(c, e) && e != Register && e != CloseCas
    ensures Gone(Apply(c, e))
  {
  }

  lemma {:induction false} RunGone(c: Conn, es: seq<Event>)
    requires Gone(c) && LegalRun(c, es) && StartedOnce(es)
    ensures Gone(After(c, es))
    decreases |es|
  {
    hide Gone, Apply, Legal;
    if es != [] {
      StepGone(c, es[0]);
      RunGone(Apply(c, es[0]), es[1..]);
    }
  }

  /** Whatever ends a connection (a peer that goes away, an error that is none,
      ForceClose): with no task left it is no longer in the selector. */
  lemma {:induction false} EndedIsRemoved(c: Conn, es: seq<Event>)
    requires Alive(c) && LegalRun(c, es) && StartedOnce(es)
    ensures var r := After(c, es);
            r.phase == Disconnected && r.posted.forceCloses == 0 ==> !r.channel.registered
  {
    RunGone(c, es);
  }

  lemma StepStaysEnded(c: Conn, e: Event)
    requires c.phase == Disconnected && Legal(c, e)
    ensures Apply(c, e).phase == Disconnected
  {
  }

  /** And it stays ended, whatever is called. */
  lemma {:induction false} EndedIsFinal(c: Conn, es: seq<Event>)
    requires c.phase == Disconnected && LegalRun(c, es)
    ensures After(c, es).phase == Disconnected
    decreases |es|
  {
    hide Apply, Legal;
    if es != [] {
      StepStaysEnded(c, es[0]);
      EndedIsFinal(Apply(c, es[0]), es[1..]);
    }
  }

  /** From here on: a connection in use, with no task left. */
  predicate Quiescent(c: Conn) { Idle(c) && c.posted == FRESH.posted }

  /** The peer goes away: removed at once, bytes or not. */
  lemma HandleCloseEnds(es: seq<Event>)
    requires LegalRun(FRESH, es) && Idle(After(FRESH, es))
    ensures var r := Apply(After(FRESH, es), HandleClose);
            r.phase == Disconnected && !r.channel.registered && r.output == After(FRESH, es).output
  {
    RunSettles(FRESH, es);
  }

  /** ForceClose, with its task: the same. */
  lemma ForceCloseEnds(es: seq<Event>)
    requires LegalRun(FRESH, es) && Quiescent(After(FRESH, es))
    ensures var r := Apply(Apply(After(FRESH, es), ForceCloseSet), ForceCloseTask);
            r.phase == Disconnected && !r.channel.registered && r.posted == FRESH.posted
  {
    RunSettles(FRESH, es);
  }

  /** Close, with its task: removed exactly if no bytes are buffered. */
  lemma CloseEndsIff(es: seq<Event>)
    requires LegalRun(FRESH, es) && Quiescent(After(FRESH, es))
    ensures var c := After(FRESH, es);
            var r := Apply(Apply(c, CloseCas), CloseTask);
            r.phase == Disconnected && r.output == c.output && (!r.channel.registered <==> c.output == [])
  {
    RunSettles(FRESH, es);
  }

  /** ForceShutdown, with its task: the write end is shut, which cuts off what
      is buffered; reading goes on. */
  lemma ForceShutdownCuts(es: seq<Event>)
    requires LegalRun(FRESH, es) && Quiescent(After(FRESH, es)) && !After(FRESH, es).log.cutOff
    ensures var c := After(FRESH, es);
            var r := Apply(Apply(c, ForceShutdownSet), ForceShutdownTask);
            && r.phase == Disconnecting && r.shut && (r.log.cutOff <==> c.output != [])
            && r.channel.registered && !r.channel.interest.write && r.channel.interest.read
  {
    RunReads(FRESH, es);
  }

  /** Without the restriction on OnWriteComplete, and in any run so far without
      ForceShutdown: the one step that can shut the write end with bytes left
      is the test after OnWriteComplete, and it does so exactly when the
      handler has left bytes buffered and a Shutdown has come before the test. */
  lemma CutOffIff(es: seq<Event>, e: Event)
    requires LegalRun(FRESH, es)
    requires var c := After(FRESH, es); Legal(c, e) && !c.log.forced && !c.log.cutOff
    ensures var c := After(FRESH, es);
            Apply(c, e).log.cutOff <==> e == CheckPhase && c.phase == Disconnecting && c.output != []
  {
    RunSettles(FRESH, es);
  }

  /** Two bytes sent, in two writes, and the loop in OnWriteComplete. */
  lemma ReachCompleting() returns (c: Conn)
    ensures Reachable(c) && c.phase == Connected && c.sending.None? && c.completing && c.output == [] && c.posted == FRESH.posted
    ensures !c.log.cutOff && !c.log.forced
  {
    assert LegalRun(FRESH, []) && After(FRESH, []) == FRESH;
    c := ReachStep(FRESH, Register);
    c := ReachStep(c, Opened);
    c := ReachStep(c, BeginSend([1, 2]));
    c := ReachStep(c, FinishSend(Wrote(1)));
    assert [1, 2][1..] == [2] && c.output == [2];
    c := ReachStep(c, HandleWrite(Wrote(1)));
  }

  /** It happens: OnWriteComplete sends two more bytes, of which the socket
      takes one, and then calls Shutdown. */
  lemma SendThenShutdownIsCutOff()
    ensures exists c :: Reachable(c) && c.log.cutOff && !c.log.forced && c.output == [4]
  {
    hide Reachable;
    var c := ReachCompleting();
    c := ReachStep(c, BeginSend([3, 4]));
    c := ReachStep(c, FinishSend(Wrote(1)));
    assert [3, 4][1..] == [4] && c.output == [4];
    c := ReachStep(c, ShutdownCas);
    c := ReachStep(c, ShutdownTask);
    c := ReachStep(c, CheckPhase);
  }
}
