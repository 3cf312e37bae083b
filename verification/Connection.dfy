/** Closing a connection: the steps that run under its lock, in any order the dispatcher, the timers
    and the network may choose. */
module Connections {

  datatype ConnectionState = OPEN | REQUEST_CLOSE | CLOSING | CLOSED

  /** What an asynchronous operation reports. */
  datatype IoError = NoError | OperationAborted | OtherError

  /** The fields of a connection, and beside them what is under way: close tasks waiting in the
      dispatcher, writes and reads not yet reported back, and how often its release was started. */
  datatype Net = Net(
    state: ConnectionState,
    pendingWrite: int,
    pendingRead: int,
    readError: bool,
    writeError: bool,
    socketOpen: bool,
    hasProtocol: bool,
    tasks: nat,
    writing: nat,
    reading: nat,
    released: nat)

  const START := Net(OPEN, 0, 0, false, false, true, false, 0, 0, 0, 0)

  // ----- The steps ------------------------------------------------------------------------------------

  function Closed(n: Net): Net {
    if n.state == CLOSED || n.state == REQUEST_CLOSE then n else n.(state := REQUEST_CLOSE, tasks := n.tasks + 1)
  }

  function SocketClosed(n: Net): Net {
    if n.socketOpen then n.(pendingRead := 0, pendingWrite := 0, socketOpen := false) else n
  }

  /** closeConnection, run by the dispatcher. */
  function Task(n: Net): Net
    requires n.tasks > 0
  {
    var m := n.(tasks := n.tasks - 1);
    if n.state != REQUEST_CLOSE then m
    else if n.pendingWrite == 0 || n.writeError then
      SocketClosed(m.(hasProtocol := false)).(state := CLOSED, released := n.released + 1)
    else m.(hasProtocol := false, state := CLOSING)
  }

  function Sent(n: Net, forceCloseSlow: bool): Net {
    if n.state != OPEN || n.writeError then n
    else if n.pendingWrite == 0 then n.(pendingWrite := 1, writing := n.writing + 1)
    else if n.pendingWrite > 100 && forceCloseSlow then Closed(n)
    else n
  }

  function ReadFailed(n: Net, error: IoError): Net {
    (if error == OperationAborted then n else Closed(n)).(readError := true)
  }

  function WriteFailed(n: Net, error: IoError): Net {
    (if error == OperationAborted then n else Closed(n)).(writeError := true)
  }

  function Written(n: Net, error: IoError): Net
    requires n.writing > 0
  {
    var m := n.(writing := n.writing - 1);
    var w := if error != NoError then WriteFailed(m, error) else m;
    if w.state != OPEN || w.writeError then Closed(SocketClosed(w)) else w.(pendingWrite := w.pendingWrite - 1)
  }

  function WriteTimedOut(n: Net): Net {
    if n.pendingWrite > 0 || n.writeError then Closed(SocketClosed(n)) else n
  }

  function ReadTimedOut(n: Net): Net {
    if n.pendingRead > 0 || n.readError then Closed(SocketClosed(n)) else n
  }

  function Reading(n: Net): Net {
    n.(pendingRead := n.pendingRead + 1, reading := n.reading + 1)
  }

  /** parseHeader: the size of the next packet has arrived. */
  function HeaderParsed(n: Net, error: IoError, sizeOk: bool): Net
    requires n.reading > 0
  {
    var m := n.(reading := n.reading - 1);
    var r := if error != NoError || !sizeOk then ReadFailed(m, error) else m;
    if r.state != OPEN || r.readError then Closed(r) else Reading(r.(pendingRead := r.pendingRead - 1))
  }

  /** What the protocol does while it handles a message. */
  datatype Call = CallClose | CallSend(forceCloseSlow: bool)

  function Handled(n: Net, calls: seq<Call>): Net
    decreases calls
  {
    if calls == [] then n
    else Handled(match calls[0] { case CallClose => Closed(n) case CallSend(force) => Sent(n, force) }, calls[1..])
  }

  /** An open connection takes the packet; `known` says whether a protocol was found for it. */
  function PacketTaken(n: Net, known: bool, calls: seq<Call>): Net {
    var q := n.(pendingRead := n.pendingRead - 1);
    if !q.hasProtocol && !known then Closed(q) else Reading(Handled(q.(hasProtocol := true), calls))
  }

  /** parsePacket: a whole packet has arrived. */
  function PacketParsed(n: Net, error: IoError, known: bool, calls: seq<Call>): Net
    requires n.reading > 0
  {
    var m := n.(reading := n.reading - 1);
    var r := if error != NoError then ReadFailed(m, error) else m;
    if r.state != OPEN || r.readError then Closed(r) else PacketTaken(r, known, calls)
  }

  // ----- Runs ---------------------------------------------------------------------------------------------

  datatype Event =
    | Accept
    | Close
    | CloseTask
    | Send(forceCloseSlow: bool)
    | WriteDone(error: IoError)
    | WriteTimeout
    | ReadTimeout
    | HeaderRead(headerError: IoError, sizeOk: bool)
    | PacketRead(packetError: IoError, known: bool, calls: seq<Call>)

  predicate Enabled(n: Net, e: Event) {
    match e
    case CloseTask => n.tasks > 0
    case WriteDone(_) => n.writing > 0
    case HeaderRead(_, _) => n.reading > 0
    case PacketRead(_, _, _) => n.reading > 0
    case _ => true
  }

  function Step(n: Net, e: Event): Net
    requires Enabled(n, e)
  {
    match e
    case Accept => Reading(n)
    case Close => Closed(n)
    case CloseTask => Task(n)
    case Send(force) => Sent(n, force)
    case WriteDone(error) => Written(n, error)
    case WriteTimeout => WriteTimedOut(n)
    case ReadTimeout => ReadTimedOut(n)
    case HeaderRead(error, sizeOk) => HeaderParsed(n, error, sizeOk)
    case PacketRead(error, known, calls) => PacketParsed(n, error, known, calls)
  }

  predicate Legal(n: Net, events: seq<Event>)
    decreases events
  {
    events == [] || (Enabled(n, events[0]) && Legal(Step(n, events[0]), events[1..]))
  }

  function Run(n: Net, events: seq<Event>): Net
    requires Legal(n, events)
    decreases events
  {
    if events == [] then n else Run(Step(n, events[0]), events[1..])
  }

  // ----- What every state keeps -----------------------------------------------------------------------------

  ghost predicate Sound(n: Net) {
    && n.tasks == (if n.state == REQUEST_CLOSE then 1 else 0)
    && n.released == (if n.state == CLOSED then 1 else 0)
    && 0 <= n.pendingWrite <= n.writing <= 1
    && (n.state == OPEN ==> n.pendingWrite == n.writing && n.socketOpen && !n.writeError && !n.readError)
    && (n.state == OPEN ==> n.pendingRead == n.reading)
    && (n.state == CLOSING ==> n.pendingWrite == n.writing == 1 && n.socketOpen && !n.writeError)
    && (!n.socketOpen ==> n.pendingWrite == 0)
    && (n.state == CLOSED ==> !n.socketOpen)
  }

  /** A message handler leaves the state sound; it may request the close, but no more. */
  lemma {:induction false} HandledSound(n: Net, calls: seq<Call>)
    requires Sound(n)
    ensures Sound(Handled(n, calls))
    decreases calls
  {
    if calls != [] {
      HandledSound(match calls[0] { case CallClose => Closed(n) case CallSend(force) => Sent(n, force) }, calls[1..]);
    }
  }

  lemma PacketSound(n: Net, error: IoError, known: bool, calls: seq<Call>)
    requires Sound(n) && n.reading > 0
    ensures Sound(PacketParsed(n, error, known, calls))
    ensures n.state != OPEN ==> PacketParsed(n, error, known, calls).state != OPEN
  {
    var m := n.(reading := n.reading - 1);
    var r := if error != NoError then ReadFailed(m, error) else m;
    if r.state == OPEN && !r.readError {
      HandledSound(r.(pendingRead := r.pendingRead - 1, hasProtocol := true), calls);
    }
  }

  lemma HeaderSound(n: Net, error: IoError, sizeOk: bool)
    requires Sound(n) && n.reading > 0
    ensures Sound(HeaderParsed(n, error, sizeOk))
    ensures n.state != OPEN ==> HeaderParsed(n, error, sizeOk).state != OPEN
  {
  }

  lemma WrittenSound(n: Net, error: IoError)
    requires Sound(n) && n.writing > 0
    ensures Sound(Written(n, error)) && (n.state != OPEN ==> Written(n, error).state != OPEN)
  {
  }

  lemma StepSound(n: Net, e: Event)
    requires Sound(n) && Enabled(n, e)
    ensures Sound(Step(n, e))
  {
    hide PacketParsed, HeaderParsed, Written;
    match e
    case PacketRead(error, known, calls) => PacketSound(n, error, known, calls);
    case HeaderRead(error, sizeOk) => HeaderSound(n, error, sizeOk);
    case WriteDone(error) => WrittenSound(n, error);
    case _ =>
  }

  lemma {:induction false} RunSound(n: Net, events: seq<Event>)
    requires Sound(n) && Legal(n, events)
    ensures Sound(Run(n, events))
    decreases events
  {
    if events != [] {
      StepSound(n, events[0]);
      RunSound(Step(n, events[0]), events[1..]);
    }
  }

  /** From a new connection, over every interleaving: one close task waits exactly while the close is
      requested, the release was started exactly once when the connection is closed and never before,
      and an open connection never has more than one write under way. */
  lemma AlwaysSound(events: seq<Event>)
    requires Legal(START, events)
    ensures var n := Run(START, events);
            && (n.tasks == 1 <==> n.state == REQUEST_CLOSE) && n.tasks <= 1
            && (n.released == 1 <==> n.state == CLOSED) && n.released <= 1
            && n.writing <= 1 && (n.state == OPEN ==> n.pendingWrite == n.writing)
            && (n.state == CLOSING ==> n.writing == 1 && n.pendingWrite == 1)
            && (n.state == OPEN ==> n.pendingRead == n.reading)
  {
    RunSound(START, events);
  }

  // ----- What each step does, field by field ------------------------------------------------------------------

  /** A message for an open connection leaves exactly one write pending and under way, a new one if there
      was none; for any other connection it changes nothing. */
  lemma SendWrites(n: Net, force: bool)
    requires Sound(n)
    ensures n.state == OPEN ==> Step(n, Send(force)) == n.(pendingWrite := 1, writing := 1)
    ensures n.state != OPEN ==> Step(n, Send(force)) == n
  {
  }

  /** The end of a write: an open connection goes on with none pending; an error, or a close requested
      meanwhile, shuts the socket and leaves one closeConnection queued, unless all is over already. */
  lemma WriteDoneEnds(n: Net, error: IoError)
    requires Sound(n) && n.writing > 0
    ensures var m := Step(n, WriteDone(error));
            && m.writing == 0 && m.pendingWrite == 0 && m.reading == n.reading && m.released == n.released
            && (n.state == OPEN && error == NoError ==> m == n.(pendingWrite := 0, writing := 0))
            && (n.state != OPEN || error != NoError ==> !m.socketOpen && m.pendingRead == if n.socketOpen then 0 else n.pendingRead)
            && (n.state == CLOSED ==> m.state == CLOSED && m.tasks == 0)
            && (n.state != CLOSED && (n.state != OPEN || error != NoError) ==> m.state == REQUEST_CLOSE && m.tasks == 1)
            && m.writeError == (n.writeError || error != NoError) && m.readError == n.readError && m.hasProtocol == n.hasProtocol
  {
  }

  /** A timer that runs out matters only while its operation is pending, or after an error: then the socket
      is shut and the close requested. */
  lemma TimeoutCloses(n: Net, write: bool)
    requires Sound(n)
    ensures var m := Step(n, if write then WriteTimeout else ReadTimeout);
            if (if write then n.pendingWrite > 0 || n.writeError else n.pendingRead > 0 || n.readError) then
              && !m.socketOpen && m.pendingWrite == 0 && m.pendingRead == (if n.socketOpen then 0 else n.pendingRead)
              && m.state == (if n.state == CLOSED then CLOSED else REQUEST_CLOSE) && m.writing == n.writing && m.reading == n.reading
            else m == n
  {
  }

  /** A header that arrives in order on an open connection is followed by the read of its packet; an error or
      a bad size requests the close. */
  lemma HeaderReads(n: Net, error: IoError, sizeOk: bool)
    requires Sound(n) && n.reading > 0
    ensures var m := Step(n, HeaderRead(error, sizeOk));
            && (n.state == OPEN && error == NoError && sizeOk ==> m == n)
            && (n.state == OPEN && (error != NoError || !sizeOk) ==> m.state == REQUEST_CLOSE && m.tasks == 1)
            && (n.state != OPEN || error != NoError || !sizeOk ==>
                m.state != OPEN && m.reading == n.reading - 1 && m.socketOpen == n.socketOpen && m.writing == n.writing)
  {
  }

  /** A packet on an open connection: a protocol is found for it or the close is requested; what the protocol
      does is done, and the next header is read. */
  lemma PacketReads(n: Net, error: IoError, known: bool, calls: seq<Call>)
    requires Sound(n) && n.reading > 0
    ensures var m := Step(n, PacketRead(error, known, calls));
            && (n.state != OPEN || error != NoError || !(n.hasProtocol || known) ==>
                m.state != OPEN && m.reading == n.reading - 1 && m.writing == n.writing)
            && (n.state == OPEN && error == NoError && (n.hasProtocol || known) ==>
                && m.hasProtocol && m.reading == n.reading && m.pendingRead == n.pendingRead
                && m.state == (if CallClose in calls then REQUEST_CLOSE else OPEN)
                && m.writing == if n.writing == 1 || SendsFirst(calls) then 1 else 0)
  {
    if n.state == OPEN && error == NoError && (n.hasProtocol || known) {
      HandlesCalls(n.(reading := n.reading - 1, pendingRead := n.pendingRead - 1, hasProtocol := true), calls);
    }
  }

  /** A message is sent before the close is requested, if it is. */
  predicate SendsFirst(calls: seq<Call>) {
    calls != [] && calls[0].CallSend?
  }

  lemma {:induction false} HandlesCalls(n: Net, calls: seq<Call>)
    requires Sound(n)
    ensures var m := Handled(n, calls);
            && m.hasProtocol == n.hasProtocol && m.reading == n.reading && m.pendingRead == n.pendingRead
            && (n.state != OPEN ==> m.state != OPEN && m.writing == n.writing)
            && (n.state == REQUEST_CLOSE ==> m.state == REQUEST_CLOSE)
            && (n.state == OPEN ==>
                && m.state == (if CallClose in calls then REQUEST_CLOSE else OPEN)
                && m.writing == if n.writing == 1 || SendsFirst(calls) then 1 else 0)
    decreases calls
  {
    if calls != [] {
      var next := match calls[0] { case CallClose => Closed(n) case CallSend(force) => Sent(n, force) };
      HandledSound(n, calls[..1]);
      assert calls[..1][1..] == [] && Handled(n, calls[..1]) == next;
      HandlesCalls(next, calls[1..]);
      assert calls == [calls[0]] + calls[1..];
    }
  }

  /** closeConnection: a requested close ends at once, or waits for the write that is pending. */
  lemma TaskCloses(n: Net)
    requires Sound(n) && n.tasks > 0
    ensures var m := Step(n, CloseTask);
            && m.tasks == 0 && !m.hasProtocol && m.writing == n.writing && m.reading == n.reading
            && m.state == (if n.pendingWrite == 0 || n.writeError then CLOSED else CLOSING)
            && (m.state == CLOSED ==> !m.socketOpen && m.released == 1)
            && (m.state == CLOSING ==> m.socketOpen && m.pendingWrite == 1 && m.released == 0)
  {
  }

  /** From OPEN and from CLOSING a close is requested and one closeConnection queued; elsewhere nothing happens. */
  lemma CloseRequests(n: Net)
    requires Sound(n)
    ensures Step(n, Close) ==
            if n.state == OPEN || n.state == CLOSING then n.(state := REQUEST_CLOSE, tasks := 1) else n
  {
  }

  function Accepts(events: seq<Event>): nat {
    if events == [] then 0 else (if events[0].Accept? then 1 else 0) + Accepts(events[1..])
  }

  lemma StepListens(n: Net, e: Event)
    requires Sound(n) && Enabled(n, e) && Step(n, e).state == OPEN
    ensures n.state == OPEN && Step(n, e).reading == n.reading + if e.Accept? then 1 else 0
  {
    hide PacketParsed, HeaderParsed, Written;
    if n.state != OPEN { NeverReopens(n, e); }
    match e
    case PacketRead(error, known, calls) => PacketReads(n, error, known, calls);
    case HeaderRead(error, sizeOk) => HeaderReads(n, error, sizeOk);
    case WriteDone(error) => WriteDoneEnds(n, error);
    case _ =>
  }

  /** As long as it is open, a connection has as many reads under way as were once accepted: it never stops
      listening, and never listens twice. */
  lemma {:induction false} KeepsListening(n: Net, events: seq<Event>)
    requires Sound(n) && Legal(n, events) && Run(n, events).state == OPEN
    ensures n.state == OPEN && Run(n, events).reading == Run(n, events).pendingRead == n.reading + Accepts(events)
    decreases events
  {
    if events != [] {
      StepSound(n, events[0]);
      KeepsListening(Step(n, events[0]), events[1..]);
      StepListens(n, events[0]);
    }
  }

  /** A write under way when the close is requested: CLOSING is reached, and left when the write is done. */
  lemma ClosingReached(force: bool)
    ensures var events := [Send(force), Close, CloseTask];
            Legal(START, events) && Run(START, events) == Net(CLOSING, 1, 0, false, false, true, false, 0, 1, 0, 0)
    ensures var events := [Send(force), Close, CloseTask, WriteDone(NoError)];
            Legal(START, events) && Run(START, events) == Net(REQUEST_CLOSE, 0, 0, false, false, false, false, 1, 0, 0, 0)
    ensures var events := [Send(force), Close, CloseTask, WriteDone(NoError), CloseTask];
            Legal(START, events) && Run(START, events) == Net(CLOSED, 0, 0, false, false, false, false, 0, 0, 0, 1)
  {
    hide Sent, Closed, Task, Written;
    var a := Net(OPEN, 1, 0, false, false, true, false, 0, 1, 0, 0);
    var b := Net(REQUEST_CLOSE, 1, 0, false, false, true, false, 1, 1, 0, 0);
    var c := Net(CLOSING, 1, 0, false, false, true, false, 0, 1, 0, 0);
    var d := Net(REQUEST_CLOSE, 0, 0, false, false, false, false, 1, 0, 0, 0);
    var e := Net(CLOSED, 0, 0, false, false, false, false, 0, 0, 0, 1);
    SmallSteps(force);
    RunOn(START, Send(force), [Close, CloseTask]);
    RunOn(a, Close, [CloseTask]);
    RunOn(b, CloseTask, []);
    RunOn(START, Send(force), [Close, CloseTask, WriteDone(NoError)]);
    RunOn(a, Close, [CloseTask, WriteDone(NoError)]);
    RunOn(b, CloseTask, [WriteDone(NoError)]);
    RunOn(c, WriteDone(NoError), []);
    RunOn(START, Send(force), [Close, CloseTask, WriteDone(NoError), CloseTask]);
    RunOn(a, Close, [CloseTask, WriteDone(NoError), CloseTask]);
    RunOn(b, CloseTask, [WriteDone(NoError), CloseTask]);
    RunOn(c, WriteDone(NoError), [CloseTask]);
    RunOn(d, CloseTask, []);
  }

  lemma SmallSteps(force: bool)
    ensures var a := Net(OPEN, 1, 0, false, false, true, false, 0, 1, 0, 0);
            var b := Net(REQUEST_CLOSE, 1, 0, false, false, true, false, 1, 1, 0, 0);
            var c := Net(CLOSING, 1, 0, false, false, true, false, 0, 1, 0, 0);
            var d := Net(REQUEST_CLOSE, 0, 0, false, false, false, false, 1, 0, 0, 0);
            && Step(START, Send(force)) == a && Step(a, Close) == b && Step(b, CloseTask) == c
            && Step(c, WriteDone(NoError)) == d && Step(d, CloseTask) == Net(CLOSED, 0, 0, false, false, false, false, 0, 0, 0, 1)
  {
  }

  lemma RunOn(n: Net, e: Event, rest: seq<Event>)
    ensures Legal(n, [e] + rest) <==> Enabled(n, e) && Legal(Step(n, e), rest)
    ensures Legal(n, [e] + rest) ==> Run(n, [e] + rest) == Run(Step(n, e), rest)
  {
    assert ([e] + rest)[1..] == rest;
  }

  lemma ClosedStays(n: Net, e: Event)
    requires Sound(n) && Enabled(n, e) && n.state == CLOSED
    ensures Step(n, e).state == CLOSED && Step(n, e).released == n.released
  {
  }

  /** CLOSED is final, and nothing is released again. */
  lemma {:induction false} ClosedForever(n: Net, events: seq<Event>)
    requires Sound(n) && Legal(n, events) && n.state == CLOSED
    ensures Run(n, events).state == CLOSED && Run(n, events).released == n.released == 1
    decreases events
  {
    if events != [] {
      ClosedStays(n, events[0]);
      StepSound(n, events[0]);
      ClosedForever(Step(n, events[0]), events[1..]);
    }
  }

  /** The connection will be closed by the closeConnection that waits, or is closed. */
  ghost predicate Finishing(n: Net) {
    n.state == CLOSED || (n.state == REQUEST_CLOSE && n.pendingWrite == 0)
  }

  /** With the close requested, the end of the write under way, or its timeout, settles the matter. */
  lemma WriteEnds(n: Net, e: Event)
    requires Sound(n) && Enabled(n, e) && n.state != OPEN && (e.WriteDone? || e.WriteTimeout?)
    ensures Finishing(Step(n, e))
  {
  }

  lemma FinishingStep(n: Net, e: Event)
    requires Sound(n) && Enabled(n, e) && Finishing(n)
    ensures Finishing(Step(n, e)) && (e.CloseTask? ==> Step(n, e).state == CLOSED)
  {
  }

  /** Nothing undoes that, and the next turn of the dispatcher closes the connection for good. */
  lemma {:induction false} FinishesWithTask(n: Net, events: seq<Event>)
    requires Sound(n) && Legal(n, events) && Finishing(n)
    ensures Finishing(Run(n, events))
    ensures CloseTask in events ==> Run(n, events).state == CLOSED
    decreases events
  {
    if events != [] {
      FinishingStep(n, events[0]);
      StepSound(n, events[0]);
      var next := Step(n, events[0]);
      FinishesWithTask(next, events[1..]);
      if events[0] == CloseTask { ClosedForever(next, events[1..]); }
      assert events == [events[0]] + events[1..];
    }
  }

  /** So a requested close comes to its end: once the write under way is done or timed out, and the
      dispatcher has run closeConnection after that, the connection is closed, whatever else happens. */
  lemma {:induction false} CloseCompletes(n: Net, before: seq<Event>, e: Event, after: seq<Event>)
    requires Sound(n) && n.state != OPEN && Legal(n, before + [e] + after)
    requires (e.WriteDone? || e.WriteTimeout?) && CloseTask in after
    ensures Run(n, before + [e] + after).state == CLOSED
    decreases before
  {
    var all := before + [e] + after;
    if before == [] {
      assert all[0] == e && all[1..] == after;
      WriteEnds(n, e);
      StepSound(n, e);
      FinishesWithTask(Step(n, e), after);
    } else {
      assert all[0] == before[0] && all[1..] == before[1..] + [e] + after;
      StepSound(n, before[0]);
      NeverReopens(n, before[0]);
      CloseCompletes(Step(n, before[0]), before[1..], e, after);
    }
  }

  lemma NeverReopens(n: Net, e: Event)
    requires Sound(n) && Enabled(n, e) && n.state != OPEN
    ensures Step(n, e).state != OPEN
  {
    hide PacketParsed, HeaderParsed, Written;
    match e
    case PacketRead(error, known, calls) => PacketSound(n, error, known, calls);
    case HeaderRead(error, sizeOk) => HeaderSound(n, error, sizeOk);
    case WriteDone(error) => WrittenSound(n, error);
    case _ =>
  }

  /** The branch of send that gives up on a slow connection is never taken. */
  lemma SlowBranchDead(events: seq<Event>, force: bool)
    requires Legal(START, events)
    ensures Sent(Run(START, events), force) == Sent(Run(START, events), !force)
  {
    RunSound(START, events);
  }

  // ----- The object -------------------------------------------------------------------------------------------

  class Connection {
    var m_connectionState: ConnectionState
    var m_pendingWrite: int
    var m_pendingRead: int
    var m_readError: bool
    var m_writeError: bool
    var m_receivedFirst: bool
    var socketOpen: bool
    var hasProtocol: bool
    ghost var tasks: nat          // closeConnection tasks in the dispatcher
    ghost var writing: nat        // async_write calls whose onWrite has not run
    ghost var reading: nat        // async_read calls whose handler has not run
    ghost var released: nat       // how often releaseConnection was started

    constructor ()
      ensures State() == START
    {
      m_connectionState, m_pendingWrite, m_pendingRead := OPEN, 0, 0;
      m_readError, m_writeError, m_receivedFirst, socketOpen, hasProtocol := false, false, false, true, false;
      tasks, writing, reading, released := 0, 0, 0, 0;
    }

    ghost function State(): Net
      reads this
    {
      Net(m_connectionState, m_pendingWrite, m_pendingRead, m_readError, m_writeError, socketOpen, hasProtocol,
          tasks, writing, reading, released)
    }

    method Accept()
      modifies this
      ensures State() == Reading(old(State()))
    {
      m_pendingRead, reading := m_pendingRead + 1, reading + 1;
    }

    method Close()
      modifies this
      ensures State() == Closed(old(State()))
    {
      if m_connectionState == CLOSED || m_connectionState == REQUEST_CLOSE { return; }
      m_connectionState := REQUEST_CLOSE;
      tasks := tasks + 1;
    }

    method CloseSocket()
      modifies this
      ensures State() == SocketClosed(old(State()))
    {
      if socketOpen {
        m_pendingRead, m_pendingWrite := 0, 0;
        socketOpen := false;
      }
    }

    /** The dispatcher runs a waiting task. */
    method CloseConnection()
      requires tasks > 0
      modifies this
      ensures State() == Task(old(State()))
    {
      tasks := tasks - 1;
      if m_connectionState != REQUEST_CLOSE { return; }
      hasProtocol := false;
      m_connectionState := CLOSING;
      if m_pendingWrite == 0 || m_writeError {
        CloseSocket();
        released := released + 1;
        m_connectionState := CLOSED;
      }
    }

    method Send(forceCloseSlow: bool) returns (taken: bool)
      modifies this
      ensures State() == Sent(old(State()), forceCloseSlow)
      ensures taken <==> old(m_connectionState == OPEN && !m_writeError)
      ensures old(Sound(State())) && old(m_connectionState) == OPEN ==>
                m_connectionState == OPEN && m_pendingWrite == writing == 1 && State() == old(State()).(pendingWrite := 1, writing := 1)
      ensures old(m_connectionState) != OPEN ==> State() == old(State())
    {
      if m_connectionState != OPEN || m_writeError { return false; }
      if m_pendingWrite == 0 {
        m_pendingWrite, writing := m_pendingWrite + 1, writing + 1;
      } else if m_pendingWrite > 100 && forceCloseSlow {
        Close();
      }
      taken := true;
    }

    method OnWrite(error: IoError)
      requires writing > 0
      modifies this
      ensures State() == Written(old(State()), error)
    {
      hide Closed, SocketClosed, WriteFailed;
      writing := writing - 1;
      if error != NoError { HandleWriteError(error); }
      if m_connectionState != OPEN || m_writeError {
        CloseSocket();
        Close();
        return;
      }
      m_pendingWrite := m_pendingWrite - 1;
    }

    method HandleReadError(error: IoError)
      modifies this
      ensures State() == ReadFailed(old(State()), error)
    {
      if error != OperationAborted { Close(); }
      m_readError := true;
    }

    method HandleWriteError(error: IoError)
      modifies this
      ensures State() == WriteFailed(old(State()), error)
    {
      if error != OperationAborted { Close(); }
      m_writeError := true;
    }

    method OnReadTimeout()
      modifies this
      ensures State() == ReadTimedOut(old(State()))
    {
      if m_pendingRead > 0 || m_readError {
        CloseSocket();
        Close();
      }
    }

    method OnWriteTimeout()
      modifies this
      ensures State() == WriteTimedOut(old(State()))
    {
      if m_pendingWrite > 0 || m_writeError {
        CloseSocket();
        Close();
      }
    }

    method ParseHeader(error: IoError, sizeOk: bool)
      requires reading > 0
      modifies this
      ensures State() == HeaderParsed(old(State()), error, sizeOk)
    {
      hide Closed, ReadFailed, Reading;
      reading := reading - 1;
      if error != NoError || !sizeOk { HandleReadError(error); }
      if m_connectionState != OPEN || m_readError {
        Close();
        return;
      }
      m_pendingRead := m_pendingRead - 1;
      Accept();
    }

    /** The protocol handles the message and may send or close meanwhile. */
    method Handle(calls: seq<Call>)
      modifies this
      ensures State() == Handled(old(State()), calls)
    {
      for i := 0 to |calls|
        invariant Handled(State(), calls[i..]) == Handled(old(State()), calls)
      {
        assert calls[i..][1..] == calls[i + 1..];
        match calls[i] {
          case CallClose => Close();
          case CallSend(force) => var taken := Send(force);
        }
      }
    }

    method TakePacket(known: bool, calls: seq<Call>)
      modifies this
      ensures State() == PacketTaken(old(State()), known, calls)
    {
      hide Closed, Handled, Reading;
      m_pendingRead := m_pendingRead - 1;
      if !m_receivedFirst { m_receivedFirst := true; }
      if !hasProtocol {
        if !known {
          Close();
          return;
        }
        hasProtocol := true;
      }
      Handle(calls);
      Accept();
    }

    method ParsePacket(error: IoError, known: bool, calls: seq<Call>)
      requires reading > 0
      modifies this
      ensures State() == PacketParsed(old(State()), error, known, calls)
    {
      hide Closed, ReadFailed, PacketTaken;
      reading := reading - 1;
      if error != NoError { HandleReadError(error); }
      if m_connectionState != OPEN || m_readError {
        Close();
        return;
      }
      TakePacket(known, calls);
    }

    method Perform(e: Event)
      requires Enabled(State(), e)
      modifies this
      ensures State() == Step(old(State()), e)
    {
      hide Closed, Task, Sent, Written, WriteTimedOut, ReadTimedOut, Reading, HeaderParsed, PacketParsed;
      match e {
        case Accept => Accept();
        case Close => Close();
        case CloseTask => CloseConnection();
        case Send(force) => var taken := Send(force);
        case WriteDone(error) => OnWrite(error);
        case WriteTimeout => OnWriteTimeout();
        case ReadTimeout => OnReadTimeout();
        case HeaderRead(error, sizeOk) => ParseHeader(error, sizeOk);
        case PacketRead(error, known, calls) => ParsePacket(error, known, calls);
      }
    }

    /** Any run of the object is a run of the steps, and so keeps what they keep. */
    method Live(events: seq<Event>)
      requires Sound(State()) && Legal(State(), events)
      modifies this
      ensures State() == Run(old(State()), events) && Sound(State())
    {
      hide Enabled, Step, Sound;
      RunSound(State(), events);
      for i := 0 to |events|
        invariant Legal(State(), events[i..]) && Run(State(), events[i..]) == Run(old(State()), events)
      {
        assert events[i..][1..] == events[i + 1..];
        Perform(events[i]);
      }
    }
  }
}
