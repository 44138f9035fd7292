/** The link state of StreamTransportImpl: the connection flags and the queue of outgoing
    block sequences with its single writer. The socket is an environment that completes,
    cancels or fails the operations the transport starts. */
module TransportLink {
  import opened Tlv

  /** One entry of the transmission queue. The slot identifies the list node: entries are
      numbered in the order they are accepted after a close. */
  datatype Item = Item(slot: nat, blocks: seq<Block>)

  /** The outstanding async_write, if any. A write that a pause cancelled is still to report. */
  datatype Write = Idle | Writing(slot: nat) | Cancelled(slot: nat)

  /** Operations that were cancelled and are still to report: connects and writes by a close,
      reads by a pause or a close. Each may report that it was too late to be cancelled. */
  datatype Late = Late(connecting: nat, writing: nat, reading: nat)

  /** Everything but the receive buffer. attempts and pendingReads count the outstanding
      async_connect and async_receive operations that were not cancelled; accepted and
      completed record what happened since the last close; faults counts undefined steps:
      a write started while one is outstanding, a read into the buffer that another is filling,
      or the erasure of a queue item that is gone. */
  datatype Link = Link(
    connecting: bool,
    connected: bool,
    receiving: bool,
    queue: seq<Item>,
    write: Write,
    attempts: nat,
    pendingReads: nat,
    late: Late,
    accepted: seq<Item>,
    completed: seq<Item>,
    faults: nat)

  const LINK_INITIAL := Link(false, false, false, [], Idle, 0, 0, Late(0, 0, 0), [], [], 0)

  datatype WriteOutcome = WriteOk | WriteCanceled | WriteFailed

  datatype ReadOutcome = ReadOk | ReadCanceled | ReadFatal

  // ---------------------------------------------------------------------
  // What each operation does to the link
  // ---------------------------------------------------------------------

  /** On a connected transport opening the socket throws, with the flag already set. */
  function Connect(l: Link): Link {
    if l.connecting then l
    else if l.connected then l.(connecting := true)
    else l.(connecting := true, attempts := l.attempts + 1)
  }

  /** The operations still to report after everything outstanding has been cancelled. */
  function AllLate(l: Link): Late {
    Late(l.late.connecting + l.attempts,
         l.late.writing + (if l.write.Idle? then 0 else 1),
         l.late.reading + l.pendingReads)
  }

  function Close(l: Link): Link {
    Link(false, false, false, [], Idle, 0, 0, AllLate(l), [], [], l.faults)
  }

  function Pause(l: Link): Link {
    if l.connecting || !l.receiving then l
    else
      l.(receiving := false,
      pendingReads := 0,
      late := l.late.(reading := l.late.reading + l.pendingReads),
      write := if l.write.Writing? then Cancelled(l.write.slot) else l.write)
  }

  function AsyncReceive(l: Link): Link {
    l.(pendingReads := l.pendingReads + 1, faults := if l.pendingReads == 0 then l.faults else l.faults + 1)
  }

  function Resume(l: Link): Link {
    if l.connecting || l.receiving then l else AsyncReceive(l.(receiving := true))
  }

  function AsyncWrite(l: Link): Link
    requires l.queue != []
  {
    l.(write := Writing(l.queue[0].slot), faults := if l.write.Idle? then l.faults else l.faults + 1)
  }

  function Send(l: Link, blocks: seq<Block>): Link {
    var item := Item(|l.accepted|, blocks);
    var l' := l.(queue := l.queue + [item], accepted := l.accepted + [item]);
    if l'.connected && |l'.queue| == 1 then AsyncWrite(l') else l'
  }

  function ConnectHandler(l: Link, ok: bool): Link {
    if !ok then Close(l)
    else
      var l' := l.(connecting := false, connected := true);
      if l'.queue == [] then l' else AsyncWrite(Resume(l'))
  }

  function Erase(queue: seq<Item>, slot: nat): seq<Item> {
    if queue == [] then []
    else if queue[0].slot == slot then queue[1..]
    else [queue[0]] + Erase(queue[1..], slot)
  }

  /** The items of the queue that Erase takes away. */
  function Erased(queue: seq<Item>, slot: nat): seq<Item> {
    if queue == [] then []
    else if queue[0].slot == slot then [queue[0]]
    else Erased(queue[1..], slot)
  }

  function HandleAsyncWrite(l: Link, outcome: WriteOutcome, slot: nat): Link {
    match outcome
    case WriteCanceled => l.(write := Idle)
    case WriteFailed => Close(l.(write := Idle))
    case WriteOk =>
      if !l.connected then l.(write := Idle)
      else
        var l' := l.(write := Idle,
                  queue := Erase(l.queue, slot),
                  completed := l.completed + Erased(l.queue, slot));
        if l'.queue == [] then l' else AsyncWrite(l')
  }

  /** A write of an earlier connection reports. Unless it reports an error, its handler goes
      on to erase the item it was for, if the transport is connected again. */
  function HandleLateWrite(l: Link, outcome: WriteOutcome): Link {
    match outcome
    case WriteCanceled => l
    case WriteFailed => Close(l)
    case WriteOk => if !l.connected then l else l.(faults := l.faults + 1)
  }

  /** A read that was not cancelled reported ReadOk or ReadFatal; the handler is the same for
      every read and starts the next one. */
  function HandleAsyncReceive(l: Link, outcome: ReadOutcome): Link {
    match outcome
    case ReadCanceled => l
    case ReadFatal => Close(l)
    case ReadOk => AsyncReceive(l)
  }

  // ---------------------------------------------------------------------
  // Runs
  // ---------------------------------------------------------------------

  datatype Event =
    | EvConnect
    | EvClose
    | EvPause
    | EvResume
    | EvSend(blocks: seq<Block>)
    | EvConnected(ok: bool)
    | EvConnectTimeout
    | EvWritten(outcome: WriteOutcome)
    | EvReceived(fatal: bool)
    | EvLateConnected(ok: bool)
    | EvLateWritten(outcome: WriteOutcome)
    | EvLateRead(readOutcome: ReadOutcome)

  /** What the environment may do: reports answer outstanding operations, and an operation
      reports cancellation only after it was cancelled. The connect timer may have expired
      before it was cancelled. */
  ghost predicate Enabled(l: Link, e: Event) {
    match e
    case EvConnected(_) => l.attempts > 0
    case EvWritten(outcome) =>
      && !l.write.Idle?
      && (outcome.WriteCanceled? ==> l.write.Cancelled?)
    case EvReceived(_) => l.pendingReads > 0
    case EvLateConnected(_) => l.late.connecting > 0
    case EvLateWritten(_) => l.late.writing > 0
    case EvLateRead(_) => l.late.reading > 0
    case _ => true
  }

  /** A receive completion that is not fatal starts the next read; a fatal one (an error, or
      a full buffer without an element) closes the transport. */
  function Step(l: Link, e: Event): Link {
    match e
    case EvConnect => Connect(l)
    case EvClose => Close(l)
    case EvPause => Pause(l)
    case EvResume => Resume(l)
    case EvSend(blocks) => Send(l, blocks)
    case EvConnected(ok) =>
      if l.attempts == 0 then l else ConnectHandler(l.(attempts := l.attempts - 1), ok)
    case EvConnectTimeout => Close(l)
    case EvWritten(outcome) =>
      if l.write.Idle? then l else HandleAsyncWrite(l, outcome, l.write.slot)
    case EvReceived(fatal) =>
      if l.pendingReads == 0 then l
      else HandleAsyncReceive(l.(pendingReads := l.pendingReads - 1), if fatal then ReadFatal else ReadOk)
    case EvLateConnected(ok) =>
      if l.late.connecting == 0 then l
      else ConnectHandler(l.(late := l.late.(connecting := l.late.connecting - 1)), ok)
    case EvLateWritten(outcome) =>
      if l.late.writing == 0 then l
      else HandleLateWrite(l.(late := l.late.(writing := l.late.writing - 1)), outcome)
    case EvLateRead(outcome) =>
      if l.late.reading == 0 then l
      else HandleAsyncReceive(l.(late := l.late.(reading := l.late.reading - 1)), outcome)
  }

  function Run(l: Link, events: seq<Event>): Link
    decreases |events|
  {
    if events == [] then l else Run(Step(l, events[0]), events[1..])
  }

  ghost predicate Possible(l: Link, events: seq<Event>)
    decreases |events|
  {
    events != [] ==> Enabled(l, events[0]) && Possible(Step(l, events[0]), events[1..])
  }

  // ---------------------------------------------------------------------
  // What every run keeps
  // ---------------------------------------------------------------------

  /** Completed writes are a prefix of what was accepted since the last close and the queue is
      the rest; an outstanding write is on the front of the queue; exactly one read is
      outstanding while receiving, none otherwise; exactly one connect while connecting, none
      otherwise; and nothing undefined has happened. */
  ghost predicate Inv(l: Link) {
    && !(l.connecting && l.connected)
    && l.accepted == l.completed + l.queue
    && (forall i :: 0 <= i < |l.accepted| ==> l.accepted[i].slot == i)
    && (!l.connected ==> l.write.Idle? && l.completed == [])
    && (!l.write.Idle? ==> l.queue != [] && l.queue[0].slot == l.write.slot)
    && l.attempts == (if l.connecting then 1 else 0)
    && l.pendingReads == (if l.receiving then 1 else 0)
    && l.faults == 0
  }

  /** The steps that break it: connect on a connected transport, and cancelled operations that
      report success. Such a read goes on reading, such a write erases an item of a later
      connection's queue, and such a connect gets in the way of a later one. */
  ghost predicate Disturbs(l: Link, e: Event) {
    match e
    case EvConnect => l.connected
    case EvLateConnected(ok) => ok && (l.connecting || !l.write.Idle?)
    case EvLateWritten(outcome) => outcome.WriteOk? && l.connected
    case EvLateRead(outcome) => outcome.ReadOk?
    case _ => false
  }

  lemma StepKeepsInv(l: Link, e: Event)
    requires Inv(l) && Enabled(l, e)
    ensures Inv(Step(l, e)) <==> !Disturbs(l, e)
  {
    hide Send, HandleAsyncWrite, ConnectHandler, HandleAsyncReceive, HandleLateWrite, Pause;
    match e
    case EvSend(blocks) => SendKeepsInv(l, blocks);
    case EvWritten(outcome) => WriteKeepsInv(l, outcome);
    case EvConnected(ok) => ConnectKeepsInv(l, l.(attempts := l.attempts - 1), ok);
    case EvLateConnected(ok) => ConnectKeepsInv(l, l.(late := l.late.(connecting := l.late.connecting - 1)), ok);
    case EvReceived(_) => ReadKeepsInv(l);
    case EvLateRead(_) => LateReadBreaksInv(l);
    case EvLateWritten(outcome) => LateWriteKeepsInv(l, outcome);
    case EvPause => PauseKeepsInv(l);
    case _ =>
  }

  lemma PauseKeepsInv(l: Link)
    requires Inv(l)
    ensures Inv(Pause(l))
  {
  }

  lemma LateWriteKeepsInv(l: Link, outcome: WriteOutcome)
    requires Inv(l) && l.late.writing > 0
    ensures Inv(Step(l, EvLateWritten(outcome))) <==> !(outcome.WriteOk? && l.connected)
  {
    hide Send, HandleAsyncWrite, ConnectHandler, HandleAsyncReceive;
  }

  lemma ReadKeepsInv(l: Link)
    requires Inv(l) && l.pendingReads > 0
    ensures Inv(Step(l, EvReceived(true))) && Inv(Step(l, EvReceived(false)))
  {
    hide Send, HandleAsyncWrite, ConnectHandler;
  }

  lemma LateReadBreaksInv(l: Link)
    requires Inv(l) && l.late.reading > 0
    ensures Inv(Step(l, EvLateRead(ReadCanceled))) && Inv(Step(l, EvLateRead(ReadFatal)))
    ensures !Inv(Step(l, EvLateRead(ReadOk)))
  {
    hide Send, HandleAsyncWrite, ConnectHandler;
  }

  /** A connect that reports success is welcome exactly when it leaves no other one outstanding
      and no write behind. */
  lemma ConnectKeepsInv(l: Link, l': Link, ok: bool)
    requires Inv(l) && l'.(attempts := l.attempts, late := l.late) == l
    requires l'.attempts == l.attempts || l'.attempts + 1 == l.attempts
    ensures Inv(ConnectHandler(l', ok)) <==> !ok || (l'.attempts == 0 && l.write.Idle?)
  {
  }

  lemma SendKeepsInv(l: Link, blocks: seq<Block>)
    requires Inv(l)
    ensures Inv(Send(l, blocks))
  {
    var item := Item(|l.accepted|, blocks);
    assert l.accepted + [item] == l.completed + (l.queue + [item]);
  }

  lemma WriteKeepsInv(l: Link, outcome: WriteOutcome)
    requires Inv(l) && !l.write.Idle?
    ensures Inv(HandleAsyncWrite(l, outcome, l.write.slot))
  {
    hide Erase, Erased;
    if outcome.WriteOk? {
      EraseFront(l.queue);
      var front, back := [l.queue[0]], l.queue[1..];
      assert l.queue == front + back;
      assert l.accepted == (l.completed + front) + back;
    }
  }

  lemma EraseFront(queue: seq<Item>)
    requires queue != []
    ensures Erase(queue, queue[0].slot) == queue[1..] && Erased(queue, queue[0].slot) == [queue[0]]
  {
  }

  /** Which steps are undefined, from any state. */
  ghost predicate Faults(l: Link, e: Event) {
    match e
    case EvResume => !l.connecting && !l.receiving && l.pendingReads > 0
    case EvSend(_) => l.connected && l.queue == [] && !l.write.Idle?
    case EvConnected(ok) => ok && ConnectFaults(l)
    case EvLateConnected(ok) => ok && ConnectFaults(l)
    case EvLateWritten(outcome) => outcome.WriteOk? && l.connected
    case EvReceived(fatal) => !fatal && l.pendingReads > 1
    case EvLateRead(outcome) => outcome.ReadOk? && l.pendingReads > 0
    case _ => false
  }

  predicate ConnectFaults(l: Link) {
    l.queue != [] && (!l.write.Idle? || (!l.receiving && l.pendingReads > 0))
  }

  lemma FaultsExactly(l: Link, e: Event)
    requires Enabled(l, e)
    ensures Step(l, e).faults == l.faults <==> !Faults(l, e)
  {
    hide Erase, Erased;
  }

  ghost predicate Undisturbed(l: Link, events: seq<Event>)
    decreases |events|
  {
    events != [] ==> !Disturbs(l, events[0]) && Undisturbed(Step(l, events[0]), events[1..])
  }

  lemma {:induction false} RunKeepsInv(l: Link, events: seq<Event>)
    requires Inv(l) && Possible(l, events) && Undisturbed(l, events)
    ensures Inv(Run(l, events))
    decreases |events|
  {
    hide Inv, Step, Disturbs;
    if events != [] {
      StepKeepsInv(l, events[0]);
      RunKeepsInv(Step(l, events[0]), events[1..]);
    }
  }

  // ---------------------------------------------------------------------
  // The link as its history tells it
  // ---------------------------------------------------------------------

  /** A success takes its item, and no other, off the queue for good. */
  lemma WriteTakesFront(l: Link)
    requires Inv(l) && l.connected && !l.write.Idle?
    ensures var r := Step(l, EvWritten(WriteOk));
            && l.queue != [] && r.queue == l.queue[1..] && r.completed == l.completed + [l.queue[0]]
            && r.accepted == l.accepted
  {
    hide Erase, Erased;
    EraseFront(l.queue);
  }

  /** What an observer of the events knows: the sequences sent since the last close, how many
      of them have been written, and the flags. */
  datatype Past = Past(sent: seq<seq<Block>>, written: nat, connecting: bool, connected: bool, receiving: bool)

  const NO_PAST := Past([], 0, false, false, false)

  /** A close forgets everything. A pause or resume has no effect on a transport that is
      connecting; a transport that connects with something to send starts to receive. */
  function Observed(p: Past, e: Event): Past {
    if Closes(e) then NO_PAST
    else
      match e
      case EvSend(blocks) => p.(sent := p.sent + [blocks])
      case EvWritten(WriteOk) => p.(written := p.written + 1)
      case EvConnect => p.(connecting := true)
      case EvConnected(_) =>
        p.(connecting := false, connected := true, receiving := p.receiving || p.written < |p.sent|)
      case EvLateConnected(_) =>
        p.(connecting := false, connected := true, receiving := p.receiving || p.written < |p.sent|)
      case EvPause => p.(receiving := p.receiving && p.connecting)
      case EvResume => p.(receiving := p.receiving || !p.connecting)
      case _ => p
  }

  function ObservedAll(p: Past, events: seq<Event>): Past
    decreases |events|
  {
    if events == [] then p else ObservedAll(Observed(p, events[0]), events[1..])
  }

  function BlocksOf(items: seq<Item>): seq<seq<Block>> {
    seq(|items|, i requires 0 <= i < |items| => items[i].blocks)
  }

  /** The accepted sequences are those sent, the first ones of them are completed, as many as
      were written, and the queue holds the others. */
  ghost predicate Agrees(l: Link, p: Past) {
    && BlocksOf(l.accepted) == p.sent && |l.completed| == p.written
    && l.connecting == p.connecting && l.connected == p.connected && l.receiving == p.receiving
  }

  lemma SendAgrees(l: Link, p: Past, blocks: seq<Block>)
    requires Agrees(l, p)
    ensures Agrees(Send(l, blocks), Observed(p, EvSend(blocks)))
  {
    var item := Item(|l.accepted|, blocks);
    assert BlocksOf(l.accepted + [item]) == BlocksOf(l.accepted) + [blocks];
  }

  lemma WrittenAgrees(l: Link, p: Past, outcome: WriteOutcome)
    requires Inv(l) && Agrees(l, p) && Enabled(l, EvWritten(outcome)) && !Disturbs(l, EvWritten(outcome))
    ensures Agrees(Step(l, EvWritten(outcome)), Observed(p, EvWritten(outcome)))
  {
    hide Erase, Erased;
    if outcome.WriteOk? {
      WriteTakesFront(l);
    }
  }

  lemma StepAgrees(l: Link, p: Past, e: Event)
    requires Inv(l) && Agrees(l, p) && Enabled(l, e) && !Disturbs(l, e)
    ensures Agrees(Step(l, e), Observed(p, e))
  {
    assert |l.accepted| == |p.sent| && |l.accepted| == |l.completed| + |l.queue|;
    hide HandleAsyncWrite, Send;
    match e
    case EvWritten(outcome) => WrittenAgrees(l, p, outcome);
    case EvSend(blocks) => SendAgrees(l, p, blocks);
    case _ =>
  }

  lemma {:induction false} RunAgrees(l: Link, p: Past, events: seq<Event>)
    requires Inv(l) && Agrees(l, p) && Possible(l, events) && Undisturbed(l, events)
    ensures Agrees(Run(l, events), ObservedAll(p, events))
    decreases |events|
  {
    hide Inv, Step, Disturbs, Agrees, Observed;
    if events != [] {
      StepKeepsInv(l, events[0]);
      StepAgrees(l, p, events[0]);
      RunAgrees(Step(l, events[0]), Observed(p, events[0]), events[1..]);
    }
  }

  /** Over every undisturbed run of a fresh transport: what was sent since the last close is
      completed in order, one sequence for each success, and the rest waits; once there have
      been as many successes as sequences, everything is completed and nothing waits. */
  lemma HistoryTells(events: seq<Event>)
    requires Possible(LINK_INITIAL, events) && Undisturbed(LINK_INITIAL, events)
    ensures var r, p := Run(LINK_INITIAL, events), ObservedAll(NO_PAST, events);
            && p.written <= |p.sent|
            && BlocksOf(r.accepted) == p.sent
            && BlocksOf(r.completed) == p.sent[..p.written]
            && BlocksOf(r.queue) == p.sent[p.written..]
            && (p.written == |p.sent| ==> r.completed == r.accepted && r.queue == [])
            && r.connecting == p.connecting && r.connected == p.connected && r.receiving == p.receiving
  {
    assert BlocksOf([]) == [];
    assert Inv(LINK_INITIAL) && Agrees(LINK_INITIAL, NO_PAST);
    RunAgrees(LINK_INITIAL, NO_PAST, events);
    RunKeepsInv(LINK_INITIAL, events);
    hide Run, ObservedAll, Undisturbed, Possible;
    var r := Run(LINK_INITIAL, events);
    BlocksSplit(r.completed, r.queue);
  }

  lemma BlocksSplit(a: seq<Item>, b: seq<Item>)
    ensures BlocksOf(a) == BlocksOf(a + b)[..|a|] && BlocksOf(b) == BlocksOf(a + b)[|a|..]
  {
  }

  /** Operations that have been started and not reported. */
  function Connects(l: Link): nat { l.attempts + l.late.connecting }
  function Writes(l: Link): nat { (if l.write.Idle? then 0 else 1) + l.late.writing }
  function Reads(l: Link): nat { l.pendingReads + l.late.reading }

  /** An operation is started when its call says so and reports once, whatever closes, pauses
      and errors come between. */
  lemma ConnectsReportOnce(l: Link, e: Event)
    requires Enabled(l, e)
    ensures Connects(Step(l, e)) == Connects(l)
                                    + (if e.EvConnect? && !l.connecting && !l.connected then 1 else 0)
                                    - (if e.EvConnected? || e.EvLateConnected? then 1 else 0)
  {
    hide Erase, Erased;
  }

  lemma WritesReportOnce(l: Link, e: Event)
    requires Enabled(l, e) && (e.EvLateWritten? || Closes(e) || e.EvPause?)
    ensures Writes(Step(l, e)) == Writes(l) - (if e.EvLateWritten? || e.EvWritten? then 1 else 0)
  {
    hide Erase, Erased;
  }

  /** A read that succeeds starts the next one. */
  lemma ReadsReportOnce(l: Link, e: Event)
    requires Enabled(l, e) && (e.EvReceived? || e.EvLateRead? || Closes(e) || e.EvPause?)
    ensures Reads(Step(l, e)) == Reads(l) - (if (e.EvReceived? && e.fatal)
                                                || (e.EvLateRead? && e.readOutcome != ReadOk) then 1 else 0)
  {
    hide Erase, Erased;
  }

  /** What is erased is the item with the slot, and the others stay in order. */
  lemma {:induction false} ErasesSlot(queue: seq<Item>, i: nat)
    requires i < |queue| && forall k :: 0 <= k < i ==> queue[k].slot != queue[i].slot
    ensures Erase(queue, queue[i].slot) == queue[..i] + queue[i + 1..]
    ensures Erased(queue, queue[i].slot) == [queue[i]]
    decreases i
  {
    if i > 0 {
      ErasesSlot(queue[1..], i - 1);
    }
  }

  /** Cancelling loses no operation: what was outstanding is still to report. */
  lemma CancelledStillReport(l: Link)
    requires Inv(l)
    ensures var r := Close(l);
            && r.late.reading == l.late.reading + l.pendingReads
            && r.late.connecting == l.late.connecting + l.attempts
            && r.late.writing == l.late.writing + (if l.write.Idle? then 0 else 1)
    ensures var r := Pause(l);
            && r.late.reading + r.pendingReads == l.late.reading + l.pendingReads
            && r.late.connecting == l.late.connecting && r.late.writing == l.late.writing
            && (r.write.Idle? <==> l.write.Idle?)
            && (!l.connecting ==> r.pendingReads == 0)
  {
  }

  /** From any receiving state, a read that was too late for the pause goes on reading while
      the transport is paused, and the next resume starts a second read into the buffer. */
  lemma LateReadDoublesReads(l: Link) returns (events: seq<Event>)
    requires Inv(l) && l.receiving && !l.connecting
    ensures events == [EvPause, EvLateRead(ReadOk), EvResume] && Possible(l, events)
    ensures var paused := Step(Step(l, EvPause), EvLateRead(ReadOk)); !paused.receiving && paused.pendingReads == 1
    ensures Run(l, events).pendingReads == 2 && Run(l, events).faults == 1
  {
    var l1 := Step(l, EvPause);
    var l2 := Step(l1, EvLateRead(ReadOk));
    var l3 := Step(l2, EvResume);
    assert Run(l3, []) == l3;
    RunCons(l2, EvResume, []);
    events := [EvResume] + [];
    RunCons(l1, EvLateRead(ReadOk), events);
    events := [EvLateRead(ReadOk)] + events;
    RunCons(l, EvPause, events);
    events := [EvPause] + events;
  }

  /** Accepted sequences wait although no write is on its way to report success. */
  ghost predicate Stalled(l: Link) {
    l.connected && l.queue != [] && !l.write.Writing?
  }

  /** A pause that takes effect while a write is outstanding. */
  ghost predicate CancelsWrite(l: Link, e: Event) {
    e.EvPause? && l.receiving && !l.connecting && l.write.Writing?
  }

  /** One write is outstanding exactly when the queue of a connected transport is not empty,
      and the one step that breaks this is a pause during a write. */
  lemma StallsExactlyByPauseDuringWrite(l: Link, e: Event)
    requires Inv(l) && Enabled(l, e) && !Stalled(l)
    ensures l.connected ==> (l.write.Writing? <==> l.queue != [])
    ensures Stalled(Step(l, e)) <==> CancelsWrite(l, e)
  {
    hide Erase, Erased;
    if e.EvWritten? && e.outcome.WriteOk? {
      EraseFront(l.queue);
    }
  }

  ghost predicate PausesDuringWrite(l: Link, events: seq<Event>)
    decreases |events|
  {
    events != [] && (CancelsWrite(l, events[0]) || PausesDuringWrite(Step(l, events[0]), events[1..]))
  }

  /** The single-writer rule over whole runs. */
  lemma {:induction false} SingleWriter(l: Link, events: seq<Event>)
    requires Inv(l) && Possible(l, events) && !Stalled(l)
    requires Undisturbed(l, events) && !PausesDuringWrite(l, events)
    ensures var r := Run(l, events);
            && Inv(r)
            && (r.connected ==> (r.write.Writing? <==> r.queue != []))
            && r.completed <= r.accepted
    decreases |events|
  {
    hide Step, Disturbs, CancelsWrite;
    if events != [] {
      StepKeepsInv(l, events[0]);
      StallsExactlyByPauseDuringWrite(l, events[0]);
      SingleWriter(Step(l, events[0]), events[1..]);
    }
  }

  /** Once a cancelled write has reported, nothing is outstanding and nothing will be: sends
      find a queue of more than one entry, and resume only restarts reading. */
  ghost predicate Dead(l: Link) {
    l.connected && l.queue != [] && l.write.Idle? && l.attempts == 0
  }

  predicate Closes(e: Event) {
    || e.EvClose?
    || e.EvConnectTimeout?
    || ((e.EvConnected? || e.EvLateConnected?) && !e.ok)
    || ((e.EvWritten? || e.EvLateWritten?) && e.outcome.WriteFailed?)
    || (e.EvReceived? && e.fatal)
    || (e.EvLateRead? && e.readOutcome.ReadFatal?)
  }

  /** Only a close ends this, or a connect from before the last close that succeeds now. */
  lemma {:induction false} DeadUntilClosed(l: Link, events: seq<Event>)
    requires Dead(l) && Possible(l, events)
    requires forall e :: e in events ==> !Closes(e) && !e.EvLateConnected?
    ensures var r := Run(l, events);
            Dead(r) && r.completed == l.completed && l.queue <= r.queue
    decreases |events|
  {
    if events != [] {
      assert events[0] in events;
      DeadStep(l, events[0]);
      hide Dead, Closes, Step;
      DeadUntilClosed(Step(l, events[0]), events[1..]);
    }
  }

  lemma DeadStep(l: Link, e: Event)
    requires Dead(l) && Enabled(l, e) && !Closes(e) && !e.EvLateConnected?
    ensures var r := Step(l, e);
            Dead(r) && r.completed == l.completed && l.queue <= r.queue
  {
  }

  lemma RunCons(l: Link, e: Event, rest: seq<Event>)
    requires Enabled(l, e) && Possible(Step(l, e), rest)
    ensures Possible(l, [e] + rest)
    ensures Run(l, [e] + rest) == Run(Step(l, e), rest)
  {
    assert ([e] + rest)[1..] == rest;
  }

  /** From any state with a write outstanding, a pause whose cancellation is reported loses
      the writer: after a resume the next sequence is accepted but will not be written. */
  lemma PauseLosesTheWriter(l: Link, b: seq<Block>) returns (events: seq<Event>)
    requires Inv(l) && CancelsWrite(l, EvPause)
    ensures Possible(l, events) && (forall e :: e in events ==> !Closes(e))
    ensures var r := Run(l, events);
            && Dead(r) && r.receiving
            && r.completed == l.completed
            && r.queue == l.queue + [Item(|l.accepted|, b)]
  {
    var l1 := Step(l, EvPause);
    var l2 := Step(l1, EvWritten(WriteCanceled));
    var l3 := Step(l2, EvResume);
    var l4 := Step(l3, EvSend(b));
    assert Dead(l4) && l4.receiving && l4.completed == l.completed;
    assert l4.queue == l.queue + [Item(|l.accepted|, b)];
    assert Enabled(l, EvPause) && Enabled(l1, EvWritten(WriteCanceled));
    hide Step, Inv, Dead, CancelsWrite;
    events := RunFour(l, EvPause, EvWritten(WriteCanceled), EvResume, EvSend(b));
  }

  lemma {:induction false} RunSnoc(l: Link, events: seq<Event>, e: Event)
    requires Possible(l, events) && Enabled(Run(l, events), e)
    ensures Possible(l, events + [e])
    ensures Run(l, events + [e]) == Step(Run(l, events), e)
    decreases |events|
  {
    hide Step, Enabled;
    if events == [] {
      assert [] + [e] == [e] && [e][1..] == [];
      assert Run(Step(l, e), []) == Step(l, e);
    } else {
      RunSnoc(Step(l, events[0]), events[1..], e);
      assert (events + [e])[1..] == events[1..] + [e];
    }
  }

  /** Such a state is reached by connecting with something to send. */
  lemma WriterStartsOnConnect(a: seq<Block>)
    ensures var l := Step(Send(Connect(LINK_INITIAL), a), EvConnected(true));
            Inv(l) && CancelsWrite(l, EvPause)
  {
    StepKeepsInv(LINK_INITIAL, EvConnect);
    StepKeepsInv(Connect(LINK_INITIAL), EvSend(a));
    StepKeepsInv(Send(Connect(LINK_INITIAL), a), EvConnected(true));
  }

  // ---------------------------------------------------------------------
  // Late successes of writes and connects
  // ---------------------------------------------------------------------

  lemma CallsEnabled(l: Link, a: seq<Block>)
    ensures Enabled(l, EvConnect) && Enabled(l, EvSend(a)) && Enabled(l, EvClose)
  {
  }

  /** A close while the write of a is under way. */
  lemma ClosedDuringWrite(a: seq<Block>)
    ensures var l1 := Step(LINK_INITIAL, EvConnect);
            && Enabled(l1, EvConnected(true))
            && Step(Step(Step(l1, EvConnected(true)), EvSend(a)), EvClose) == LINK_INITIAL.(late := Late(0, 1, 0))
  {
    var l2 := Step(Step(LINK_INITIAL, EvConnect), EvConnected(true));
    assert l2.connected && l2.queue == [] && l2.write.Idle? && l2.attempts == 0;
    assert Step(l2, EvSend(a)).write.Writing?;
  }

  lemma LateWriteAfterConnect()
    ensures var l5 := Step(LINK_INITIAL.(late := Late(0, 1, 0)), EvConnect);
            && Enabled(l5, EvConnected(true))
            && var l6 := Step(l5, EvConnected(true));
               Enabled(l6, EvLateWritten(WriteOk)) && Step(l6, EvLateWritten(WriteOk)).faults == 1
  {
  }

  /** A write that a close was too late to cancel erases an item of the next connection's
      queue that was never there. */
  lemma LateWriteFaults(a: seq<Block>) returns (events: seq<Event>)
    ensures events == [EvConnect, EvConnected(true), EvSend(a), EvClose] + [EvConnect] + [EvConnected(true)]
                      + [EvLateWritten(WriteOk)]
    ensures Possible(LINK_INITIAL, events) && Run(LINK_INITIAL, events).faults == 1
  {
    ClosedDuringWrite(a);
    LateWriteAfterConnect();
    hide Step, Enabled, Run, Possible;
    var l2 := Step(Step(LINK_INITIAL, EvConnect), EvConnected(true));
    CallsEnabled(LINK_INITIAL, a);
    CallsEnabled(l2, a);
    CallsEnabled(Step(l2, EvSend(a)), a);
    var first := RunFour(LINK_INITIAL, EvConnect, EvConnected(true), EvSend(a), EvClose);
    CallsEnabled(Run(LINK_INITIAL, first), a);
    RunSnoc(LINK_INITIAL, first, EvConnect);
    RunSnoc(LINK_INITIAL, first + [EvConnect], EvConnected(true));
    RunSnoc(LINK_INITIAL, first + [EvConnect] + [EvConnected(true)], EvLateWritten(WriteOk));
    events := first + [EvConnect] + [EvConnected(true)] + [EvLateWritten(WriteOk)];
  }

  /** A transport that a late connect has connected while the next attempt is under way. */
  ghost predicate ConnectedTooSoon(l: Link) {
    && l.connected && l.attempts == 1 && l.queue == [] && l.write.Idle?
    && l.pendingReads == 0 && !l.receiving && l.faults == 0
  }

  /** A transport that is not connected and has nothing under way but attempts to connect. */
  ghost predicate Attempting(l: Link, attempts: nat, late: nat) {
    && !l.connected && l.queue == [] && l.write.Idle? && l.pendingReads == 0 && !l.receiving && l.faults == 0
    && l.attempts == attempts && (l.connecting <==> attempts > 0) && l.late.connecting == late
  }

  lemma ConnectAttempts(l: Link, late: nat)
    requires Attempting(l, 0, late)
    ensures Attempting(Step(l, EvConnect), 1, late)
  {
  }

  lemma CloseCutsAttempt(l: Link)
    requires Attempting(l, 1, 0)
    ensures Attempting(Step(l, EvClose), 0, 1)
  {
  }

  lemma LateConnectWins(l: Link)
    requires Attempting(l, 1, 1)
    ensures Enabled(l, EvLateConnected(true)) && ConnectedTooSoon(Step(l, EvLateConnected(true)))
  {
  }

  lemma SecondConnectWrites(l: Link, a: seq<Block>)
    requires ConnectedTooSoon(l)
    ensures var l5 := Step(l, EvSend(a));
            Enabled(l5, EvConnected(true)) && Step(l5, EvConnected(true)).faults == 1
  {
    var l5 := Step(l, EvSend(a));
    assert l5.write.Writing? && l5.queue != [] && l5.attempts == 1;
  }

  lemma LateConnectRuns(l: Link, a: seq<Block>) returns (events: seq<Event>)
    requires Attempting(l, 0, 0)
    ensures events == [EvConnect, EvClose, EvConnect, EvLateConnected(true)] + [EvSend(a)] + [EvConnected(true)]
    ensures Possible(l, events) && Run(l, events).faults == 1
  {
    var l1 := Step(l, EvConnect);
    var l3 := Step(Step(l1, EvClose), EvConnect);
    var l4 := Step(l3, EvLateConnected(true));
    hide Step, Enabled, Run, Possible, ConnectedTooSoon, Attempting;
    ConnectAttempts(l, 0);
    CloseCutsAttempt(l1);
    ConnectAttempts(Step(l1, EvClose), 1);
    LateConnectWins(l3);
    SecondConnectWrites(l4, a);
    CallsEnabled(l, a);
    CallsEnabled(l1, a);
    CallsEnabled(Step(l1, EvClose), a);
    var first := RunFour(l, EvConnect, EvClose, EvConnect, EvLateConnected(true));
    CallsEnabled(l4, a);
    RunSnoc(l, first, EvSend(a));
    RunSnoc(l, first + [EvSend(a)], EvConnected(true));
    events := first + [EvSend(a)] + [EvConnected(true)];
  }

  /** A connect that a close was too late to cancel connects the transport while the next
      attempt is under way; when that succeeds too, a second write is started. */
  lemma LateConnectFaults(a: seq<Block>) returns (events: seq<Event>)
    ensures events == [EvConnect, EvClose, EvConnect, EvLateConnected(true)] + [EvSend(a)] + [EvConnected(true)]
    ensures Possible(LINK_INITIAL, events) && Run(LINK_INITIAL, events).faults == 1
  {
    assert Attempting(LINK_INITIAL, 0, 0);
    hide Possible, Run, Attempting;
    events := LateConnectRuns(LINK_INITIAL, a);
  }

  lemma RunFour(l: Link, e1: Event, e2: Event, e3: Event, e4: Event) returns (events: seq<Event>)
    requires Enabled(l, e1) && Enabled(Step(l, e1), e2) && Enabled(Step(Step(l, e1), e2), e3)
    requires Enabled(Step(Step(Step(l, e1), e2), e3), e4)
    ensures events == [e1, e2, e3, e4] && Possible(l, events)
    ensures Run(l, events) == Step(Step(Step(Step(l, e1), e2), e3), e4)
  {
    hide Step, Enabled;
    RunSnoc(l, [], e1);
    RunSnoc(l, [] + [e1], e2);
    RunSnoc(l, [] + [e1] + [e2], e3);
    RunSnoc(l, [] + [e1] + [e2] + [e3], e4);
    events := [] + [e1] + [e2] + [e3] + [e4];
  }
}
