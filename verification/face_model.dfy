/** The client Face: the pending-Interest table, the registered-prefix table, the posted
    tasks and the transport link, with every operation as a step on that state. */
module FaceModel {
  import opened TransportLink

  // ---------------------------------------------------------------------
  // Applications: Interests carry what their callbacks do
  // ---------------------------------------------------------------------

  /** An expressed Interest and its three callbacks. A callback runs at most once, so what
      it did can be written down as a finite script. */
  datatype Interest = Interest(name: nat, onData: Callback, onNack: Callback, onTimeout: Callback)

  datatype Callback = NoCallback | Script(actions: seq<Action>)

  /** What a callback can do to the Face before it returns. Registered and Unregistered are
      the continuations of a prefix command, which run in the callback of its response. */
  datatype Action =
    | Express(interest: Interest)
    | Put
    | Registered(prefix: nat)
    | Unregistered(prefix: nat)
    | Post(task: Task)

  datatype Task =
    | PauseCheck
    | RemoveOne(id: nat)
    | RemoveAll
    | Unregister(prefix: nat, command: Interest)

  function Weight(i: Interest): (w: nat)
    ensures w >= 1
    decreases i, 1
  {
    1 + CallbackWeight(i.onData) + CallbackWeight(i.onNack) + CallbackWeight(i.onTimeout)
  }

  function CallbackWeight(c: Callback): nat
    decreases c, 1
  {
    if c.NoCallback? then 0 else ActionsWeight(c.actions)
  }

  /** How many Interests the actions may express, directly or in callbacks. */
  function ActionsWeight(actions: seq<Action>): nat
    decreases actions, 0
  {
    if actions == [] then 0 else ActionWeight(actions[0]) + ActionsWeight(actions[1..])
  }

  function ActionWeight(a: Action): nat
    decreases a, 0
  {
    if a.Express? then Weight(a.interest) else 0
  }

  // ---------------------------------------------------------------------
  // State
  // ---------------------------------------------------------------------

  datatype Entry = Entry(id: nat, interest: Interest)

  datatype Fate = Satisfied | Nacked | TimedOut | Removed

  /** How an Interest was settled; in calls, which of its callbacks was invoked. */
  datatype Settled = Settled(id: nat, fate: Fate)

  /** ids are handed out in order. timers holds the Interests whose timeout event is
      scheduled. settled and calls only grow. lost means the transport was closed and
      nothing was sent since. faults counts undefined steps: the erasure of a registered
      prefix that is no longer in the table, and a callback that resumes the transport while
      the handler of a read is delivering from its buffer. After one, what the model does next
      means nothing. */
  datatype Face = Face(
    pit: seq<Entry>,
    nextId: nat,
    timers: set<nat>,
    settled: seq<Settled>,
    calls: seq<Settled>,
    prefixes: seq<nat>,
    tasks: seq<Task>,
    link: Link,
    lost: bool,
    faults: nat)

  const FACE_INITIAL := Face([], 0, {}, [], [], [], [], LINK_INITIAL, false, 0)

  function Load(entries: seq<Entry>): nat {
    if entries == [] then 0 else Weight(entries[0].interest) + Load(entries[1..])
  }

  // ---------------------------------------------------------------------
  // Operations
  // ---------------------------------------------------------------------

  function PostTask(s: Face, t: Task): Face {
    s.(tasks := s.tasks + [t])
  }

  /** The onEmpty signal of a table fires: post the check, do not pause at once. */
  function OnEmpty(s: Face): Face {
    PostTask(s, PauseCheck)
  }

  function EnsureConnected(s: Face): Face {
    var l := if s.link.connected then s.link else Connect(s.link);
    var l' := if l.receiving then l else Resume(l);
    s.(link := l', lost := false)
  }

  function SendPacket(s: Face): Face {
    s.(link := Send(s.link, []))
  }

  function PutPacket(s: Face): Face {
    SendPacket(EnsureConnected(s))
  }

  function ExpressInterest(s: Face, i: Interest): Face {
    var s' := EnsureConnected(s);
    SendPacket(s'.(pit := s'.pit + [Entry(s'.nextId, i)],
               timers := s'.timers + {s'.nextId},
               nextId := s'.nextId + 1))
  }

  function EraseAt<T>(items: seq<T>, i: nat): seq<T>
    requires i < |items|
  {
    items[..i] + items[i + 1..]
  }

  function Settle(s: Face, id: nat, fate: Fate): Face {
    s.(settled := s.settled + [Settled(id, fate)])
  }

  /** ContainerWithOnEmptySignal::erase on the pending-Interest table. */
  function ErasePending(s: Face, i: nat): Face
    requires i < |s.pit|
  {
    var s' := s.(pit := EraseAt(s.pit, i));
    if s'.pit == [] then OnEmpty(s') else s'
  }

  function CancelTimer(s: Face, id: nat): Face {
    s.(timers := s.timers - {id})
  }

  function IndexOf(pit: seq<Entry>, id: nat): (i: nat)
    ensures i <= |pit|
    ensures i < |pit| ==> pit[i].id == id
    ensures forall k :: 0 <= k < i ==> pit[k].id != id
  {
    if pit == [] || pit[0].id == id then 0 else 1 + IndexOf(pit[1..], id)
  }

  /** asyncRemovePendingInterest: remove_if, then onEmpty if the table is empty, whether or
      not anything was removed. */
  function RemovePending(s: Face, id: nat): Face {
    var i := IndexOf(s.pit, id);
    var s' := if i < |s.pit| then Settle(CancelTimer(s.(pit := EraseAt(s.pit, i)), id), id, Removed) else s;
    if s'.pit == [] then OnEmpty(s') else s'
  }

  function RemoveFrom(s: Face): Face
    decreases |s.pit|
  {
    if s.pit == [] then s
    else
      var id := s.pit[0].id;
      RemoveFrom(Settle(CancelTimer(s.(pit := s.pit[1..]), id), id, Removed))
  }

  /** asyncRemoveAllPendingInterests: clear, which always fires onEmpty. */
  function RemoveAllPending(s: Face): Face {
    OnEmpty(RemoveFrom(s))
  }

  function AfterPrefixRegistered(s: Face, prefix: nat): Face {
    s.(prefixes := s.prefixes + [prefix])
  }

  function IndexOfPrefix(prefixes: seq<nat>, prefix: nat): (i: nat)
    ensures i <= |prefixes|
    ensures i < |prefixes| ==> prefixes[i] == prefix
  {
    if prefixes == [] || prefixes[0] == prefix then 0 else 1 + IndexOfPrefix(prefixes[1..], prefix)
  }

  /** The continuation of an unregister command erases the record it was started for. */
  function FinalizeUnregisterPrefix(s: Face, prefix: nat): Face {
    var i := IndexOfPrefix(s.prefixes, prefix);
    if i == |s.prefixes| then s.(faults := s.faults + 1)
    else
      var s' := s.(prefixes := EraseAt(s.prefixes, i));
      if s'.prefixes == [] then OnEmpty(s') else s'
  }

  /** asyncUnregisterPrefix starts a command for a prefix that is registered. */
  function UnregisterPrefix(s: Face, prefix: nat, command: Interest): Face {
    if IndexOfPrefix(s.prefixes, prefix) < |s.prefixes| then ExpressInterest(s, command) else s
  }

  function OnEmptyPitOrNoRegisteredPrefixes(s: Face): Face {
    if s.pit == [] && s.prefixes == [] then s.(link := Pause(s.link)) else s
  }

  function Act(s: Face, a: Action): Face {
    match a
    case Express(i) => ExpressInterest(s, i)
    case Put => PutPacket(s)
    case Registered(prefix) => AfterPrefixRegistered(s, prefix)
    case Unregistered(prefix) => FinalizeUnregisterPrefix(s, prefix)
    case Post(t) => PostTask(s, t)
  }

  function Play(s: Face, actions: seq<Action>): Face
    decreases |actions|
  {
    if actions == [] then s else Play(Act(s, actions[0]), actions[1..])
  }

  function Invoke(s: Face, id: nat, c: Callback, fate: Fate): Face {
    if c.NoCallback? then s else Play(s.(calls := s.calls + [Settled(id, fate)]), c.actions)
  }

  function CallbackOf(i: Interest, fate: Fate): Callback {
    match fate
    case Satisfied => i.onData
    case Nacked => i.onNack
    case TimedOut => i.onTimeout
    case Removed => NoCallback
  }

  function CallbackFor(e: Entry, fate: Fate): Callback {
    CallbackOf(e.interest, fate)
  }

  /** The callback invocation that delivering to e amounts to, if it has that callback. */
  function CallOf(e: Entry, fate: Fate): seq<Settled> {
    if CallbackFor(e, fate).NoCallback? then [] else [Settled(e.id, fate)]
  }

  /** A script only appends to the table, and no more than its weight. */
  lemma {:induction false} PlayAppends(s: Face, actions: seq<Action>)
    ensures var r := Play(s, actions);
            && s.pit <= r.pit
            && s.nextId <= r.nextId
            && Load(r.pit[|s.pit|..]) <= ActionsWeight(actions)
            && (forall k :: |s.pit| <= k < |r.pit| ==> r.pit[k].id >= s.nextId)
            && r.settled == s.settled && r.calls == s.calls
    decreases |actions|
  {
    hide Act, Load, Weight;
    if actions == [] {
      LoadEmpty(s.pit);
    } else {
      var s1, r := Act(s, actions[0]), Play(s, actions);
      PlayAppends(s1, actions[1..]);
      ActAppends(s, actions[0]);
      LoadFrom(r.pit, |s.pit|, |s1.pit|);
    }
  }

  lemma ActAppends(s: Face, a: Action)
    ensures var r := Act(s, a);
            && s.pit <= r.pit && |r.pit| <= |s.pit| + 1
            && s.nextId <= r.nextId
            && (if |r.pit| == |s.pit| then ActionWeight(a) == 0
                else r.pit[|s.pit|].id == s.nextId && Weight(r.pit[|s.pit|].interest) == ActionWeight(a))
            && r.settled == s.settled && r.calls == s.calls
  {
    hide Weight, Connect, Resume, Send;
  }

  lemma LoadFrom(pit: seq<Entry>, i: nat, j: nat)
    requires i <= j <= |pit| && j <= i + 1
    ensures Load(pit[i..]) == Load(pit[j..]) + (if i == j then 0 else Weight(pit[i].interest))
  {
    hide Weight;
    if i < j {
      assert pit[i..][1..] == pit[j..];
    }
  }

  lemma {:induction false} LoadAppend(a: seq<Entry>, b: seq<Entry>)
    ensures Load(a + b) == Load(a) + Load(b)
  {
    if a == [] {
      assert a + b == b;
    } else {
      LoadAppend(a[1..], b);
      assert (a + b)[1..] == a[1..] + b;
    }
  }

  /** One round of the delivery loops on a matching entry: erase it, run its callback while
      the local pointer keeps the entry alive, then drop the entry with its timer. */
  function DeliverTo(s: Face, pos: nat, fate: Fate): Face
    requires pos < |s.pit|
  {
    var e := s.pit[pos];
    var s' := Invoke(Settle(ErasePending(s, pos), e.id, fate), e.id, CallbackFor(e, fate), fate);
    CancelTimer(s', e.id)
  }

  lemma DeliverToShape(s: Face, pos: nat, fate: Fate)
    requires pos < |s.pit|
    ensures var r := DeliverTo(s, pos, fate);
            && EraseAt(s.pit, pos) <= r.pit
            && s.nextId <= r.nextId
            && Load(r.pit[|s.pit| - 1..]) < Weight(s.pit[pos].interest)
            && (forall k :: |s.pit| - 1 <= k < |r.pit| ==> r.pit[k].id >= s.nextId)
            && r.settled == s.settled + [Settled(s.pit[pos].id, fate)]
            && r.calls == s.calls + CallOf(s.pit[pos], fate)
  {
    hide Invoke, Load, Weight, CallbackFor, ErasePending;
    var e := s.pit[pos];
    var c, s' := CallbackFor(e, fate), Settle(ErasePending(s, pos), e.id, fate);
    ErasedPending(s, pos);
    InvokeShape(s', e.id, c, fate);
    CallbackLighter(e, fate);
  }

  lemma ErasedPending(s: Face, i: nat)
    requires i < |s.pit|
    ensures var r := ErasePending(s, i);
            r.pit == EraseAt(s.pit, i) && r.nextId == s.nextId && r.settled == s.settled && r.calls == s.calls
  {
  }

  lemma CallbackLighter(e: Entry, fate: Fate)
    ensures CallbackWeight(CallbackFor(e, fate)) < Weight(e.interest)
  {
  }

  lemma InvokeShape(s: Face, id: nat, c: Callback, fate: Fate)
    ensures var r := Invoke(s, id, c, fate);
            && s.pit <= r.pit
            && s.nextId <= r.nextId
            && Load(r.pit[|s.pit|..]) <= CallbackWeight(c)
            && (forall k :: |s.pit| <= k < |r.pit| ==> r.pit[k].id >= s.nextId)
            && r.settled == s.settled
            && r.calls == s.calls + (if c.NoCallback? then [] else [Settled(id, fate)])
  {
    hide Play, Load;
    if c.Script? {
      PlayAppends(s.(calls := s.calls + [Settled(id, fate)]), c.actions);
    } else {
      LoadEmpty(s.pit);
    }
  }

  lemma LoadEmpty(entries: seq<Entry>)
    ensures Load(entries[|entries|..]) == 0
  {
  }

  lemma DeliverToShrinks(s: Face, pos: nat, fate: Fate)
    requires pos < |s.pit|
    ensures |DeliverTo(s, pos, fate).pit| >= pos
    ensures Load(DeliverTo(s, pos, fate).pit[pos..]) < Load(s.pit[pos..])
  {
    hide DeliverTo;
    DeliverToShape(s, pos, fate);
    var r := DeliverTo(s, pos, fate);
    var rest, added := s.pit[pos + 1..], r.pit[|s.pit| - 1..];
    assert r.pit[..|s.pit| - 1] == EraseAt(s.pit, pos);
    assert r.pit[pos..] == rest + added;
    assert s.pit[pos..] == [s.pit[pos]] + rest;
    LoadAppend(rest, added);
    assert (s.pit[pos..])[1..] == rest;
  }

  /** The loops of satisfyPendingInterests and nackPendingInterests from position pos. The
      successor of the erased entry is taken before its callback runs: when the entry was
      the last one, the loop ends even if the callback has appended entries. */
  function Deliver(s: Face, pos: nat, matches: Interest -> bool, fate: Fate): Face
    requires pos <= |s.pit|
    decreases Load(s.pit[pos..])
  {
    if pos == |s.pit| then s
    else if !matches(s.pit[pos].interest) then
      assert s.pit[pos..][1..] == s.pit[pos + 1..];
      Deliver(s, pos + 1, matches, fate)
    else
      DeliverToShrinks(s, pos, fate);
      if pos + 1 == |s.pit| then DeliverTo(s, pos, fate)
      else Deliver(DeliverTo(s, pos, fate), pos, matches, fate)
  }

  /** The timeout event of an entry: callback first, then the deleter erases the entry. */
  function Timeout(s: Face, id: nat): Face {
    var i := IndexOf(s.pit, id);
    if i == |s.pit| then s
    else
      var s' := Invoke(Settle(CancelTimer(s, id), id, TimedOut), id, s.pit[i].interest.onTimeout, TimedOut);
      var j := IndexOf(s'.pit, id);
      if j == |s'.pit| then s' else ErasePending(s', j)
  }

  function RunTask(s: Face): Face {
    if s.tasks == [] then s
    else
      var s' := s.(tasks := s.tasks[1..]);
      match s.tasks[0]
      case PauseCheck => OnEmptyPitOrNoRegisteredPrefixes(s')
      case RemoveOne(id) => RemovePending(s', id)
      case RemoveAll => RemoveAllPending(s')
      case Unregister(prefix, command) => UnregisterPrefix(s', prefix, command)
  }

  // ---------------------------------------------------------------------
  // Runs
  // ---------------------------------------------------------------------

  /** What happens to a Face from outside: calls of the application, packets, timers,
      posted tasks, and completions on the socket. */
  datatype FaceEvent =
    | CallExpress(interest: Interest)
    | CallPut
    | CallPost(task: Task)
    | ReceiveData(matches: Interest -> bool)
    | ReceiveNack(matches: Interest -> bool)
    | ReceiveInterest(actions: seq<Action>)
    | TimerFires(id: nat)
    | NextTask
    | Socket(event: Event)

  /** A packet has been handed over by the handler of a read, and r is what the callbacks have
      made of s. Had they resumed the transport, the buffer would have been emptied under the
      handler. */
  function Received(s: Face, r: Face): Face {
    if !s.link.receiving && r.link.receiving then r.(faults := r.faults + 1) else r
  }

  function FaceStep(s: Face, e: FaceEvent): Face {
    match e
    case CallExpress(i) => ExpressInterest(s, i)
    case CallPut => PutPacket(s)
    case CallPost(t) => PostTask(s, t)
    case ReceiveData(matches) => Received(s, Deliver(s, 0, matches, Satisfied))
    case ReceiveNack(matches) => Received(s, Deliver(s, 0, matches, Nacked))
    case ReceiveInterest(actions) => Received(s, Play(s, actions))
    case TimerFires(id) => Timeout(s, id)
    case NextTask => RunTask(s)
    case Socket(ev) => s.(link := Step(s.link, ev), lost := s.lost || Closes(ev))
  }

  /** Packets arrive while the transport is receiving, or from a read that was cancelled too
      late; a timer fires only while it is scheduled; and the socket reports on what the link
      has outstanding. The continuations of prefix commands do not run in the callbacks for
      Interests, but in those for the commands' responses. */
  ghost predicate FaceEnabled(s: Face, e: FaceEvent) {
    match e
    case ReceiveData(_) => CanArrive(s.link)
    case ReceiveNack(_) => CanArrive(s.link)
    case ReceiveInterest(actions) => CanArrive(s.link) && forall a :: a in actions ==> !a.Registered?
    case TimerFires(id) => id in s.timers
    case NextTask => s.tasks != []
    case Socket(ev) => Enabled(s.link, ev) && FromSocket(ev)
    case _ => true
  }

  predicate CanArrive(l: Link) {
    l.receiving || l.pendingReads > 0 || l.late.reading > 0
  }

  /** Reports of the socket and its timer, and a shutdown. */
  predicate FromSocket(e: Event) {
    !e.EvConnect? && !e.EvPause? && !e.EvResume? && !e.EvSend?
  }
}
