/** What every run of the client Face keeps: each Interest is settled at most once, timers
    belong to pending entries, and the Face keeps listening while it waits for anything. */
module FaceProperties {
  import opened TransportLink
  import opened FaceModel

  // ---------------------------------------------------------------------
  // The invariant
  // ---------------------------------------------------------------------

  ghost function PitIds(pit: seq<Entry>): set<nat> {
    set k | 0 <= k < |pit| :: pit[k].id
  }

  ghost function SettledIds(settled: seq<Settled>): set<nat> {
    set k | 0 <= k < |settled| :: settled[k].id
  }

  /** The ids in use are exactly those handed out. */
  ghost predicate Covers(ids: set<nat>, nextId: nat) {
    forall id :: id in ids <==> 0 <= id < nextId
  }

  ghost predicate Increasing(pit: seq<Entry>) {
    forall i, j :: 0 <= i < j < |pit| ==> pit[i].id < pit[j].id
  }

  ghost predicate NeverTwice(settled: seq<Settled>) {
    forall i, j :: 0 <= i < j < |settled| ==> settled[i].id != settled[j].id
  }

  /** The transport is receiving and a read is outstanding, or it will resume as soon as the connection is there. */
  ghost predicate Listens(l: Link) {
    (l.receiving && l.pendingReads > 0) || (l.connecting && l.queue != [])
  }

  /** All that listening depends on. It holds whatever late operations report. */
  ghost predicate LinkInv(l: Link) {
    (l.receiving ==> l.connected && l.pendingReads > 0) && !(l.connecting && l.connected)
  }

  /** Every Interest ever expressed is pending or settled, never both, and nothing is settled
      twice. firing is the entry whose timeout callback is running, held an erased entry
      that its Data or Nack callback still holds. */
  ghost predicate Accounted(s: Face, firing: set<nat>, held: set<nat>) {
    && Increasing(s.pit) && NeverTwice(s.settled)
    && Covers(PitIds(s.pit) + SettledIds(s.settled), s.nextId)
    && PitIds(s.pit) * SettledIds(s.settled) == firing
    && s.timers == (PitIds(s.pit) - firing) + held
  }

  /** busy: a callback is running. */
  ghost predicate Ready(s: Face, busy: bool) {
    LinkInv(s.link) && (!s.lost && (busy || s.pit != [] || s.prefixes != []) ==> Listens(s.link))
  }

  /** No Interest has two callbacks invoked, and each call is how the Interest was settled. */
  ghost predicate CalledOnce(s: Face) {
    && NeverTwice(s.calls)
    && forall k :: 0 <= k < |s.calls| ==> s.calls[k] in s.settled
  }

  ghost predicate FaceInv(s: Face) {
    Accounted(s, {}, {}) && Ready(s, false) && CalledOnce(s)
  }

  // ---------------------------------------------------------------------
  // Sets of ids
  // ---------------------------------------------------------------------

  lemma PitIdsAppend(pit: seq<Entry>, e: Entry)
    ensures PitIds(pit + [e]) == PitIds(pit) + {e.id}
  {
    var longer := pit + [e];
    assert longer[|pit|] == e;
    assert forall k :: 0 <= k < |pit| ==> longer[k] == pit[k];
  }

  lemma SettledIdsAppend(settled: seq<Settled>, x: Settled)
    ensures SettledIds(settled + [x]) == SettledIds(settled) + {x.id}
  {
    var longer := settled + [x];
    assert longer[|settled|] == x;
    assert forall k :: 0 <= k < |settled| ==> longer[k] == settled[k];
  }

  lemma PitIdsErase(pit: seq<Entry>, i: nat)
    requires i < |pit| && Increasing(pit)
    ensures PitIds(EraseAt(pit, i)) == PitIds(pit) - {pit[i].id}
    ensures Increasing(EraseAt(pit, i))
    ensures pit[i].id in PitIds(pit)
  {
    var shorter := EraseAt(pit, i);
    assert forall k :: 0 <= k < i ==> shorter[k] == pit[k];
    assert forall k :: i <= k < |shorter| ==> shorter[k] == pit[k + 1];
    forall id | id in PitIds(pit) - {pit[i].id}
      ensures id in PitIds(shorter)
    {
      var k :| 0 <= k < |pit| && pit[k].id == id;
      assert k < i || shorter[k - 1].id == id;
      assert k > i || shorter[k].id == id;
    }
  }

  lemma NotSettledTwice(settled: seq<Settled>, x: Settled)
    requires NeverTwice(settled) && x.id !in SettledIds(settled)
    ensures NeverTwice(settled + [x])
  {
  }

  // ---------------------------------------------------------------------
  // Steps on the table
  // ---------------------------------------------------------------------

  lemma ExpressAccounted(s: Face, i: Interest, firing: set<nat>, held: set<nat>)
    requires Accounted(s, firing, held)
    ensures var r := ExpressInterest(s, i);
            Accounted(r, firing, held) && r.settled == s.settled && r.calls == s.calls
  {
    hide EnsureConnected, SendPacket, PitIds, SettledIds, NeverTwice;
    var s1 := EnsureConnected(s).(pit := s.pit + [Entry(s.nextId, i)],
      timers := s.timers + {s.nextId}, nextId := s.nextId + 1);
    EnsureConnectedLeavesTables(s);
    SendLeavesTables(s1);
    PitIdsAppend(s.pit, Entry(s.nextId, i));
    var ids := PitIds(s.pit) + SettledIds(s.settled);
    assert s.nextId !in ids;
    assert PitIds(s1.pit) + SettledIds(s.settled) == ids + {s.nextId};
    assert Covers(ids + {s.nextId}, s.nextId + 1);
    PitIdsBelow(s.pit, ids, s.nextId);
  }

  lemma PitIdsBelow(pit: seq<Entry>, ids: set<nat>, nextId: nat)
    requires PitIds(pit) <= ids && Covers(ids, nextId)
    ensures forall k :: 0 <= k < |pit| ==> pit[k].id < nextId
  {
    forall k | 0 <= k < |pit|
      ensures pit[k].id < nextId
    {
      assert pit[k].id in PitIds(pit);
    }
  }

  ghost predicate SameTables(s: Face, t: Face) {
    && t.pit == s.pit && t.nextId == s.nextId && t.timers == s.timers
    && t.settled == s.settled && t.calls == s.calls && t.prefixes == s.prefixes && t.tasks == s.tasks
    && t.faults == s.faults
  }

  lemma EnsureConnectedLeavesTables(s: Face)
    ensures SameTables(s, EnsureConnected(s)) && !EnsureConnected(s).lost
  {
  }

  lemma SendLeavesTables(s: Face)
    ensures SameTables(s, SendPacket(s)) && SendPacket(s).lost == s.lost
  {
  }

  lemma MovedIdsCovered(pending: set<nat>, settled: set<nat>, id: nat)
    requires id in pending
    ensures (pending - {id}) + (settled + {id}) == pending + settled
    ensures pending + (settled + {id}) == pending + settled
  {
  }

  /** An entry leaves the table for good while its timer is still held. */
  lemma EraseAccounted(s: Face, i: nat, fate: Fate)
    requires Accounted(s, {}, {}) && i < |s.pit|
    ensures Accounted(Settle(ErasePending(s, i), s.pit[i].id, fate), {}, {s.pit[i].id})
  {
    var id := s.pit[i].id;
    PitIdsErase(s.pit, i);
    SettledIdsAppend(s.settled, Settled(id, fate));
    MovedIdsCovered(PitIds(s.pit), SettledIds(s.settled), id);
    assert id !in SettledIds(s.settled) by {
      assert id in PitIds(s.pit);
      assert PitIds(s.pit) * SettledIds(s.settled) == {};
    }
    NotSettledTwice(s.settled, Settled(id, fate));
  }

  lemma CancelHeldTimer(s: Face, id: nat)
    requires Accounted(s, {}, {id}) && id in SettledIds(s.settled)
    ensures Accounted(CancelTimer(s, id), {}, {})
  {
    assert id !in PitIds(s.pit) by {
      assert PitIds(s.pit) * SettledIds(s.settled) == {};
    }
  }

  /** Erasing with the timer gone at once. */
  lemma DropAccounted(s: Face, i: nat)
    requires Accounted(s, {}, {}) && i < |s.pit|
    ensures Accounted(Settle(CancelTimer(s.(pit := EraseAt(s.pit, i)), s.pit[i].id), s.pit[i].id, Removed), {}, {})
  {
    var id := s.pit[i].id;
    EraseAccounted(s, i, Removed);
    SettledIdsAppend(s.settled, Settled(id, Removed));
    CancelHeldTimer(Settle(ErasePending(s, i), id, Removed), id);
  }

  // ---------------------------------------------------------------------
  // Steps on the link
  // ---------------------------------------------------------------------

  /** Whatever the state of the transport, connecting and sending makes it listen. */
  lemma PutListens(s: Face)
    requires LinkInv(s.link)
    ensures LinkInv(PutPacket(s).link) && Listens(PutPacket(s).link) && !PutPacket(s).lost
  {
  }

  lemma ExpressReady(s: Face, i: Interest)
    requires LinkInv(s.link)
    ensures Ready(ExpressInterest(s, i), true)
  {
    PutListens(s);
    assert ExpressInterest(s, i).link == PutPacket(s).link;
  }

  /** No report, however late, ends listening, unless it closes the transport. */
  lemma SocketKeepsListening(l: Link, e: Event)
    requires LinkInv(l) && Enabled(l, e) && FromSocket(e)
    ensures LinkInv(Step(l, e))
    ensures Listens(l) && !Closes(e) ==> Listens(Step(l, e))
  {
    hide Erase, Erased;
  }

  // ---------------------------------------------------------------------
  // Callbacks
  // ---------------------------------------------------------------------

  lemma ActKeeps(s: Face, a: Action, busy: bool, firing: set<nat>, held: set<nat>)
    requires Accounted(s, firing, held) && Ready(s, busy) && (a.Registered? ==> busy)
    ensures Accounted(Act(s, a), firing, held) && Ready(Act(s, a), busy)
  {
    hide EnsureConnected, SendPacket, PitIds, SettledIds, Covers, Increasing, NeverTwice, LinkInv, Listens;
    match a
    case Express(i) =>
      ExpressAccounted(s, i, firing, held);
      ExpressReady(s, i);
    case Put =>
      PutListens(s);
      EnsureConnectedLeavesTables(s);
      SendLeavesTables(EnsureConnected(s));
    case _ =>
  }

  lemma {:induction false} PlayKeeps(s: Face, actions: seq<Action>, busy: bool, firing: set<nat>, held: set<nat>)
    requires Accounted(s, firing, held) && Ready(s, busy)
    requires busy || forall a :: a in actions ==> !a.Registered?
    ensures var r := Play(s, actions); Accounted(r, firing, held) && Ready(r, busy)
    decreases |actions|
  {
    hide Accounted, Ready, Act;
    if actions != [] {
      assert actions[0] in actions;
      assert forall a :: a in actions[1..] ==> a in actions;
      ActKeeps(s, actions[0], busy, firing, held);
      PlayKeeps(Act(s, actions[0]), actions[1..], busy, firing, held);
    }
  }

  lemma InvokeKeeps(s: Face, id: nat, c: Callback, fate: Fate, firing: set<nat>, held: set<nat>)
    requires Accounted(s, firing, held) && Ready(s, true)
    ensures var r := Invoke(s, id, c, fate); Accounted(r, firing, held) && Ready(r, true)
    ensures var r := Invoke(s, id, c, fate); r.settled == s.settled && s.pit <= r.pit
  {
    hide PitIds, SettledIds, Covers, Increasing, NeverTwice, LinkInv;
    if c.Script? {
      var s' := s.(calls := s.calls + [Settled(id, fate)]);
      PlayKeeps(s', c.actions, true, firing, held);
      PlayAppends(s', c.actions);
    }
  }

  /** An Interest is called back only when it is settled for the first time. */
  lemma InvokeCalledOnce(s: Face, id: nat, c: Callback, fate: Fate, s': Face)
    requires CalledOnce(s) && id !in SettledIds(s.settled)
    requires s'.settled == s.settled + [Settled(id, fate)] && s'.calls == s.calls
    ensures CalledOnce(Invoke(s', id, c, fate))
  {
    hide Play;
    var x := Settled(id, fate);
    assert s'.settled[|s.settled|] == x;
    assert forall k :: 0 <= k < |s.calls| ==> s.calls[k] in s'.settled;
    forall k | 0 <= k < |s.calls|
      ensures s.calls[k].id != id
    {
      var j :| 0 <= j < |s.settled| && s.settled[j] == s.calls[k];
    }
    if c.Script? {
      PlayAppends(s'.(calls := s.calls + [x]), c.actions);
    }
  }

  // ---------------------------------------------------------------------
  // Events
  // ---------------------------------------------------------------------

  lemma PendingNotSettled(s: Face, i: nat)
    requires Accounted(s, {}, {}) && i < |s.pit|
    ensures s.pit[i].id !in SettledIds(s.settled)
  {
    var id := s.pit[i].id;
    assert id in PitIds(s.pit);
    assert id !in PitIds(s.pit) * SettledIds(s.settled);
  }

  lemma DeliverToKeeps(s: Face, pos: nat, fate: Fate)
    requires Accounted(s, {}, {}) && Ready(s, true) && CalledOnce(s) && pos < |s.pit|
    ensures var r := DeliverTo(s, pos, fate); Accounted(r, {}, {}) && Ready(r, true) && CalledOnce(r)
  {
    hide Invoke, PitIds, Covers, Increasing, NeverTwice;
    var id := s.pit[pos].id;
    var s1 := Settle(ErasePending(s, pos), id, fate);
    EraseAccounted(s, pos, fate);
    assert Ready(s1, true);
    var c := CallbackFor(s.pit[pos], fate);
    InvokeKeeps(s1, id, c, fate, {}, {id});
    SettledIdsAppend(s.settled, Settled(id, fate));
    CancelHeldTimer(Invoke(s1, id, c, fate), id);
    PendingNotSettled(s, pos);
    InvokeCalledOnce(s, id, c, fate, s1);
  }

  lemma {:induction false} DeliverKeeps(s: Face, pos: nat, matches: Interest -> bool, fate: Fate)
    requires Accounted(s, {}, {}) && Ready(s, true) && CalledOnce(s) && pos <= |s.pit|
    ensures var r := Deliver(s, pos, matches, fate);
            Accounted(r, {}, {}) && Ready(r, true) && CalledOnce(r)
    decreases Load(s.pit[pos..])
  {
    hide Accounted, Ready, CalledOnce, DeliverTo;
    if pos < |s.pit| {
      if matches(s.pit[pos].interest) {
        DeliverToKeeps(s, pos, fate);
        DeliverToShrinks(s, pos, fate);
        if pos + 1 < |s.pit| {
          DeliverKeeps(DeliverTo(s, pos, fate), pos, matches, fate);
        }
      } else {
        assert s.pit[pos..][1..] == s.pit[pos + 1..];
        DeliverKeeps(s, pos + 1, matches, fate);
      }
    }
  }

  lemma FireAccounted(s: Face, i: nat)
    requires Accounted(s, {}, {}) && i < |s.pit|
    ensures Accounted(Settle(CancelTimer(s, s.pit[i].id), s.pit[i].id, TimedOut), {s.pit[i].id}, {})
  {
    var id := s.pit[i].id;
    PitIdsErase(s.pit, i);
    SettledIdsAppend(s.settled, Settled(id, TimedOut));
    MovedIdsCovered(PitIds(s.pit), SettledIds(s.settled), id);
    assert id !in SettledIds(s.settled) by {
      assert PitIds(s.pit) * SettledIds(s.settled) == {};
    }
    NotSettledTwice(s.settled, Settled(id, TimedOut));
  }

  lemma DeleterAccounted(s: Face, i: nat)
    requires i < |s.pit| && Accounted(s, {s.pit[i].id}, {})
    ensures Accounted(ErasePending(s, i), {}, {})
  {
    PitIdsErase(s.pit, i);
    hide PitIds, SettledIds;
    var id, pending, settled := s.pit[i].id, PitIds(s.pit), SettledIds(s.settled);
    assert id in settled by {
      assert pending * settled == {id};
    }
    assert (pending - {id}) + settled == pending + settled;
  }

  lemma TimeoutKeeps(s: Face, id: nat)
    requires FaceInv(s) && id in s.timers
    ensures FaceInv(Timeout(s, id))
  {
    hide Invoke, Covers, NeverTwice, Increasing, SettledIds;
    var i := IndexOf(s.pit, id);
    var k :| 0 <= k < |s.pit| && s.pit[k].id == id;
    var s1 := Settle(CancelTimer(s, id), id, TimedOut);
    FireAccounted(s, i);
    var c := s.pit[i].interest.onTimeout;
    var s2 := Invoke(s1, id, c, TimedOut);
    InvokeKeeps(s1, id, c, TimedOut, {id}, {});
    PendingNotSettled(s, i);
    InvokeCalledOnce(s, id, c, TimedOut, s1);
    assert s2.pit[i].id == id;
    var j := IndexOf(s2.pit, id);
    DeleterAccounted(s2, j);
  }

  lemma {:induction false} RemoveFromKeeps(s: Face)
    requires FaceInv(s)
    ensures FaceInv(RemoveFrom(s)) && RemoveFrom(s).pit == []
    decreases |s.pit|
  {
    hide PitIds, SettledIds, Covers, Increasing, NeverTwice;
    if s.pit != [] {
      DropAccounted(s, 0);
      assert EraseAt(s.pit, 0) == s.pit[1..];
      RemoveFromKeeps(Settle(CancelTimer(s.(pit := s.pit[1..]), s.pit[0].id), s.pit[0].id, Removed));
    }
  }

  lemma PauseWhenIdle(s: Face)
    requires FaceInv(s)
    ensures FaceInv(OnEmptyPitOrNoRegisteredPrefixes(s))
  {
  }

  lemma RunTaskKeeps(s: Face)
    requires FaceInv(s) && s.tasks != []
    ensures FaceInv(RunTask(s))
  {
    hide PitIds, SettledIds, Covers, Increasing, NeverTwice;
    hide OnEmptyPitOrNoRegisteredPrefixes, ExpressInterest, RemoveFrom;
    var s' := s.(tasks := s.tasks[1..]);
    assert FaceInv(s');
    match s.tasks[0]
    case PauseCheck =>
      PauseWhenIdle(s');
    case RemoveOne(id) =>
      var i := IndexOf(s'.pit, id);
      if i < |s'.pit| {
        DropAccounted(s', i);
      }
    case RemoveAll =>
      RemoveFromKeeps(s');
    case Unregister(prefix, command) =>
      ExpressAccounted(s', command, {}, {});
      ExpressReady(s', command);
  }

  lemma FaceStepKeepsInv(s: Face, e: FaceEvent)
    requires FaceInv(s) && FaceEnabled(s, e)
    ensures FaceInv(FaceStep(s, e))
  {
    hide Accounted, LinkInv, Deliver, Play, Timeout, RunTask, ExpressInterest, Enabled, Step;
    match e
    case CallExpress(i) =>
      ExpressAccounted(s, i, {}, {});
      ExpressReady(s, i);
    case CallPut =>
      PutKeeps(s);
    case CallPost(t) =>
      PostKeeps(s, t);
    case ReceiveData(matches) =>
      ReceiveKeeps(s, matches, Satisfied);
      ReceivedKeeps(s, Deliver(s, 0, matches, Satisfied));
    case ReceiveNack(matches) =>
      ReceiveKeeps(s, matches, Nacked);
      ReceivedKeeps(s, Deliver(s, 0, matches, Nacked));
    case ReceiveInterest(actions) =>
      PlayKeeps(s, actions, false, {}, {});
      PlayAppends(s, actions);
      ReceivedKeeps(s, Play(s, actions));
    case TimerFires(id) =>
      TimeoutKeeps(s, id);
    case NextTask =>
      RunTaskKeeps(s);
    case Socket(ev) =>
      SocketKeeps(s, ev);
  }

  /** A packet that arrives too late finds an empty table or a listening transport. */
  lemma ReceiveKeeps(s: Face, matches: Interest -> bool, fate: Fate)
    requires FaceInv(s)
    ensures FaceInv(Deliver(s, 0, matches, fate))
  {
    hide Accounted, CalledOnce, LinkInv, Listens, DeliverTo;
    if s.pit != [] {
      DeliverKeeps(s, 0, matches, fate);
    }
  }

  lemma ReceivedKeeps(s: Face, r: Face)
    requires FaceInv(r)
    ensures FaceInv(Received(s, r))
  {
    hide PitIds, SettledIds, Covers, Increasing, NeverTwice, LinkInv, Listens;
  }

  lemma PutKeeps(s: Face)
    requires FaceInv(s)
    ensures FaceInv(PutPacket(s))
  {
    hide EnsureConnected, SendPacket, PitIds, SettledIds, Covers, Increasing, NeverTwice;
    PutListens(s);
    EnsureConnectedLeavesTables(s);
    SendLeavesTables(EnsureConnected(s));
  }

  lemma PostKeeps(s: Face, t: Task)
    requires FaceInv(s)
    ensures FaceInv(PostTask(s, t))
  {
  }

  lemma SocketKeeps(s: Face, ev: Event)
    requires FaceInv(s) && FaceEnabled(s, Socket(ev))
    ensures FaceInv(FaceStep(s, Socket(ev)))
  {
    hide Step, PitIds, SettledIds, Covers, Increasing, NeverTwice, LinkInv, Enabled;
    SocketKeepsListening(s.link, ev);
  }

  // ---------------------------------------------------------------------
  // Runs
  // ---------------------------------------------------------------------

  function FaceRun(s: Face, events: seq<FaceEvent>): Face
    decreases |events|
  {
    if events == [] then s else FaceRun(FaceStep(s, events[0]), events[1..])
  }

  ghost predicate FacePossible(s: Face, events: seq<FaceEvent>)
    decreases |events|
  {
    events != [] ==> FaceEnabled(s, events[0]) && FacePossible(FaceStep(s, events[0]), events[1..])
  }

  lemma {:induction false} FaceRunKeepsInv(s: Face, events: seq<FaceEvent>)
    requires FaceInv(s) && FacePossible(s, events)
    ensures FaceInv(FaceRun(s, events))
    decreases |events|
  {
    hide FaceInv, FaceStep, FaceEnabled;
    if events != [] {
      FaceStepKeepsInv(s, events[0]);
      FaceRunKeepsInv(FaceStep(s, events[0]), events[1..]);
    }
  }

  lemma InitialInv()
    ensures FaceInv(FACE_INITIAL)
  {
  }

  /** Over any run, each expressed Interest has at most one of its callbacks invoked, is
      either still pending or settled once, and has a live timer exactly while pending. */
  lemma AtMostOneOutcome(events: seq<FaceEvent>)
    requires FacePossible(FACE_INITIAL, events)
    ensures var r := FaceRun(FACE_INITIAL, events);
            && NeverTwice(r.calls)
            && NeverTwice(r.settled)
            && (forall id :: 0 <= id < r.nextId ==> (id in PitIds(r.pit) <==> id !in SettledIds(r.settled)))
            && r.timers == PitIds(r.pit)
  {
    hide FaceStep, FaceEnabled, PitIds, SettledIds, NeverTwice, Increasing, LinkInv;
    InitialInv();
    FaceRunKeepsInv(FACE_INITIAL, events);
    var r := FaceRun(FACE_INITIAL, events);
    forall id | 0 <= id < r.nextId
      ensures id in PitIds(r.pit) <==> id !in SettledIds(r.settled)
    {
      assert id in PitIds(r.pit) + SettledIds(r.settled);
      assert id !in PitIds(r.pit) * SettledIds(r.settled);
    }
  }

  /** Over any run, even with posted tasks still waiting: while an Interest is pending or a
      prefix is registered, the transport is receiving, or is connecting with something to
      send that will make it resume, unless it was closed and nothing was sent since. */
  lemma KeepsListening(events: seq<FaceEvent>)
    requires FacePossible(FACE_INITIAL, events)
    ensures var r := FaceRun(FACE_INITIAL, events);
            !r.lost && (r.pit != [] || r.prefixes != []) ==> Listens(r.link)
  {
    InitialInv();
    FaceRunKeepsInv(FACE_INITIAL, events);
  }

  // ---------------------------------------------------------------------
  // Pausing when there is nothing to wait for
  // ---------------------------------------------------------------------

  ghost predicate NothingToWaitFor(s: Face) {
    s.pit == [] && s.prefixes == []
  }

  ghost predicate CheckPosted(s: Face) {
    NothingToWaitFor(s) ==> PauseCheck in s.tasks
  }

  lemma ActKeepsCheck(s: Face, a: Action)
    requires CheckPosted(s)
    ensures CheckPosted(Act(s, a))
  {
    hide Connect, Resume, Send;
  }

  lemma {:induction false} PlayKeepsCheck(s: Face, actions: seq<Action>)
    requires CheckPosted(s)
    ensures CheckPosted(Play(s, actions))
    decreases |actions|
  {
    hide Act, CheckPosted;
    if actions != [] {
      ActKeepsCheck(s, actions[0]);
      PlayKeepsCheck(Act(s, actions[0]), actions[1..]);
    }
  }

  lemma InvokeKeepsCheck(s: Face, id: nat, c: Callback, fate: Fate)
    requires CheckPosted(s)
    ensures CheckPosted(Invoke(s, id, c, fate))
  {
    if c.Script? {
      PlayKeepsCheck(s.(calls := s.calls + [Settled(id, fate)]), c.actions);
    }
  }

  lemma DeliverToKeepsCheck(s: Face, pos: nat, fate: Fate)
    requires pos < |s.pit|
    ensures CheckPosted(DeliverTo(s, pos, fate))
  {
    var e := s.pit[pos];
    hide Invoke;
    InvokeKeepsCheck(Settle(ErasePending(s, pos), e.id, fate), e.id, CallbackFor(e, fate), fate);
  }

  lemma {:induction false} DeliverKeepsCheck(s: Face, pos: nat, matches: Interest -> bool, fate: Fate)
    requires CheckPosted(s) && pos <= |s.pit|
    ensures CheckPosted(Deliver(s, pos, matches, fate))
    decreases Load(s.pit[pos..])
  {
    hide DeliverTo, CheckPosted;
    if pos < |s.pit| {
      if matches(s.pit[pos].interest) {
        DeliverToKeepsCheck(s, pos, fate);
        DeliverToShrinks(s, pos, fate);
        if pos + 1 < |s.pit| {
          DeliverKeepsCheck(DeliverTo(s, pos, fate), pos, matches, fate);
        }
      } else {
        assert s.pit[pos..][1..] == s.pit[pos + 1..];
        DeliverKeepsCheck(s, pos + 1, matches, fate);
      }
    }
  }

  lemma TimeoutKeepsCheck(s: Face, id: nat)
    requires CheckPosted(s)
    ensures CheckPosted(Timeout(s, id))
  {
    hide Invoke;
    var i := IndexOf(s.pit, id);
    if i < |s.pit| {
      InvokeKeepsCheck(Settle(CancelTimer(s, id), id, TimedOut), id, s.pit[i].interest.onTimeout, TimedOut);
    }
  }

  lemma RunTaskKeepsCheck(s: Face)
    requires !NothingToWaitFor(s)
    ensures CheckPosted(RunTask(s))
  {
    hide Connect, Resume, Send;
  }

  /** Whenever the last thing the Face waits for goes away, by whatever event, the check that
      pauses the transport has been posted. */
  lemma EmptyingPostsCheck(s: Face, e: FaceEvent)
    requires FaceEnabled(s, e) && !NothingToWaitFor(s) && NothingToWaitFor(FaceStep(s, e))
    ensures PauseCheck in FaceStep(s, e).tasks
  {
    hide Deliver, Play, Timeout, RunTask, Step, Enabled;
    match e
    case ReceiveData(matches) => DeliverKeepsCheck(s, 0, matches, Satisfied);
    case ReceiveNack(matches) => DeliverKeepsCheck(s, 0, matches, Nacked);
    case ReceiveInterest(actions) => PlayKeepsCheck(s, actions);
    case TimerFires(id) => TimeoutKeepsCheck(s, id);
    case NextTask => RunTaskKeepsCheck(s);
    case _ =>
  }

  /** Running the posted tasks of an idle Face: nothing is expressed, and once the check has
      had its turn on an established connection, the transport has stopped receiving and no
      read is outstanding, apart from cancelled ones that are still to report. */
  function RunTasks(s: Face, n: nat): Face
    decreases n
  {
    if n == 0 then s else RunTasks(RunTask(s), n - 1)
  }

  ghost predicate Stopped(l: Link) {
    !l.receiving && l.pendingReads == 0
  }

  lemma IdleTask(s: Face)
    requires NothingToWaitFor(s) && s.tasks != [] && !s.link.connecting && TransportLink.Inv(s.link)
    ensures var r := RunTask(s);
            && NothingToWaitFor(r) && !r.link.connecting
            && (Stopped(s.link) ==> Stopped(r.link))
            && (s.tasks[0] == PauseCheck ==> Stopped(r.link))
            && TransportLink.Inv(r.link)
            && s.tasks[1..] <= r.tasks
  {
  }

  lemma {:induction false} IdleFacePauses(s: Face, n: nat)
    requires NothingToWaitFor(s) && !s.link.connecting && TransportLink.Inv(s.link)
    requires n < |s.tasks| && s.tasks[n] == PauseCheck
    ensures Stopped(RunTasks(s, n + 1).link)
    decreases n
  {
    hide RunTask;
    IdleTask(s);
    var r := RunTask(s);
    if n == 0 {
      assert RunTasks(s, 1) == RunTasks(r, 0);
    } else {
      assert r.tasks[n - 1] == s.tasks[1..][n - 1];
      IdleFacePauses(r, n - 1);
    }
  }

  // ---------------------------------------------------------------------
  // Losing the writer
  // ---------------------------------------------------------------------

  ghost predicate Sound(s: Face) {
    TransportLink.Inv(s.link) && LinkInv(s.link) && !Stalled(s.link)
  }

  lemma PutKeepsSound(s: Face)
    requires Sound(s)
    ensures Sound(PutPacket(s))
  {
    var l := s.link;
    var l1 := if l.connected then l else Step(l, EvConnect);
    if !l.connected {
      StepKeepsInv(l, EvConnect);
      StallsExactlyByPauseDuringWrite(l, EvConnect);
    }
    StepKeepsInv(l1, EvResume);
    StallsExactlyByPauseDuringWrite(l1, EvResume);
    var l2 := EnsureConnected(s).link;
    StepKeepsInv(l2, EvSend([]));
    StallsExactlyByPauseDuringWrite(l2, EvSend([]));
    PutListens(s);
    hide Stalled, TransportLink.Inv;
  }

  lemma ActKeepsSound(s: Face, a: Action)
    requires Sound(s)
    ensures Sound(Act(s, a))
  {
    hide Sound, EnsureConnected, SendPacket;
    match a
    case Express(i) =>
      PutKeepsSound(s);
      ExpressPuts(s, i);
      SameLink(PutPacket(s), ExpressInterest(s, i));
    case Put => PutKeepsSound(s);
    case _ => SameLink(s, Act(s, a));
  }

  lemma SameLink(s: Face, r: Face)
    requires r.link == s.link
    ensures Sound(r) <==> Sound(s)
  {
  }

  lemma {:induction false} PlayKeepsSound(s: Face, actions: seq<Action>)
    requires Sound(s)
    ensures Sound(Play(s, actions))
    decreases |actions|
  {
    hide Sound, Act;
    if actions != [] {
      ActKeepsSound(s, actions[0]);
      PlayKeepsSound(Act(s, actions[0]), actions[1..]);
    }
  }

  lemma InvokeKeepsSound(s: Face, id: nat, c: Callback, fate: Fate)
    requires Sound(s)
    ensures Sound(Invoke(s, id, c, fate))
  {
    hide Sound, Play;
    if c.Script? {
      var s' := s.(calls := s.calls + [Settled(id, fate)]);
      SameLink(s, s');
      PlayKeepsSound(s', c.actions);
    }
  }

  lemma DeliverToKeepsSound(s: Face, pos: nat, fate: Fate)
    requires Sound(s) && pos < |s.pit|
    ensures Sound(DeliverTo(s, pos, fate))
  {
    hide Sound, Invoke;
    var e := s.pit[pos];
    var s1 := Settle(ErasePending(s, pos), e.id, fate);
    SameLink(s, s1);
    var s2 := Invoke(s1, e.id, CallbackFor(e, fate), fate);
    InvokeKeepsSound(s1, e.id, CallbackFor(e, fate), fate);
    SameLink(s2, CancelTimer(s2, e.id));
  }

  lemma {:induction false} DeliverKeepsSound(s: Face, pos: nat, matches: Interest -> bool, fate: Fate)
    requires Sound(s) && pos <= |s.pit|
    ensures Sound(Deliver(s, pos, matches, fate))
    decreases Load(s.pit[pos..])
  {
    hide Sound, DeliverTo;
    if pos < |s.pit| {
      if matches(s.pit[pos].interest) {
        DeliverToKeepsSound(s, pos, fate);
        DeliverToShrinks(s, pos, fate);
        if pos + 1 < |s.pit| {
          DeliverKeepsSound(DeliverTo(s, pos, fate), pos, matches, fate);
        }
      } else {
        assert s.pit[pos..][1..] == s.pit[pos + 1..];
        DeliverKeepsSound(s, pos + 1, matches, fate);
      }
    }
  }

  lemma TimeoutKeepsSound(s: Face, id: nat)
    requires Sound(s)
    ensures Sound(Timeout(s, id))
  {
    hide Sound, Invoke;
    var i := IndexOf(s.pit, id);
    if i < |s.pit| {
      var s1 := Settle(CancelTimer(s, id), id, TimedOut);
      SameLink(s, s1);
      var s2 := Invoke(s1, id, s.pit[i].interest.onTimeout, TimedOut);
      InvokeKeepsSound(s1, id, s.pit[i].interest.onTimeout, TimedOut);
      SameLink(s2, Timeout(s, id));
    }
  }

  lemma {:induction false} RemoveFromLeavesLink(s: Face)
    ensures RemoveFrom(s).link == s.link
    decreases |s.pit|
  {
    if s.pit != [] {
      RemoveFromLeavesLink(Settle(CancelTimer(s.(pit := s.pit[1..]), s.pit[0].id), s.pit[0].id, Removed));
    }
  }

  /** The pause check runs with both tables empty while a write is outstanding. */
  ghost predicate ChecksDuringWrite(s: Face, e: FaceEvent) {
    && e.NextTask? && s.tasks != [] && s.tasks[0] == PauseCheck
    && NothingToWaitFor(s) && CancelsWrite(s.link, EvPause)
  }

  lemma TaskStallsExactly(s: Face)
    requires Sound(s) && s.tasks != []
    ensures var r := RunTask(s);
            && TransportLink.Inv(r.link) && LinkInv(r.link)
            && (Stalled(r.link) <==> ChecksDuringWrite(s, NextTask))
  {
    hide ExpressInterest, RemoveFrom, Pause, Stalled, TransportLink.Inv;
    var s' := s.(tasks := s.tasks[1..]);
    match s.tasks[0]
    case PauseCheck =>
      StepKeepsInv(s.link, EvPause);
      StallsExactlyByPauseDuringWrite(s.link, EvPause);
      PauseKeepsLinkInv(s.link);
    case RemoveOne(id) =>
    case RemoveAll => RemoveFromLeavesLink(s');
    case Unregister(prefix, command) =>
      PutKeepsSound(s');
      assert ExpressInterest(s', command).link == PutPacket(s').link by {
        ExpressPuts(s', command);
      }
  }

  lemma PauseKeepsLinkInv(l: Link)
    requires LinkInv(l)
    ensures LinkInv(Pause(l))
  {
  }

  lemma ExpressPuts(s: Face, i: Interest)
    ensures ExpressInterest(s, i).link == PutPacket(s).link
  {
  }

  /** A step of the Face leaves its transport without a writer for what it has accepted if and
      only if it is that check. */
  lemma FaceStallsExactly(s: Face, e: FaceEvent)
    requires Sound(s) && FaceEnabled(s, e) && (e.Socket? ==> !Disturbs(s.link, e.event))
    ensures var r := FaceStep(s, e);
            && TransportLink.Inv(r.link) && LinkInv(r.link)
            && (Stalled(r.link) <==> ChecksDuringWrite(s, e))
  {
    hide Deliver, Play, Timeout, RunTask, ExpressInterest, PutPacket, Stalled, TransportLink.Inv, LinkInv, Step, Enabled;
    match e
    case CallExpress(i) =>
      PutKeepsSound(s);
      ExpressPuts(s, i);
    case CallPut => PutKeepsSound(s);
    case CallPost(t) =>
    case ReceiveData(matches) => DeliverKeepsSound(s, 0, matches, Satisfied);
    case ReceiveNack(matches) => DeliverKeepsSound(s, 0, matches, Nacked);
    case ReceiveInterest(actions) => PlayKeepsSound(s, actions);
    case TimerFires(id) => TimeoutKeepsSound(s, id);
    case NextTask => TaskStallsExactly(s);
    case Socket(ev) =>
      StepKeepsInv(s.link, ev);
      StallsExactlyByPauseDuringWrite(s.link, ev);
      SocketKeepsListening(s.link, ev);
  }

  /** Nothing disturbs the link, and no pause check runs during a write with both tables empty. */
  ghost predicate Smooth(s: Face, events: seq<FaceEvent>)
    decreases |events|
  {
    events != [] ==>
      && (events[0].Socket? ==> !Disturbs(s.link, events[0].event))
      && !ChecksDuringWrite(s, events[0])
      && Smooth(FaceStep(s, events[0]), events[1..])
  }

  /** Over any such run the Face's packets have a single writer: one write is outstanding
      exactly when the queue of the connected transport is not empty. */
  lemma {:induction false} FaceKeepsWriter(s: Face, events: seq<FaceEvent>)
    requires Sound(s) && FacePossible(s, events) && Smooth(s, events)
    ensures var l := FaceRun(s, events).link;
            && Sound(FaceRun(s, events))
            && (l.connected ==> (l.write.Writing? <==> l.queue != []))
            && l.completed <= l.accepted
    decreases |events|
  {
    hide FaceStep, FaceEnabled, Disturbs, ChecksDuringWrite;
    if events != [] {
      hide TransportLink.Inv, LinkInv, Stalled;
      FaceStallsExactly(s, events[0]);
      FaceKeepsWriter(FaceStep(s, events[0]), events[1..]);
    }
  }

  /** A Face with a packet on its way to the socket and nothing to wait for. */
  ghost predicate Writes(s: Face) {
    && NothingToWaitFor(s) && s.faults == 0
    && s.link.connected && s.link.receiving && s.link.pendingReads > 0 && !s.link.connecting && s.link.write.Writing?
  }

  /** A connected Face that has paused, with the cancelled read still to report and its writer
      lost. */
  ghost predicate PausedInWrite(s: Face) {
    && NothingToWaitFor(s) && s.faults == 0
    && CanResume(s.link) && s.link.late.reading > 0 && Stalled(s.link)
  }

  lemma PutAndConnect()
    ensures var s1 := FaceStep(FACE_INITIAL, CallPut);
            && FaceEnabled(s1, Socket(EvConnected(true)))
            && var s2 := FaceStep(s1, Socket(EvConnected(true)));
               Writes(s2) && s2.tasks == [] && s2.link.queue != []
  {
  }

  lemma RemoveAllStalls(s: Face)
    requires Writes(s) && s.tasks == [] && s.link.queue != []
    ensures var s1 := FaceStep(s, CallPost(RemoveAll));
            && s1.tasks != []
            && var s2 := FaceStep(s1, NextTask);
               s2.tasks != [] && PausedInWrite(FaceStep(s2, NextTask))
  {
    var s1 := FaceStep(s, CallPost(RemoveAll));
    assert s1.tasks == [RemoveAll];
    var s2 := FaceStep(s1, NextTask);
    assert s2.tasks == [PauseCheck] && s2.link == s.link;
  }

  const CONNECTING_RUN := [CallPut, Socket(EvConnected(true))]

  lemma PutRuns()
    ensures FacePossible(FACE_INITIAL, CONNECTING_RUN)
    ensures FaceRun(FACE_INITIAL, CONNECTING_RUN)
            == FaceStep(FaceStep(FACE_INITIAL, CallPut), Socket(EvConnected(true)))
  {
    PutAndConnect();
    CallsEnabled(FACE_INITIAL);
    hide FaceStep, FaceEnabled;
    FaceSnoc(FACE_INITIAL, [], CallPut);
    FaceSnoc(FACE_INITIAL, [] + [CallPut], Socket(EvConnected(true)));
    assert [] + [CallPut] + [Socket(EvConnected(true))] == CONNECTING_RUN;
  }

  lemma RemoveAllRuns(s: Face, events: seq<FaceEvent>)
    requires FacePossible(s, events) && Writes(FaceRun(s, events))
    requires FaceRun(s, events).tasks == [] && FaceRun(s, events).link.queue != []
    ensures var longer := events + [CallPost(RemoveAll)] + [NextTask] + [NextTask];
            FacePossible(s, longer) && PausedInWrite(FaceRun(s, longer))
  {
    var r := FaceRun(s, events);
    var r1 := FaceStep(r, CallPost(RemoveAll));
    RemoveAllStalls(r);
    CallsEnabled(r);
    TasksEnabled(r1);
    TasksEnabled(FaceStep(r1, NextTask));
    hide FaceStep, FaceEnabled, FaceRun, FacePossible, PausedInWrite, Writes;
    FaceSnoc(s, events, CallPost(RemoveAll));
    FaceSnoc(s, events + [CallPost(RemoveAll)], NextTask);
    FaceSnoc(s, events + [CallPost(RemoveAll)] + [NextTask], NextTask);
  }

  /** A Face that puts one packet, connects, and is asked to remove all its pending Interests
      before the write has completed loses its writer. */
  lemma CheckStallsWriter() returns (events: seq<FaceEvent>)
    ensures events == [CallPut, Socket(EvConnected(true)), CallPost(RemoveAll), NextTask, NextTask]
    ensures Sound(FACE_INITIAL) && FacePossible(FACE_INITIAL, events)
    ensures PausedInWrite(FaceRun(FACE_INITIAL, events)) && Stalled(FaceRun(FACE_INITIAL, events).link)
  {
    assert Sound(FACE_INITIAL);
    PutAndConnect();
    PutRuns();
    hide FaceStep, FaceRun, FacePossible, Stalled, CanResume, Writes, Sound;
    RemoveAllRuns(FACE_INITIAL, CONNECTING_RUN);
    events := CONNECTING_RUN + [CallPost(RemoveAll)] + [NextTask] + [NextTask];
  }

  lemma CallsEnabled(s: Face)
    ensures FaceEnabled(s, CallPut) && FaceEnabled(s, CallPost(RemoveAll))
  {
  }

  lemma TasksEnabled(s: Face)
    requires s.tasks != []
    ensures FaceEnabled(s, NextTask)
  {
  }

  lemma {:induction false} FaceSnoc(s: Face, events: seq<FaceEvent>, e: FaceEvent)
    requires FacePossible(s, events) && FaceEnabled(FaceRun(s, events), e)
    ensures FacePossible(s, events + [e])
    ensures FaceRun(s, events + [e]) == FaceStep(FaceRun(s, events), e)
    decreases |events|
  {
    hide FaceStep, FaceEnabled;
    if events == [] {
      assert [] + [e] == [e] && [e][1..] == [];
      assert FaceRun(FaceStep(s, e), []) == FaceStep(s, e);
    } else {
      FaceSnoc(FaceStep(s, events[0]), events[1..], e);
      assert (events + [e])[1..] == events[1..] + [e];
    }
  }

  lemma FaceCons(s: Face, e: FaceEvent, rest: seq<FaceEvent>)
    requires FaceEnabled(s, e) && FacePossible(FaceStep(s, e), rest)
    ensures FacePossible(s, [e] + rest)
    ensures FaceRun(s, [e] + rest) == FaceRun(FaceStep(s, e), rest)
  {
    assert ([e] + rest)[1..] == rest;
  }

  /** The posted check loses the writer exactly when both tables are empty while a write is
      outstanding: packets put afterwards are accepted and never written. */
  lemma PauseCheckStalls(s: Face)
    requires TransportLink.Inv(s.link) && !Stalled(s.link)
    ensures Stalled(OnEmptyPitOrNoRegisteredPrefixes(s).link)
            <==> NothingToWaitFor(s) && CancelsWrite(s.link, EvPause)
  {
    StallsExactlyByPauseDuringWrite(s.link, EvPause);
  }

  // ---------------------------------------------------------------------
  // Unregistering twice
  // ---------------------------------------------------------------------

  /** The continuation of an unregister command is defined exactly while its record is in the
      table. */
  lemma UnregisterFaultsExactly(s: Face, prefix: nat)
    ensures FinalizeUnregisterPrefix(s, prefix).faults == s.faults <==> prefix in s.prefixes
  {
    PrefixIndex(s.prefixes, prefix);
  }

  lemma {:induction false} PrefixIndex(prefixes: seq<nat>, prefix: nat)
    ensures IndexOfPrefix(prefixes, prefix) < |prefixes| <==> prefix in prefixes
    decreases |prefixes|
  {
    if prefixes != [] {
      PrefixIndex(prefixes[1..], prefix);
      assert prefixes == [prefixes[0]] + prefixes[1..];
    }
  }

  /** A request to unregister a prefix that is registered expresses its command. */
  lemma CommandStarts(s: Face, prefix: nat, command: Interest, rest: seq<Task>)
    requires s.prefixes == [prefix] && s.tasks == [Unregister(prefix, command)] + rest
    requires s.link.receiving && s.link.connected
    ensures var r := RunTask(s);
            && r.pit == s.pit + [Entry(s.nextId, command)] && r.prefixes == s.prefixes && r.tasks == rest
            && r.link.receiving && r.link.connected && r.faults == s.faults
  {
  }

  /** The response to the first command erases the record, and so does that to the second. */
  lemma TwoResponses(s: Face, prefix: nat, command: Interest, matches: Interest -> bool)
    requires |s.pit| == 2 && s.pit[0].interest == command && s.pit[1].interest == command
    requires s.prefixes == [prefix] && s.faults == 0
    requires command.onData == Script([Unregistered(prefix)]) && matches(command)
    ensures Deliver(s, 0, matches, Satisfied).faults == 1
  {
    PlayOne(Unregistered(prefix));
    var r := DeliverTo(s, 0, Satisfied);
    assert r.pit == [s.pit[1]] && r.prefixes == [] && r.faults == 0;
    assert DeliverTo(r, 0, Satisfied).faults == 1;
    assert Deliver(r, 0, matches, Satisfied) == DeliverTo(r, 0, Satisfied);
  }

  /** Two requests to unregister the same prefix both find the record and start a command;
      the response to the second one erases it again. */
  lemma UnregisterTwiceFaults(s: Face, prefix: nat, command: Interest, matches: Interest -> bool)
      returns (events: seq<FaceEvent>)
    requires s.prefixes == [prefix] && s.pit == [] && s.link.receiving && s.link.connected && s.faults == 0
    requires s.tasks == [Unregister(prefix, command), Unregister(prefix, command)]
    requires command.onData == Script([Unregistered(prefix)])
    requires matches(command)
    ensures events == [NextTask, NextTask, ReceiveData(matches)]
    ensures FacePossible(s, events) && FaceRun(s, events).faults == 1
  {
    var s1 := RunTask(s);
    var s2 := RunTask(s1);
    CommandStarts(s, prefix, command, [Unregister(prefix, command)]);
    CommandStarts(s1, prefix, command, []);
    var s4 := Deliver(s2, 0, matches, Satisfied);
    TwoResponses(s2, prefix, command, matches);
    hide RunTask, Deliver;
    assert FacePossible(s4, []);
    FaceCons(s2, ReceiveData(matches), []);
    FaceCons(s1, NextTask, [ReceiveData(matches)]);
    FaceCons(s, NextTask, [NextTask, ReceiveData(matches)]);
    events := [NextTask, NextTask, ReceiveData(matches)];
    assert events == [NextTask] + [NextTask, ReceiveData(matches)];
  }

  lemma {:induction false} FaceAppend(s: Face, a: seq<FaceEvent>, b: seq<FaceEvent>)
    requires FacePossible(s, a) && FacePossible(FaceRun(s, a), b)
    ensures FacePossible(s, a + b) && FaceRun(s, a + b) == FaceRun(FaceRun(s, a), b)
    decreases |a|
  {
    hide FaceStep, FaceEnabled;
    if a == [] {
      assert a + b == b;
    } else {
      FaceAppend(FaceStep(s, a[0]), a[1..], b);
      assert (a + b)[1..] == a[1..] + b;
    }
  }

  /** A Face on which nothing has happened yet. */
  ghost predicate Untouched(s: Face) {
    && s.pit == [] && s.prefixes == [] && s.tasks == [] && s.faults == 0
    && !s.link.connected && !s.link.connecting && !s.link.receiving && s.link.queue == []
    && s.link.attempts == 0 && s.link.pendingReads == 0
  }

  lemma InitiallyUntouched()
    ensures Untouched(FACE_INITIAL)
  {
  }

  /** A Face with nothing but a registered prefix and tasks to run. */
  ghost predicate HoldsPrefix(s: Face, prefix: nat, tasks: seq<Task>) {
    s.pit == [] && s.prefixes == [prefix] && s.tasks == tasks && s.faults == 0 && s.link.receiving && s.link.connected
  }

  /** A register command is expressed and answered. */
  lemma RegisterRuns(s: Face, prefix: nat, command: Interest, matches: Interest -> bool) returns (events: seq<FaceEvent>)
    requires Untouched(s) && command.onData == Script([Registered(prefix)]) && matches(command)
    ensures events == [CallExpress(command)] + [Socket(EvConnected(true))] + [ReceiveData(matches)]
    ensures FacePossible(s, events) && HoldsPrefix(FaceRun(s, events), prefix, [PauseCheck])
  {
    var s1 := FaceStep(s, CallExpress(command));
    assert s1.pit == [Entry(s.nextId, command)] && s1.link.connecting && s1.link.attempts == 1 && s1.link.queue != [];
    var s2 := FaceStep(s1, Socket(EvConnected(true)));
    assert s2.pit == s1.pit && s2.link.receiving && s2.link.connected && s2.tasks == [] && s2.prefixes == [];
    PlayOne(Registered(prefix));
    var s3 := DeliverTo(s2, 0, Satisfied);
    assert s3.pit == [] && s3.prefixes == [prefix] && s3.tasks == [PauseCheck] && s3.link == s2.link;
    assert Deliver(s2, 0, matches, Satisfied) == s3;
    assert FaceStep(s2, ReceiveData(matches)) == s3;
    hide FaceStep, Deliver, DeliverTo, Untouched;
    FaceSnoc(s, [], CallExpress(command));
    FaceSnoc(s, [] + [CallExpress(command)], Socket(EvConnected(true)));
    FaceSnoc(s, [] + [CallExpress(command)] + [Socket(EvConnected(true))], ReceiveData(matches));
    events := [] + [CallExpress(command)] + [Socket(EvConnected(true))] + [ReceiveData(matches)];
  }

  /** Two requests to unregister are posted, and the check that was posted before them runs. */
  lemma PostTwiceRuns(s: Face, prefix: nat, command: Interest) returns (events: seq<FaceEvent>)
    requires HoldsPrefix(s, prefix, [PauseCheck])
    ensures events == [CallPost(Unregister(prefix, command))] + [CallPost(Unregister(prefix, command))] + [NextTask]
    ensures FacePossible(s, events)
    ensures HoldsPrefix(FaceRun(s, events), prefix, [Unregister(prefix, command), Unregister(prefix, command)])
  {
    var post := CallPost(Unregister(prefix, command));
    var s1 := FaceStep(s, post);
    var s2 := FaceStep(s1, post);
    assert s2.tasks == [PauseCheck, Unregister(prefix, command), Unregister(prefix, command)] && s2.link == s.link;
    var s3 := FaceStep(s2, NextTask);
    assert s3.tasks == s2.tasks[1..] && s3.link == s.link;
    hide FaceStep;
    FaceSnoc(s, [], post);
    FaceSnoc(s, [] + [post], post);
    FaceSnoc(s, [] + [post] + [post], NextTask);
    events := [] + [post] + [post] + [NextTask];
  }

  /** From a fresh Face: register a prefix, ask twice to unregister it, and get the responses. */
  lemma UnregisterTwiceRuns(prefix: nat, register: Interest, command: Interest, toRegister: Interest -> bool,
                            toCommand: Interest -> bool)
      returns (events: seq<FaceEvent>)
    requires register.onData == Script([Registered(prefix)]) && toRegister(register)
    requires command.onData == Script([Unregistered(prefix)]) && toCommand(command)
    ensures FacePossible(FACE_INITIAL, events) && FaceRun(FACE_INITIAL, events).faults == 1
    ensures forall e :: e in events ==> e.CallExpress? || e.Socket? || e.ReceiveData? || e.CallPost? || e.NextTask?
  {
    InitiallyUntouched();
    var first := RegisterRuns(FACE_INITIAL, prefix, register, toRegister);
    var s1 := FaceRun(FACE_INITIAL, first);
    var second := PostTwiceRuns(s1, prefix, command);
    var s2 := FaceRun(s1, second);
    var third := UnregisterTwiceFaults(s2, prefix, command, toCommand);
    hide FaceRun, FacePossible, Untouched;
    FaceAppend(s1, second, third);
    FaceAppend(FACE_INITIAL, first, second + third);
    events := first + (second + third);
  }

  lemma PlayOne(a: Action)
    ensures forall t: Face :: Play(t, [a]) == Act(t, a)
  {
    forall t: Face
      ensures Play(t, [a]) == Act(t, a)
    {
      assert [a][1..] == [];
      assert Play(Act(t, a), []) == Act(t, a);
    }
  }

  // ---------------------------------------------------------------------
  // One delivery pass
  // ---------------------------------------------------------------------

  function Kept(pit: seq<Entry>, matches: Interest -> bool): seq<Entry> {
    if pit == [] then []
    else if matches(pit[0].interest) then Kept(pit[1..], matches)
    else [pit[0]] + Kept(pit[1..], matches)
  }

  /** The callback invocations of the matching entries, in table order. */
  function CallsOf(pit: seq<Entry>, matches: Interest -> bool, fate: Fate): seq<Settled> {
    if pit == [] then []
    else if matches(pit[0].interest) then CallOf(pit[0], fate) + CallsOf(pit[1..], matches, fate)
    else CallsOf(pit[1..], matches, fate)
  }

  lemma {:induction false} KeptAppend(a: seq<Entry>, b: seq<Entry>, matches: Interest -> bool)
    ensures Kept(a + b, matches) == Kept(a, matches) + Kept(b, matches)
    decreases |a|
  {
    if a == [] {
      assert a + b == b;
    } else {
      KeptAppend(a[1..], b, matches);
      assert (a + b)[1..] == a[1..] + b;
    }
  }

  lemma {:induction false} CallsAppend(a: seq<Entry>, b: seq<Entry>, matches: Interest -> bool, fate: Fate)
    ensures CallsOf(a + b, matches, fate) == CallsOf(a, matches, fate) + CallsOf(b, matches, fate)
    decreases |a|
  {
    hide CallOf;
    if a == [] {
      assert a + b == b;
    } else {
      CallsAppend(a[1..], b, matches, fate);
      assert (a + b)[1..] == a[1..] + b;
    }
  }

  lemma {:induction false} KeptIds(pit: seq<Entry>, matches: Interest -> bool, n: nat)
    requires forall k :: 0 <= k < |pit| ==> pit[k].id >= n
    ensures forall k :: 0 <= k < |Kept(pit, matches)| ==> Kept(pit, matches)[k].id >= n
    decreases |pit|
  {
    if pit != [] {
      KeptIds(pit[1..], matches, n);
    }
  }

  /** The Interests that actions express, in order. */
  function Expressed(actions: seq<Action>): seq<Interest> {
    if actions == [] then []
    else (if actions[0].Express? then [actions[0].interest] else []) + Expressed(actions[1..])
  }

  function ExpressedBy(c: Callback): seq<Interest> {
    if c.NoCallback? then [] else Expressed(c.actions)
  }

  function Interests(pit: seq<Entry>): seq<Interest> {
    if pit == [] then [] else [pit[0].interest] + Interests(pit[1..])
  }

  lemma {:induction false} PlayExpresses(s: Face, actions: seq<Action>)
    ensures |s.pit| <= |Play(s, actions).pit|
    ensures Interests(Play(s, actions).pit[|s.pit|..]) == Expressed(actions)
    decreases |actions|
  {
    hide Interests, Act, Load, Weight, ActionsWeight;
    if actions == [] {
      InterestsOfNone(s.pit);
    } else {
      var s1, r := Act(s, actions[0]), Play(s, actions);
      PlayAppends(s1, actions[1..]);
      PlayExpresses(s1, actions[1..]);
      ActExpresses(s, actions[0]);
      if actions[0].Express? {
        assert r.pit[|s.pit|] == s1.pit[|s.pit|];
        InterestsFrom(r.pit, |s.pit|);
      }
    }
  }

  lemma ActExpresses(s: Face, a: Action)
    ensures Act(s, a).pit == if a.Express? then s.pit + [Entry(s.nextId, a.interest)] else s.pit
  {
    hide Connect, Resume, Send;
  }

  lemma InterestsOfNone(pit: seq<Entry>)
    ensures Interests(pit[|pit|..]) == []
  {
  }

  lemma InterestsFrom(pit: seq<Entry>, k: nat)
    requires k < |pit|
    ensures Interests(pit[k..]) == [pit[k].interest] + Interests(pit[k + 1..])
  {
    assert pit[k..][1..] == pit[k + 1..];
  }

  /** What a delivery appends to the table is what its callback expresses. */
  lemma DeliverToExpresses(s: Face, pos: nat, fate: Fate)
    requires pos < |s.pit|
    ensures |s.pit| - 1 <= |DeliverTo(s, pos, fate).pit|
    ensures Interests(DeliverTo(s, pos, fate).pit[|s.pit| - 1..]) == ExpressedBy(CallbackFor(s.pit[pos], fate))
  {
    hide Play, Interests, Expressed;
    var e := s.pit[pos];
    var c := CallbackFor(e, fate);
    var s' := Settle(ErasePending(s, pos), e.id, fate);
    if c.Script? {
      PlayExpresses(s'.(calls := s'.calls + [Settled(e.id, fate)]), c.actions);
    } else {
      InterestsOfNone(s'.pit);
    }
  }

  /** What a round on a matching entry leaves from its position on: the entries behind it,
      then those its callback expressed. */
  lemma DeliverToSplits(s: Face, pos: nat, fate: Fate) returns (added: seq<Entry>)
    requires pos < |s.pit|
    ensures var r := DeliverTo(s, pos, fate);
            && pos <= |r.pit|
            && r.pit[..pos] == s.pit[..pos]
            && r.pit[pos..] == s.pit[pos + 1..] + added
            && (forall k :: 0 <= k < |added| ==> added[k].id >= s.nextId)
            && s.nextId <= r.nextId
            && r.calls == s.calls + CallOf(s.pit[pos], fate)
  {
    hide DeliverTo, CallOf;
    DeliverToShape(s, pos, fate);
    var r := DeliverTo(s, pos, fate);
    added := r.pit[|s.pit| - 1..];
    assert r.pit[..|s.pit| - 1] == EraseAt(s.pit, pos);
  }

  /** A delivery pass keeps the entries that do not match, in order and in front, and what
      follows them was expressed during the pass. */
  lemma {:induction false} PassKeepsTheRest(s: Face, pos: nat, matches: Interest -> bool, fate: Fate)
    requires pos <= |s.pit|
    ensures var r, front := Deliver(s, pos, matches, fate), s.pit[..pos] + Kept(s.pit[pos..], matches);
            && front <= r.pit
            && forall k :: |front| <= k < |r.pit| ==> r.pit[k].id >= s.nextId
    decreases Load(s.pit[pos..])
  {
    hide DeliverTo, Load;
    if pos < |s.pit| {
      assert s.pit[pos..][1..] == s.pit[pos + 1..];
      if !matches(s.pit[pos].interest) {
        LoadDrops(s.pit[pos..]);
        PassKeepsTheRest(s, pos + 1, matches, fate);
        assert s.pit[..pos] + ([s.pit[pos]] + Kept(s.pit[pos + 1..], matches))
            == s.pit[..pos + 1] + Kept(s.pit[pos + 1..], matches);
      } else {
        var added := DeliverToSplits(s, pos, fate);
        var r := DeliverTo(s, pos, fate);
        if pos + 1 == |s.pit| {
          assert r.pit == s.pit[..pos] + added;
        } else {
          DeliverToShrinks(s, pos, fate);
          PassKeepsTheRest(r, pos, matches, fate);
          KeptAppend(s.pit[pos + 1..], added, matches);
          KeptIds(added, matches, s.nextId);
          PassTail(s.pit[..pos], Kept(s.pit[pos + 1..], matches), Kept(added, matches),
                   Deliver(r, pos, matches, fate).pit, s.nextId);
        }
      }
    }
  }

  lemma LoadDrops(entries: seq<Entry>)
    requires entries != []
    ensures Load(entries[1..]) < Load(entries)
  {
  }

  lemma PassTail(front: seq<Entry>, kept: seq<Entry>, late: seq<Entry>, pit: seq<Entry>, n: nat)
    requires front + (kept + late) <= pit
    requires forall k :: 0 <= k < |late| ==> late[k].id >= n
    requires forall k :: |front + (kept + late)| <= k < |pit| ==> pit[k].id >= n
    ensures front + kept <= pit
    ensures forall k :: |front + kept| <= k < |pit| ==> pit[k].id >= n
  {
    forall k | |front + kept| <= k < |pit|
      ensures pit[k].id >= n
    {
      if k < |front + (kept + late)| {
        assert pit[k] == (front + (kept + late))[k];
        assert pit[k] == late[k - |front + kept|];
      }
    }
  }

  /** A delivery pass invokes the callbacks of the entries that were in the table and match,
      once each and in table order, before those of entries expressed during the pass. */
  lemma {:induction false} PassCallsInOrder(s: Face, pos: nat, matches: Interest -> bool, fate: Fate)
    requires pos <= |s.pit|
    ensures s.calls + CallsOf(s.pit[pos..], matches, fate) <= Deliver(s, pos, matches, fate).calls
    decreases Load(s.pit[pos..])
  {
    hide DeliverTo, Load, CallOf;
    if pos < |s.pit| {
      assert s.pit[pos..][1..] == s.pit[pos + 1..];
      if !matches(s.pit[pos].interest) {
        LoadDrops(s.pit[pos..]);
        PassCallsInOrder(s, pos + 1, matches, fate);
      } else {
        var added := DeliverToSplits(s, pos, fate);
        var r := DeliverTo(s, pos, fate);
        if pos + 1 == |s.pit| {
          assert s.pit[pos + 1..] == [];
        } else {
          DeliverToShrinks(s, pos, fate);
          PassCallsInOrder(r, pos, matches, fate);
          CallsAppend(s.pit[pos + 1..], added, matches, fate);
          assert s.calls + (CallOf(s.pit[pos], fate) + CallsOf(s.pit[pos + 1..], matches, fate))
              <= r.calls + (CallsOf(s.pit[pos + 1..], matches, fate) + CallsOf(added, matches, fate));
        }
      }
    }
  }

  ghost predicate NoMatch(pit: seq<Entry>, matches: Interest -> bool) {
    forall k :: 0 <= k < |pit| ==> !matches(pit[k].interest)
  }

  ghost predicate NoneMatches(interests: seq<Interest>, matches: Interest -> bool) {
    forall k :: 0 <= k < |interests| ==> !matches(interests[k])
  }

  lemma {:induction false} InterestsAt(pit: seq<Entry>)
    ensures |Interests(pit)| == |pit|
    ensures forall k :: 0 <= k < |pit| ==> Interests(pit)[k] == pit[k].interest
    decreases |pit|
  {
    if pit != [] {
      InterestsAt(pit[1..]);
    }
  }

  lemma NoMatchInterests(pit: seq<Entry>, matches: Interest -> bool)
    ensures NoMatch(pit, matches) <==> NoneMatches(Interests(pit), matches)
  {
    hide Interests;
    InterestsAt(pit);
    if !NoMatch(pit, matches) {
      var k :| 0 <= k < |pit| && matches(pit[k].interest);
      assert matches(Interests(pit)[k]);
    }
  }

  function WorkLoad(work: seq<Interest>): nat {
    if work == [] then 0 else Weight(work[0]) + WorkLoad(work[1..])
  }

  lemma {:induction false} WorkLoadAppend(a: seq<Interest>, b: seq<Interest>)
    ensures WorkLoad(a + b) == WorkLoad(a) + WorkLoad(b)
    decreases |a|
  {
    hide Weight;
    if a == [] {
      assert a + b == b;
    } else {
      WorkLoadAppend(a[1..], b);
      assert (a + b)[1..] == a[1..] + b;
    }
  }

  lemma {:induction false} ExpressedLoad(actions: seq<Action>)
    ensures WorkLoad(Expressed(actions)) == ActionsWeight(actions)
    decreases |actions|
  {
    hide Weight;
    if actions != [] {
      ExpressedLoad(actions[1..]);
      if actions[0].Express? {
        assert ([actions[0].interest] + Expressed(actions[1..]))[1..] == Expressed(actions[1..]);
      } else {
        assert [] + Expressed(actions[1..]) == Expressed(actions[1..]);
      }
    }
  }

  /** The callbacks that Data and Nacks run. */
  function OnData(i: Interest): (c: Callback)
    ensures c == i.onData && CallbackWeight(c) < Weight(i)
  {
    i.onData
  }

  function OnNack(i: Interest): (c: Callback)
    ensures c == i.onNack && CallbackWeight(c) < Weight(i)
  {
    i.onNack
  }

  ghost predicate Lighter(pick: Interest -> Callback) {
    forall i :: CallbackWeight(pick(i)) < Weight(i)
  }

  /** A packet that settles Interests with this fate runs the picked callbacks. */
  ghost predicate Runs(fate: Fate, pick: Interest -> Callback) {
    Lighter(pick) && forall i :: pick(i) == CallbackOf(i, fate)
  }

  lemma DataAndNackRun()
    ensures Runs(Satisfied, OnData) && Runs(Nacked, OnNack)
  {
    hide Weight, CallbackWeight;
  }

  lemma WorkShrinks(work: seq<Interest>, pick: Interest -> Callback)
    requires work != [] && Lighter(pick)
    ensures WorkLoad(work[1..] + ExpressedBy(pick(work[0]))) < WorkLoad(work)
  {
    hide Expressed;
    var c := pick(work[0]);
    WorkLoadAppend(work[1..], ExpressedBy(c));
    if c.Script? {
      ExpressedLoad(c.actions);
    }
    assert WorkLoad(ExpressedBy(c)) == CallbackWeight(c);
    assert CallbackWeight(c) < Weight(work[0]);
  }

  /** What is expressed too late for a pass over the Interests of work, computed from them
      alone: each matching one adds what its callback expresses to the end of the work, and
      the one that is last when its turn comes ends the pass. */
  ghost function ExpressedLast(work: seq<Interest>, matches: Interest -> bool, pick: Interest -> Callback): seq<Interest>
    requires Lighter(pick)
    decreases WorkLoad(work)
  {
    if work == [] then []
    else if !matches(work[0]) then ExpressedLast(work[1..], matches, pick)
    else
      var expressed := ExpressedBy(pick(work[0]));
      WorkShrinks(work, pick);
      if |work| == 1 then expressed else ExpressedLast(work[1..] + expressed, matches, pick)
  }

  lemma {:induction false} InterestsAppend(a: seq<Entry>, b: seq<Entry>)
    ensures Interests(a + b) == Interests(a) + Interests(b)
    decreases |a|
  {
    hide Interests;
    if a == [] {
      assert a + b == b && a[|a|..] == a;
      InterestsOfNone(a);
    } else {
      var rest := a[1..];
      InterestsAppend(rest, b);
      assert a == [a[0]] + rest && a + b == [a[0]] + (rest + b);
      InterestsCons(a[0], rest);
      InterestsCons(a[0], rest + b);
      assert [a[0].interest] + (Interests(rest) + Interests(b)) == ([a[0].interest] + Interests(rest)) + Interests(b);
    }
  }

  lemma InterestsCons(e: Entry, rest: seq<Entry>)
    ensures Interests([e] + rest) == [e.interest] + Interests(rest)
  {
    assert ([e] + rest)[1..] == rest;
  }

  /** Interests expressed by callbacks are visited by the same pass. A matching entry is left
      behind if and only if one is expressed by the callback of the entry that was last: its
      successor was the end of the list before the callback ran. */
  lemma {:induction false} PassLeavesNoMatch(s: Face, pos: nat, matches: Interest -> bool, fate: Fate,
                                             pick: Interest -> Callback)
    requires Runs(fate, pick)
    requires pos <= |s.pit| && NoMatch(s.pit[..pos], matches)
    ensures NoMatch(Deliver(s, pos, matches, fate).pit, matches)
            <==> NoneMatches(ExpressedLast(Interests(s.pit[pos..]), matches, pick), matches)
    decreases Load(s.pit[pos..])
  {
    hide DeliverTo, Load, ExpressedBy, CallbackOf, NoneMatches, WorkLoad;
    if pos == |s.pit| {
      assert s.pit[..pos] == s.pit;
      assert NoneMatches([], matches) by {
        NothingMatches(matches);
      }
    } else {
      assert s.pit[pos..][1..] == s.pit[pos + 1..];
      if !matches(s.pit[pos].interest) {
        LoadDrops(s.pit[pos..]);
        assert s.pit[..pos + 1] == s.pit[..pos] + [s.pit[pos]];
        PassLeavesNoMatch(s, pos + 1, matches, fate, pick);
      } else {
        PassDelivers(s, pos, matches, fate, pick);
      }
    }
  }

  lemma NothingMatches(matches: Interest -> bool)
    ensures NoneMatches([], matches)
  {
  }

  lemma {:induction false} PassDelivers(s: Face, pos: nat, matches: Interest -> bool, fate: Fate,
                                        pick: Interest -> Callback)
    requires Runs(fate, pick)
    requires pos < |s.pit| && NoMatch(s.pit[..pos], matches) && matches(s.pit[pos].interest)
    ensures NoMatch(Deliver(s, pos, matches, fate).pit, matches)
            <==> NoneMatches(ExpressedLast(Interests(s.pit[pos..]), matches, pick), matches)
    decreases Load(s.pit[pos..]), 0
  {
    hide DeliverTo, Load, ExpressedBy, CallbackOf, NoneMatches, WorkLoad, Interests, NoMatch;
    var added := DeliverToSplits(s, pos, fate);
    DeliverToExpresses(s, pos, fate);
    var r, rest := DeliverTo(s, pos, fate), s.pit[pos + 1..];
    var expressed := ExpressedBy(pick(s.pit[pos].interest));
    assert r.pit[|s.pit| - 1..] == added;
    InterestsFrom(s.pit, pos);
    InterestsLength(rest);
    WorkShrinks(Interests(s.pit[pos..]), pick);
    assert Interests(s.pit[pos..])[1..] == Interests(rest);
    if rest == [] {
      LastDelivered(s.pit[..pos], added, r.pit, matches);
    } else {
      DeliverToShrinks(s, pos, fate);
      InterestsAppend(rest, added);
      PassLeavesNoMatch(r, pos, matches, fate, pick);
    }
  }

  lemma LastDelivered(front: seq<Entry>, added: seq<Entry>, pit: seq<Entry>, matches: Interest -> bool)
    requires |pit| >= |front| && pit[..|front|] == front && pit[|front|..] == added && NoMatch(front, matches)
    ensures NoMatch(pit, matches) <==> NoneMatches(Interests(added), matches)
  {
    hide NoneMatches, Interests, NoMatch;
    assert pit == front + added;
    NoMatchInterests(added, matches);
    NoMatchAppend(front, added, matches);
  }

  lemma InterestsLength(pit: seq<Entry>)
    ensures |Interests(pit)| == |pit|
  {
    InterestsAt(pit);
  }

  lemma NoMatchAppend(a: seq<Entry>, b: seq<Entry>, matches: Interest -> bool)
    ensures NoMatch(a + b, matches) <==> NoMatch(a, matches) && NoMatch(b, matches)
  {
    assert forall k :: 0 <= k < |b| ==> (a + b)[|a| + k] == b[k];
    assert forall k :: 0 <= k < |a| ==> (a + b)[k] == a[k];
  }

  /** An Interest that its own Data callback expresses again stays pending although the Data
      at hand satisfies it. */
  lemma ReexpressedInterestWaits(s: Face, j: Interest, matches: Interest -> bool)
    requires |s.pit| == 1 && s.pit[0].interest.onData == Script([Express(j)])
    requires matches(s.pit[0].interest) && matches(j)
    ensures Lighter(OnData) && ExpressedLast(Interests(s.pit), matches, OnData) == [j]
    ensures Deliver(s, 0, matches, Satisfied).pit == [Entry(s.nextId, j)]
  {
    DataAndNackRun();
    var actions := [Express(j)];
    assert actions[1..] == [];
    assert EraseAt(s.pit, 0) == [];
    assert Interests(s.pit) == [s.pit[0].interest] by {
      assert Interests(s.pit[1..]) == [];
    }
    assert Expressed(actions) == [j] by {
      assert Expressed([]) == [];
    }
    assert forall t: Face :: Play(t, actions) == ExpressInterest(t, j) by {
      forall t: Face
        ensures Play(t, actions) == ExpressInterest(t, j)
      {
        assert Play(ExpressInterest(t, j), []) == ExpressInterest(t, j);
      }
    }
  }

  // ---------------------------------------------------------------------
  // Undefined steps
  // ---------------------------------------------------------------------

  function ScriptOf(c: Callback): seq<Action> {
    if c.NoCallback? then [] else c.actions
  }

  /** Everything the callbacks of a pass over the Interests of work do, in order. */
  ghost function PassActions(work: seq<Interest>, matches: Interest -> bool, pick: Interest -> Callback): seq<Action>
    requires Lighter(pick)
    decreases WorkLoad(work)
  {
    if work == [] then []
    else if !matches(work[0]) then PassActions(work[1..], matches, pick)
    else
      var c := pick(work[0]);
      WorkShrinks(work, pick);
      ScriptOf(c) + (if |work| == 1 then [] else PassActions(work[1..] + ExpressedBy(c), matches, pick))
  }

  /** What callbacks act on besides the pending-Interest table, and on which undefined steps
      depend. jobs are the posted tasks but for the pause checks. */
  datatype Footing = Footing(link: Link, prefixes: seq<nat>, faults: nat, jobs: seq<Task>)

  function FootingOf(s: Face): Footing {
    Footing(s.link, s.prefixes, s.faults, Jobs(s.tasks))
  }

  function Jobs(tasks: seq<Task>): seq<Task> {
    if tasks == [] then []
    else Jobs(tasks[..|tasks| - 1]) + (if tasks[|tasks| - 1].PauseCheck? then [] else [tasks[|tasks| - 1]])
  }

  lemma JobsAfter(tasks: seq<Task>, t: Task)
    ensures Jobs(tasks + [t]) == if t.PauseCheck? then Jobs(tasks) else Jobs(tasks) + [t]
  {
    assert (tasks + [t])[..|tasks|] == tasks;
  }

  function LinkAfterPut(l: Link): Link {
    var l1 := if l.connected then l else Connect(l);
    Send(if l1.receiving then l1 else Resume(l1), [])
  }

  function ActOn(x: Footing, a: Action): Footing {
    match a
    case Express(_) => x.(link := LinkAfterPut(x.link))
    case Put => x.(link := LinkAfterPut(x.link))
    case Registered(p) => x.(prefixes := x.prefixes + [p])
    case Unregistered(p) =>
      var i := IndexOfPrefix(x.prefixes, p);
      if i == |x.prefixes| then x.(faults := x.faults + 1) else x.(prefixes := EraseAt(x.prefixes, i))
    case Post(t) => if t.PauseCheck? then x else x.(jobs := x.jobs + [t])
  }

  function ActAll(x: Footing, actions: seq<Action>): Footing
    decreases |actions|
  {
    if actions == [] then x else ActAll(ActOn(x, actions[0]), actions[1..])
  }

  lemma {:induction false} ActAllAppend(x: Footing, a: seq<Action>, b: seq<Action>)
    ensures ActAll(x, a + b) == ActAll(ActAll(x, a), b)
    decreases |a|
  {
    hide ActOn;
    if a == [] {
      assert a + b == b;
    } else {
      ActAllAppend(ActOn(x, a[0]), a[1..], b);
      assert (a + b)[1..] == a[1..] + b;
    }
  }

  lemma ActFooting(s: Face, a: Action)
    ensures FootingOf(Act(s, a)) == ActOn(FootingOf(s), a)
  {
    JobsAfter(s.tasks, PauseCheck);
    if a.Post? {
      JobsAfter(s.tasks, a.task);
    }
    hide Jobs, Connect, Resume, Send, IndexOfPrefix;
  }

  lemma {:induction false} PlayFooting(s: Face, actions: seq<Action>)
    ensures FootingOf(Play(s, actions)) == ActAll(FootingOf(s), actions)
    decreases |actions|
  {
    hide Act, ActOn, FootingOf;
    if actions != [] {
      ActFooting(s, actions[0]);
      PlayFooting(Act(s, actions[0]), actions[1..]);
    }
  }

  lemma InvokeFooting(s: Face, id: nat, c: Callback, fate: Fate)
    ensures FootingOf(Invoke(s, id, c, fate)) == ActAll(FootingOf(s), ScriptOf(c))
  {
    hide Play;
    if c.Script? {
      PlayFooting(s.(calls := s.calls + [Settled(id, fate)]), c.actions);
    }
  }

  lemma DeliverToFooting(s: Face, pos: nat, fate: Fate)
    requires pos < |s.pit|
    ensures FootingOf(DeliverTo(s, pos, fate)) == ActAll(FootingOf(s), ScriptOf(CallbackFor(s.pit[pos], fate)))
  {
    JobsAfter(s.tasks, PauseCheck);
    hide Invoke, ActAll, ScriptOf, Jobs;
    var e := s.pit[pos];
    InvokeFooting(Settle(ErasePending(s, pos), e.id, fate), e.id, CallbackFor(e, fate), fate);
  }

  /** A delivery pass does to the link and the registered prefixes what the actions of its
      callbacks do, one after the other. */
  lemma {:induction false} PassFooting(s: Face, pos: nat, matches: Interest -> bool, fate: Fate,
                                       pick: Interest -> Callback)
    requires Runs(fate, pick)
    requires pos <= |s.pit|
    ensures FootingOf(Deliver(s, pos, matches, fate))
            == ActAll(FootingOf(s), PassActions(Interests(s.pit[pos..]), matches, pick))
    decreases Load(s.pit[pos..]), 1
  {
    hide DeliverTo, Load, ExpressedBy, ScriptOf, CallbackOf, WorkLoad, FootingOf;
    if pos < |s.pit| {
      assert s.pit[pos..][1..] == s.pit[pos + 1..];
      if !matches(s.pit[pos].interest) {
        LoadDrops(s.pit[pos..]);
        PassFooting(s, pos + 1, matches, fate, pick);
      } else {
        PassFootingMatch(s, pos, matches, fate, pick);
      }
    }
  }

  lemma {:induction false} PassFootingMatch(s: Face, pos: nat, matches: Interest -> bool, fate: Fate,
                                            pick: Interest -> Callback)
    requires Runs(fate, pick)
    requires pos < |s.pit| && matches(s.pit[pos].interest)
    ensures FootingOf(Deliver(s, pos, matches, fate))
            == ActAll(FootingOf(s), PassActions(Interests(s.pit[pos..]), matches, pick))
    decreases Load(s.pit[pos..]), 0
  {
    hide DeliverTo, Load, ExpressedBy, ScriptOf, CallbackOf, WorkLoad, Interests, FootingOf, ActAll;
    var added := DeliverToSplits(s, pos, fate);
    DeliverToExpresses(s, pos, fate);
    DeliverToFooting(s, pos, fate);
    var r, rest := DeliverTo(s, pos, fate), s.pit[pos + 1..];
    var c := pick(s.pit[pos].interest);
    assert r.pit[|s.pit| - 1..] == added;
    InterestsFrom(s.pit, pos);
    InterestsLength(rest);
    WorkShrinks(Interests(s.pit[pos..]), pick);
    assert Interests(s.pit[pos..])[1..] == Interests(rest);
    if rest == [] {
      assert ScriptOf(c) + [] == ScriptOf(c);
    } else {
      DeliverToShrinks(s, pos, fate);
      InterestsAppend(rest, added);
      PassFooting(r, pos, matches, fate, pick);
      ActAllAppend(FootingOf(s), ScriptOf(c), PassActions(Interests(rest) + ExpressedBy(c), matches, pick));
    }
  }

  predicate IsSending(a: Action) {
    a.Express? || a.Put?
  }

  predicate Sends(actions: seq<Action>) {
    exists a :: a in actions && IsSending(a)
  }

  /** The transport would resume if it were asked to. */
  predicate CanResume(l: Link) {
    !l.receiving && l.connected && !l.connecting
  }

  lemma PutResumes(l: Link)
    ensures LinkAfterPut(l).receiving <==> l.receiving || CanResume(l)
    ensures LinkAfterPut(l).connected == l.connected
    ensures l.connected ==> LinkAfterPut(l).connecting == l.connecting
  {
  }

  /** Actions leave the transport receiving exactly if it was, or was connected and they send. */
  lemma {:induction false} ActionsResume(x: Footing, actions: seq<Action>)
    ensures ActAll(x, actions).link.receiving <==> x.link.receiving || (CanResume(x.link) && Sends(actions))
    decreases |actions|
  {
    hide LinkAfterPut, IndexOfPrefix;
    if actions != [] {
      ActionsResume(ActOn(x, actions[0]), actions[1..]);
      PutResumes(x.link);
      SendsCons(actions);
    }
  }

  lemma SendsCons(actions: seq<Action>)
    requires actions != []
    ensures Sends(actions) <==> IsSending(actions[0]) || Sends(actions[1..])
  {
    assert actions == [actions[0]] + actions[1..];
  }

  /** How often the actions finalise the unregistration of a prefix that is not in the table. */
  function Missing(prefixes: seq<nat>, actions: seq<Action>): nat
    decreases |actions|
  {
    if actions == [] then 0
    else
      var a := actions[0];
      var i := if a.Unregistered? then IndexOfPrefix(prefixes, a.prefix) else 0;
      if a.Registered? then Missing(prefixes + [a.prefix], actions[1..])
      else if a.Unregistered? && i == |prefixes| then 1 + Missing(prefixes, actions[1..])
      else if a.Unregistered? then Missing(EraseAt(prefixes, i), actions[1..])
      else Missing(prefixes, actions[1..])
  }

  lemma {:induction false} ActionsFault(x: Footing, actions: seq<Action>)
    ensures ActAll(x, actions).faults == x.faults + Missing(x.prefixes, actions)
    decreases |actions|
  {
    hide LinkAfterPut, IndexOfPrefix;
    if actions != [] {
      ActionsFault(ActOn(x, actions[0]), actions[1..]);
    }
  }

  /** Everything the callbacks do that run in a step. */
  ghost function ActionsOf(s: Face, e: FaceEvent): seq<Action> {
    DataAndNackRun();
    match e
    case ReceiveData(matches) => PassActions(Interests(s.pit), matches, OnData)
    case ReceiveNack(matches) => PassActions(Interests(s.pit), matches, OnNack)
    case ReceiveInterest(actions) => actions
    case TimerFires(id) =>
      var i := IndexOf(s.pit, id);
      if i == |s.pit| then [] else ScriptOf(s.pit[i].interest.onTimeout)
    case _ => []
  }

  predicate IsArrival(e: FaceEvent) {
    e.ReceiveData? || e.ReceiveNack? || e.ReceiveInterest?
  }

  /** A packet from a read that was cancelled too late arrives on a transport that is paused
      and still connected, and a callback sends something. */
  ghost predicate ResumesHandler(s: Face, e: FaceEvent) {
    IsArrival(e) && CanResume(s.link) && Sends(ActionsOf(s, e))
  }

  lemma ReceivedFaults(s: Face, r: Face, actions: seq<Action>)
    requires FootingOf(r) == ActAll(FootingOf(s), actions)
    ensures Received(s, r).faults == s.faults + Missing(s.prefixes, actions)
                                     + if CanResume(s.link) && Sends(actions) then 1 else 0
  {
    hide ActAll, Missing, Sends;
    ActionsResume(FootingOf(s), actions);
    ActionsFault(FootingOf(s), actions);
  }

  lemma TimeoutFaults(s: Face, id: nat)
    ensures Timeout(s, id).faults == s.faults + Missing(s.prefixes, ActionsOf(s, TimerFires(id)))
  {
    hide Invoke, ActAll, Missing, ScriptOf;
    var i := IndexOf(s.pit, id);
    if i == |s.pit| {
      assert Missing(s.prefixes, []) == 0 by {
        NothingMissing(s.prefixes);
      }
    } else {
      var c := s.pit[i].interest.onTimeout;
      var s' := Settle(CancelTimer(s, id), id, TimedOut);
      InvokeFooting(s', id, c, TimedOut);
      ActionsFault(FootingOf(s), ScriptOf(c));
    }
  }

  lemma NothingMissing(prefixes: seq<nat>)
    ensures Missing(prefixes, []) == 0
  {
  }

  lemma TaskLeavesFaults(s: Face)
    ensures RunTask(s).faults == s.faults
  {
    hide Connect, Resume, Send, RemoveFrom, Pause;
    if s.tasks != [] && s.tasks[0].RemoveAll? {
      RemoveFromLeavesFaults(s.(tasks := s.tasks[1..]));
    }
  }

  lemma {:induction false} RemoveFromLeavesFaults(s: Face)
    ensures RemoveFrom(s).faults == s.faults
    decreases |s.pit|
  {
    if s.pit != [] {
      RemoveFromLeavesFaults(Settle(CancelTimer(s.(pit := s.pit[1..]), s.pit[0].id), s.pit[0].id, Removed));
    }
  }

  /** The undefined steps of the Face, counted from the event, the tables and the link before
      it: each unregistration finalised without its record, and a callback that resumes the
      transport under the handler of a late read. */
  lemma StepFaultsExactly(s: Face, e: FaceEvent)
    ensures FaceStep(s, e).faults == s.faults + Missing(s.prefixes, ActionsOf(s, e))
                                     + if ResumesHandler(s, e) then 1 else 0
  {
    hide Deliver, Play, Timeout, RunTask, ActAll, Missing, Sends, Connect, Resume, Send, PassActions, Received, Step, FootingOf;
    NothingMissing(s.prefixes);
    DataAndNackRun();
    assert s.pit[0..] == s.pit;
    match e
    case ReceiveData(matches) =>
      PassFooting(s, 0, matches, Satisfied, OnData);
      ReceivedFaults(s, Deliver(s, 0, matches, Satisfied), ActionsOf(s, e));
    case ReceiveNack(matches) =>
      PassFooting(s, 0, matches, Nacked, OnNack);
      ReceivedFaults(s, Deliver(s, 0, matches, Nacked), ActionsOf(s, e));
    case ReceiveInterest(actions) =>
      PlayFooting(s, actions);
      ReceivedFaults(s, Play(s, actions), actions);
    case TimerFires(id) => TimeoutFaults(s, id);
    case NextTask => TaskLeavesFaults(s);
    case _ =>
  }

  /** No callback finalises an unregistration whose record is gone, and none resumes the
      transport under the handler of a late read. */
  ghost predicate Careful(s: Face, events: seq<FaceEvent>)
    decreases |events|
  {
    events != [] ==>
      && Missing(s.prefixes, ActionsOf(s, events[0])) == 0
      && !ResumesHandler(s, events[0])
      && Careful(FaceStep(s, events[0]), events[1..])
  }

  lemma {:induction false} FaultsGrow(s: Face, events: seq<FaceEvent>)
    ensures s.faults <= FaceRun(s, events).faults
    decreases |events|
  {
    hide FaceStep, Missing, ResumesHandler;
    if events != [] {
      StepFaultsExactly(s, events[0]);
      FaultsGrow(FaceStep(s, events[0]), events[1..]);
    }
  }

  /** A run of the Face is free of undefined steps exactly if it is careful. */
  lemma {:induction false} RunFaultsExactly(s: Face, events: seq<FaceEvent>)
    ensures FaceRun(s, events).faults == s.faults <==> Careful(s, events)
    decreases |events|
  {
    hide FaceStep, Missing, ResumesHandler, ActionsOf;
    if events != [] {
      StepFaultsExactly(s, events[0]);
      RunFaultsExactly(FaceStep(s, events[0]), events[1..]);
      FaultsGrow(FaceStep(s, events[0]), events[1..]);
    }
  }

  lemma OneSend()
    ensures Sends([Put]) && forall prefixes :: Missing(prefixes, [Put]) == 0
  {
    assert Put in [Put] && IsSending(Put);
    forall prefixes: seq<nat>
      ensures Missing(prefixes, [Put]) == 0
    {
      assert [Put][1..] == [];
      NothingMissing(prefixes);
    }
  }

  lemma LateArrivalEnabled(s: Face)
    requires s.link.late.reading > 0
    ensures FaceEnabled(s, ReceiveInterest([Put]))
  {
  }

  /** Such a run from a fresh Face: the read that the pause check has cancelled reports an
      Interest, and the callback for it puts a packet. */
  lemma LateInterestFaults() returns (events: seq<FaceEvent>)
    ensures events == [CallPut, Socket(EvConnected(true)), CallPost(RemoveAll), NextTask, NextTask]
                      + [ReceiveInterest([Put])]
    ensures FacePossible(FACE_INITIAL, events) && FaceRun(FACE_INITIAL, events).faults == 1
  {
    hide FaceStep, FaceRun, FacePossible, Sends, Missing, FaceEnabled, Stalled, Sound;
    var paused := CheckStallsWriter();
    var s := FaceRun(FACE_INITIAL, paused);
    LateArrivalEnabled(s);
    OneSend();
    StepFaultsExactly(s, ReceiveInterest([Put]));
    FaceSnoc(FACE_INITIAL, paused, ReceiveInterest([Put]));
    events := paused + [ReceiveInterest([Put])];
  }
}
