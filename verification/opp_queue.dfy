/** The send queue of the opportunistic transport. */
module OppQueue {

  // ---------------------------------------------------------------------
  // One transport
  // ---------------------------------------------------------------------

  datatype Payload = Interest(nonce: nat) | Data

  /** A packet that was accepted; serial is the order of acceptance. */
  datatype Packet = Packet(serial: nat, payload: Payload)

  datatype TransportState = UP | DOWN

  /** attempted records the packets handed to the channel and pending those of them that have
      not reported yet; accepted, completed and removed record what happened to packets so
      far, and confirmed the packets whose transmission was reported as successful. faults
      counts the times a packet was popped off an empty queue, which is undefined: after one,
      what the model does next means nothing. */
  datatype Opp = Opp(
    state: TransportState,
    sendQueue: seq<Packet>,
    attempted: seq<Packet>,
    pending: seq<Packet>,
    accepted: seq<Packet>,
    completed: seq<Packet>,
    removed: seq<Packet>,
    confirmed: seq<Packet>,
    faults: nat)

  const OPP_INITIAL := Opp(DOWN, [], [], [], [], [], [], [], 0)

  /** performSend: nothing is handed over unless the transport is up and the buffer for the
      channel can be allocated. */
  function SendNextPacket(o: Opp, canAllocate: bool): Opp {
    if o.sendQueue == [] || o.state != UP || !canAllocate then o
    else o.(attempted := o.attempted + [o.sendQueue[0]], pending := o.pending + [o.sendQueue[0]])
  }

  function CommuteState(o: Opp, newState: TransportState, canAllocate: bool): Opp {
    var o' := o.(state := newState);
    if newState == UP then SendNextPacket(o', canAllocate) else o'
  }

  predicate Carries(p: Packet, nonce: nat) {
    p.payload == Interest(nonce)
  }

  function FirstWithNonce(queue: seq<Packet>, nonce: nat): (i: nat)
    ensures i <= |queue|
    ensures i < |queue| ==> Carries(queue[i], nonce)
    ensures forall k :: 0 <= k < i ==> !Carries(queue[k], nonce)
  {
    if queue == [] || Carries(queue[0], nonce) then 0 else 1 + FirstWithNonce(queue[1..], nonce)
  }

  function RemovePacket(o: Opp, nonce: nat): Opp {
    var i := FirstWithNonce(o.sendQueue, nonce);
    if i == |o.sendQueue| then o
    else o.(sendQueue := o.sendQueue[..i] + o.sendQueue[i + 1..], removed := o.removed + [o.sendQueue[i]])
  }

  function PopFront(o: Opp): Opp {
    if o.sendQueue == [] then o.(faults := o.faults + 1)
    else o.(sendQueue := o.sendQueue[1..], completed := o.completed + [o.sendQueue[0]])
  }

  function OnSendComplete(o: Opp, succeeded: bool, canAllocate: bool): Opp {
    if succeeded then SendNextPacket(PopFront(o), canAllocate) else o
  }

  function DoSend(o: Opp, payload: Payload, canAllocate: bool): Opp {
    var p := Packet(|o.accepted|, payload);
    var o' := o.(sendQueue := o.sendQueue + [p], accepted := o.accepted + [p]);
    if o'.state == UP && |o'.sendQueue| == 1 then SendNextPacket(o', canAllocate) else o'
  }

  datatype Event =
    | EvCommute(newState: TransportState, canAllocate: bool)
    | EvSend(payload: Payload, canAllocate: bool)
    | EvRemove(nonce: nat)
    | EvReport(which: nat, succeeded: bool, canAllocate: bool)

  /** A report answers one of the pending transmissions, or none: the channel may report
      whenever it likes. */
  function Answer(o: Opp, which: nat, succeeded: bool): Opp {
    if which >= |o.pending| then o
    else
      o.(pending := o.pending[..which] + o.pending[which + 1..],
      confirmed := if succeeded then o.confirmed + [o.pending[which]] else o.confirmed)
  }

  function Step(o: Opp, e: Event): Opp {
    match e
    case EvCommute(newState, canAllocate) => CommuteState(o, newState, canAllocate)
    case EvSend(payload, canAllocate) => DoSend(o, payload, canAllocate)
    case EvRemove(nonce) => RemovePacket(o, nonce)
    case EvReport(which, succeeded, canAllocate) => OnSendComplete(Answer(o, which, succeeded), succeeded, canAllocate)
  }

  function Run(o: Opp, events: seq<Event>): Opp
    decreases |events|
  {
    if events == [] then o else Run(Step(o, events[0]), events[1..])
  }

  // ---------------------------------------------------------------------
  // Conservation, whatever happens
  // ---------------------------------------------------------------------

  ghost predicate Increasing(s: seq<Packet>) {
    forall i, j :: 0 <= i < j < |s| ==> s[i].serial < s[j].serial
  }

  /** Every accepted packet is completed, removed or queued, exactly one of these; completed
      packets and then the queue are in the order of acceptance; only Interests are removed;
      and nothing was popped off an empty queue. */
  ghost predicate Conserved(o: Opp) {
    && (forall i :: 0 <= i < |o.accepted| ==> o.accepted[i].serial == i)
    && Balanced(o.accepted, o.completed, o.removed, o.sendQueue)
    && Increasing(o.completed + o.sendQueue)
    && (forall p :: p in o.completed + o.sendQueue ==> p.serial < |o.accepted|)
    && (forall p :: p in o.removed ==> p.payload.Interest?)
    && o.faults == 0
  }

  ghost predicate Balanced(accepted: seq<Packet>, completed: seq<Packet>, removed: seq<Packet>, queue: seq<Packet>) {
    multiset(accepted) == multiset(completed) + multiset(removed) + multiset(queue)
  }

  lemma CutOut(s: seq<Packet>, i: nat)
    requires i < |s|
    ensures multiset(s) == multiset(s[..i] + s[i + 1..]) + multiset{s[i]}
  {
    assert s == s[..i] + [s[i]] + s[i + 1..];
  }

  lemma IncreasingCut(a: seq<Packet>, b: seq<Packet>, i: nat)
    requires Increasing(a + b) && i < |b|
    ensures Increasing(a + (b[..i] + b[i + 1..]))
  {
    var s, t := a + b, a + (b[..i] + b[i + 1..]);
    assert forall k :: 0 <= k < |a| + i ==> t[k] == s[k];
    assert forall k :: |a| + i <= k < |t| ==> t[k] == s[k + 1];
  }

  lemma RemoveConserves(o: Opp, nonce: nat)
    requires Conserved(o)
    ensures Conserved(RemovePacket(o, nonce))
  {
    var i := FirstWithNonce(o.sendQueue, nonce);
    hide FirstWithNonce;
    if i < |o.sendQueue| {
      var r := RemovePacket(o, nonce);
      var p := o.sendQueue[i];
      RemoveBalanced(o.accepted, o.completed, o.removed, o.sendQueue, i);
      IncreasingCut(o.completed, o.sendQueue, i);
      hide Balanced, Increasing;
      assert r == o.(sendQueue := o.sendQueue[..i] + o.sendQueue[i + 1..], removed := o.removed + [p]);
      assert p.payload.Interest?;
      CutMembers(o.completed, o.sendQueue, i);
      hide RemovePacket;
    }
  }

  lemma CutMembers(a: seq<Packet>, queue: seq<Packet>, i: nat)
    requires i < |queue|
    ensures forall q :: q in a + (queue[..i] + queue[i + 1..]) ==> q in a + queue
  {
  }

  lemma RemoveBalanced(accepted: seq<Packet>, completed: seq<Packet>, removed: seq<Packet>, queue: seq<Packet>, i: nat)
    requires Balanced(accepted, completed, removed, queue) && i < |queue|
    ensures Balanced(accepted, completed, removed + [queue[i]], queue[..i] + queue[i + 1..])
  {
    CutOut(queue, i);
    var rest := queue[..i] + queue[i + 1..];
    assert multiset(removed + [queue[i]]) == multiset(removed) + multiset{queue[i]};
    assert multiset(removed) + multiset(queue) == multiset(removed + [queue[i]]) + multiset(rest);
  }

  lemma PopBalanced(accepted: seq<Packet>, completed: seq<Packet>, removed: seq<Packet>, queue: seq<Packet>)
    requires Balanced(accepted, completed, removed, queue) && queue != []
    ensures Balanced(accepted, completed + [queue[0]], removed, queue[1..])
  {
    CutOut(queue, 0);
    assert queue[..0] + queue[1..] == queue[1..];
    assert multiset(completed + [queue[0]]) == multiset(completed) + multiset{queue[0]};
  }

  lemma PushBalanced(accepted: seq<Packet>, completed: seq<Packet>, removed: seq<Packet>, queue: seq<Packet>, p: Packet)
    requires Balanced(accepted, completed, removed, queue)
    ensures Balanced(accepted + [p], completed, removed, queue + [p])
  {
    assert multiset(accepted + [p]) == multiset(accepted) + multiset{p};
    assert multiset(queue + [p]) == multiset(queue) + multiset{p};
  }

  lemma PopConserves(o: Opp)
    requires Conserved(o)
    ensures Conserved(PopFront(o)) <==> o.sendQueue != []
  {
    if o.sendQueue != [] {
      var p, rest := o.sendQueue[0], o.sendQueue[1..];
      PopBalanced(o.accepted, o.completed, o.removed, o.sendQueue);
      assert o.sendQueue == [p] + rest;
      assert o.completed + o.sendQueue == (o.completed + [p]) + rest;
      hide Balanced, Increasing;
    }
  }

  lemma SendConserves(o: Opp, payload: Payload, canAllocate: bool)
    requires Conserved(o)
    ensures Conserved(DoSend(o, payload, canAllocate))
  {
    var p := Packet(|o.accepted|, payload);
    PushBalanced(o.accepted, o.completed, o.removed, o.sendQueue, p);
    AppendIncreasing(o.completed + o.sendQueue, p);
    assert (o.completed + o.sendQueue) + [p] == o.completed + (o.sendQueue + [p]);
    hide Balanced, Increasing;
  }

  lemma AppendIncreasing(s: seq<Packet>, p: Packet)
    requires Increasing(s) && forall q :: q in s ==> q.serial < p.serial
    ensures Increasing(s + [p])
  {
  }

  /** A transmission is reported as successful while the queue is empty. */
  ghost predicate PopsNothing(o: Opp, e: Event) {
    e.EvReport? && e.succeeded && o.sendQueue == []
  }

  lemma StepConserves(o: Opp, e: Event)
    requires Conserved(o)
    ensures Conserved(Step(o, e)) <==> !PopsNothing(o, e)
  {
    match e
    case EvCommute(_, _) =>
    case EvSend(payload, canAllocate) => SendConserves(o, payload, canAllocate);
    case EvRemove(nonce) => RemoveConserves(o, nonce);
    case EvReport(which, succeeded, canAllocate) =>
      var answered := Answer(o, which, succeeded);
      assert Conserved(answered);
      PopConserves(answered);
      SentConserves(PopFront(answered), canAllocate);
      hide Conserved;
  }

  lemma SentConserves(o: Opp, canAllocate: bool)
    ensures Conserved(SendNextPacket(o, canAllocate)) <==> Conserved(o)
  {
    hide Balanced, Increasing;
  }

  ghost predicate NeverPopsNothing(o: Opp, events: seq<Event>)
    decreases |events|
  {
    events != [] ==> !PopsNothing(o, events[0]) && NeverPopsNothing(Step(o, events[0]), events[1..])
  }

  /** Over every run of sends, link changes, reports and removals in which nothing is popped
      off an empty queue. */
  lemma {:induction false} RunConserves(o: Opp, events: seq<Event>)
    requires Conserved(o) && NeverPopsNothing(o, events)
    ensures Conserved(Run(o, events))
    decreases |events|
  {
    hide Conserved, Step;
    if events != [] {
      StepConserves(o, events[0]);
      RunConserves(Step(o, events[0]), events[1..]);
    }
  }

  /** It does happen: the one packet in the queue is removed while it is in flight, and then
      reported as transmitted. */
  lemma RemovalPopsNothing(nonce: nat) returns (events: seq<Event>)
    ensures events == [EvCommute(UP, true), EvSend(Interest(nonce), true), EvRemove(nonce), EvReport(0, true, true)]
    ensures Run(OPP_INITIAL, events).faults == 1
  {
    RemovedInFlight(nonce);
    hide Step;
    RunSnoc(OPP_INITIAL, [], EvCommute(UP, true));
    RunSnoc(OPP_INITIAL, [] + [EvCommute(UP, true)], EvSend(Interest(nonce), true));
    RunSnoc(OPP_INITIAL, [] + [EvCommute(UP, true)] + [EvSend(Interest(nonce), true)], EvRemove(nonce));
    RunSnoc(OPP_INITIAL, [] + [EvCommute(UP, true)] + [EvSend(Interest(nonce), true)] + [EvRemove(nonce)],
            EvReport(0, true, true));
    events := [] + [EvCommute(UP, true)] + [EvSend(Interest(nonce), true)] + [EvRemove(nonce)] + [EvReport(0, true, true)];
  }

  lemma RemovedInFlight(nonce: nat)
    ensures var o1 := Step(OPP_INITIAL, EvCommute(UP, true));
            var o2 := Step(o1, EvSend(Interest(nonce), true));
            var o3 := Step(o2, EvRemove(nonce));
            o3.pending != [] && Step(o3, EvReport(0, true, true)).faults == 1
  {
    var p := Packet(0, Interest(nonce));
    var o2 := Step(Step(OPP_INITIAL, EvCommute(UP, true)), EvSend(Interest(nonce), true));
    assert o2.sendQueue == [p] && o2.pending == [p];
    assert Step(o2, EvRemove(nonce)).sendQueue == [];
  }

  lemma {:induction false} RunSnoc(o: Opp, events: seq<Event>, e: Event)
    ensures Run(o, events + [e]) == Step(Run(o, events), e)
    decreases |events|
  {
    hide Step;
    if events == [] {
      assert [] + [e] == [e] && [e][1..] == [];
      assert Run(Step(o, e), []) == Step(o, e);
    } else {
      RunSnoc(Step(o, events[0]), events[1..], e);
      assert (events + [e])[1..] == events[1..] + [e];
    }
  }

  /** Removal by nonce takes out at most the first matching Interest and never a Data packet. */
  lemma RemovesFirstInterest(o: Opp, nonce: nat)
    ensures var r := RemovePacket(o, nonce);
            if forall p :: p in o.sendQueue ==> p.payload != Interest(nonce) then r == o
            else exists i :: TakesFirst(o, r, nonce, i)
  {
    var i := FirstWithNonce(o.sendQueue, nonce);
    hide FirstWithNonce;
    if i < |o.sendQueue| {
      assert o.sendQueue[i] in o.sendQueue;
      assert TakesFirst(o, RemovePacket(o, nonce), nonce, i);
    }
  }

  /** r is o without the packet at i, which is the first Interest with the nonce. */
  ghost predicate TakesFirst(o: Opp, r: Opp, nonce: nat, i: nat) {
    && i < |o.sendQueue| && o.sendQueue[i].payload == Interest(nonce)
    && (forall k :: 0 <= k < i ==> o.sendQueue[k].payload != Interest(nonce))
    && r == o.(sendQueue := o.sendQueue[..i] + o.sendQueue[i + 1..], removed := o.removed + [o.sendQueue[i]])
  }

  // ---------------------------------------------------------------------
  // What the events tell
  // ---------------------------------------------------------------------

  /** What one would note down from the calls and reports alone: whether the link is up, what
      was sent, what of it is waiting, what was handed to the channel, and how many successes
      were reported. */
  datatype Notes = Notes(up: bool, sent: seq<Payload>, waiting: seq<Payload>, handed: seq<Payload>, successes: nat)

  const NO_NOTES := Notes(false, [], [], [], 0)

  function Offer(n: Notes, canAllocate: bool): Notes {
    if n.up && canAllocate && n.waiting != [] then n.(handed := n.handed + [n.waiting[0]]) else n
  }

  /** The first of the payloads that is this one goes. */
  function DropFirst(payloads: seq<Payload>, gone: Payload): seq<Payload> {
    if payloads == [] then []
    else if payloads[0] == gone then payloads[1..]
    else [payloads[0]] + DropFirst(payloads[1..], gone)
  }

  function Noted(n: Notes, e: Event): Notes {
    match e
    case EvCommute(newState, canAllocate) =>
      var n' := n.(up := newState == UP);
      if n'.up then Offer(n', canAllocate) else n'
    case EvSend(payload, canAllocate) =>
      var n' := n.(sent := n.sent + [payload], waiting := n.waiting + [payload]);
      if n.waiting == [] then Offer(n', canAllocate) else n'
    case EvRemove(nonce) => n.(waiting := DropFirst(n.waiting, Interest(nonce)))
    case EvReport(_, succeeded, canAllocate) =>
      if !succeeded then n
      else Offer(Popped(n), canAllocate)
  }

  function Popped(n: Notes): Notes {
    n.(waiting := if n.waiting == [] then [] else n.waiting[1..], successes := n.successes + 1)
  }

  function NotedAll(n: Notes, events: seq<Event>): Notes
    decreases |events|
  {
    if events == [] then n else NotedAll(Noted(n, events[0]), events[1..])
  }

  function Payloads(packets: seq<Packet>): (r: seq<Payload>)
    ensures |r| == |packets|
    ensures forall i :: 0 <= i < |packets| ==> r[i] == packets[i].payload
  {
    seq(|packets|, i requires 0 <= i < |packets| => packets[i].payload)
  }

  ghost predicate Agrees(o: Opp, n: Notes) {
    && (o.state == UP <==> n.up)
    && Payloads(o.accepted) == n.sent
    && Payloads(o.sendQueue) == n.waiting
    && Payloads(o.attempted) == n.handed
    && |o.completed| + o.faults == n.successes
  }

  lemma {:induction false} DropFirstIs(queue: seq<Packet>, nonce: nat)
    ensures var i := FirstWithNonce(queue, nonce);
            DropFirst(Payloads(queue), Interest(nonce)) ==
              if i < |queue| then Payloads(queue[..i] + queue[i + 1..]) else Payloads(queue)
    decreases |queue|
  {
    if queue != [] {
      var rest, i := queue[1..], FirstWithNonce(queue, nonce);
      assert Payloads(queue)[1..] == Payloads(rest);
      if i > 0 {
        DropFirstIs(rest, nonce);
        hide FirstWithNonce, DropFirst;
        if i < |queue| {
          CutBehind(queue, i);
        }
      }
    }
  }

  lemma CutBehind(queue: seq<Packet>, i: nat)
    requires 0 < i < |queue|
    ensures [queue[0].payload] + Payloads(queue[1..][..i - 1] + queue[1..][i..])
            == Payloads(queue[..i] + queue[i + 1..])
  {
  }

  lemma OfferAgrees(o: Opp, n: Notes, canAllocate: bool)
    requires Agrees(o, n)
    ensures Agrees(SendNextPacket(o, canAllocate), Offer(n, canAllocate))
  {
  }

  lemma SendAgrees(o: Opp, n: Notes, payload: Payload, canAllocate: bool)
    requires Agrees(o, n)
    ensures Agrees(DoSend(o, payload, canAllocate), Noted(n, EvSend(payload, canAllocate)))
  {
    var p := Packet(|o.accepted|, payload);
    var o' := o.(sendQueue := o.sendQueue + [p], accepted := o.accepted + [p]);
    var n' := n.(sent := n.sent + [payload], waiting := n.waiting + [payload]);
    assert Agrees(o', n');
    assert |o.sendQueue| == |n.waiting|;
    OfferAgrees(o', n', canAllocate);
    hide Agrees, Payloads;
    if o.state != UP {
      NoOffer(o', n', canAllocate);
    }
  }

  lemma NoOffer(o: Opp, n: Notes, canAllocate: bool)
    requires Agrees(o, n) && o.state != UP
    ensures Offer(n, canAllocate) == n
  {
  }

  lemma PopAgrees(o: Opp, n: Notes)
    requires Agrees(o, n)
    ensures Agrees(PopFront(o), Popped(n))
  {
  }

  lemma AnswerAgrees(o: Opp, n: Notes, which: nat, succeeded: bool)
    requires Agrees(o, n)
    ensures Agrees(Answer(o, which, succeeded), n)
  {
  }

  lemma RemoveAgrees(o: Opp, n: Notes, nonce: nat)
    requires Agrees(o, n)
    ensures Agrees(RemovePacket(o, nonce), Noted(n, EvRemove(nonce)))
  {
    hide FirstWithNonce, DropFirst, Payloads;
    DropFirstIs(o.sendQueue, nonce);
  }

  lemma StepAgrees(o: Opp, n: Notes, e: Event)
    requires Agrees(o, n)
    ensures Agrees(Step(o, e), Noted(n, e))
  {
    match e
    case EvCommute(newState, canAllocate) =>
      OfferAgrees(o.(state := newState), n.(up := newState == UP), canAllocate);
    case EvSend(payload, canAllocate) =>
      SendAgrees(o, n, payload, canAllocate);
    case EvRemove(nonce) =>
      RemoveAgrees(o, n, nonce);
    case EvReport(which, succeeded, canAllocate) =>
      hide Agrees, Answer, SendNextPacket, Offer, PopFront;
      AnswerAgrees(o, n, which, succeeded);
      if succeeded {
        var o' := Answer(o, which, succeeded);
        PopAgrees(o', n);
        OfferAgrees(PopFront(o'), Popped(n), canAllocate);
      }
  }

  lemma {:induction false} RunAgrees(o: Opp, n: Notes, events: seq<Event>)
    requires Agrees(o, n)
    ensures Agrees(Run(o, events), NotedAll(n, events))
    decreases |events|
  {
    hide Agrees, Noted, Step;
    if events != [] {
      StepAgrees(o, n, events[0]);
      RunAgrees(Step(o, events[0]), Noted(n, events[0]), events[1..]);
    }
  }

  /** Over every run: the transport accepts what it is sent, its queue is what was sent and
      neither removed nor reported as transmitted, and it hands over the front of the queue
      when the link comes up, when the queue was empty before a send, and on each success. */
  lemma HistoryTells(events: seq<Event>)
    ensures var o, n := Run(OPP_INITIAL, events), NotedAll(NO_NOTES, events);
            && (o.state == UP <==> n.up)
            && Payloads(o.accepted) == n.sent
            && Payloads(o.sendQueue) == n.waiting
            && Payloads(o.attempted) == n.handed
            && |o.completed| + o.faults == n.successes
  {
    hide Payloads;
    assert Payloads([]) == [];
    RunAgrees(OPP_INITIAL, NO_NOTES, events);
  }

  // ---------------------------------------------------------------------
  // Completed means transmitted
  // ---------------------------------------------------------------------

  /** At most one transmission is pending, and it is that of the front packet. */
  ghost predicate InStep(o: Opp) {
    && |o.pending| <= 1
    && (o.pending != [] ==> o.sendQueue != [] && o.sendQueue[0] == o.pending[0])
    && o.completed == o.confirmed
    && o.faults == 0
  }

  /** The three things that break this: the packet in flight is removed by nonce, the link
      comes up again before the last transmission has reported, or a success is reported that
      answers no transmission. */
  ghost predicate Breaks(o: Opp, e: Event) {
    match e
    case EvCommute(newState, canAllocate) => o.pending != [] && newState == UP && canAllocate
    case EvSend(_, _) => false
    case EvRemove(nonce) => o.pending != [] && FirstWithNonce(o.sendQueue, nonce) == 0
    case EvReport(which, succeeded, _) => succeeded && which >= |o.pending|
  }

  lemma BreaksExactly(o: Opp, e: Event)
    requires InStep(o) && Conserved(o)
    ensures InStep(Step(o, e)) <==> !Breaks(o, e)
  {
    match e
    case EvCommute(_, _) =>
    case EvSend(_, _) =>
    case EvReport(which, succeeded, _) =>
      if succeeded && which >= |o.pending| && o.sendQueue != [] {
        assert |Step(o, e).completed| == |o.completed| + 1;
      }
    case EvRemove(nonce) =>
      var i := FirstWithNonce(o.sendQueue, nonce);
      if i < |o.sendQueue| && o.pending != [] {
        FrontAfterCut(o.completed, o.sendQueue, i);
      }
  }

  lemma FrontAfterCut(a: seq<Packet>, queue: seq<Packet>, i: nat)
    requires Increasing(a + queue) && i < |queue|
    ensures var r := queue[..i] + queue[i + 1..];
            i == 0 ==> r == [] || r[0] != queue[0]
    ensures var r := queue[..i] + queue[i + 1..];
            i > 0 ==> r != [] && r[0] == queue[0]
  {
    if i == 0 && |queue| > 1 {
      assert (a + queue)[|a|] == queue[0] && (a + queue)[|a| + 1] == queue[1];
    }
  }

  ghost predicate NeverBreaks(o: Opp, events: seq<Event>)
    decreases |events|
  {
    events != [] ==> !Breaks(o, events[0]) && NeverBreaks(Step(o, events[0]), events[1..])
  }

  /** On runs where each link-up waits for the last report and the packet in flight is not
      removed, the packets taken off the queue are exactly those reported as transmitted, in
      the order of acceptance. */
  lemma {:induction false} CompletedAreTransmitted(o: Opp, events: seq<Event>)
    requires InStep(o) && Conserved(o) && NeverBreaks(o, events)
    ensures var r := Run(o, events);
            r.completed == r.confirmed && Increasing(r.completed) && InStep(r) && Conserved(r)
    decreases |events|
  {
    hide Step, InStep, Conserved, Breaks, PopsNothing;
    if events == [] {
      CompletedIncrease(o);
    } else {
      InStepPopsSomething(o, events[0]);
      BreaksExactly(o, events[0]);
      StepConserves(o, events[0]);
      CompletedAreTransmitted(Step(o, events[0]), events[1..]);
    }
  }

  lemma InStepPopsSomething(o: Opp, e: Event)
    requires InStep(o) && !Breaks(o, e)
    ensures !PopsNothing(o, e)
  {
  }

  lemma CompletedIncrease(o: Opp)
    requires InStep(o) && Conserved(o)
    ensures o.completed == o.confirmed && Increasing(o.completed)
  {
    assert forall i :: 0 <= i < |o.completed| ==> (o.completed + o.sendQueue)[i] == o.completed[i];
  }

  /** Without the condition a packet is lost: x is removed while it is in flight, its success
      takes the next packet y off the queue, and y has never been handed over. */
  lemma RemovalDropsNextPacket(o: Opp, nonce: nat, canAllocate: bool)
    requires InStep(o) && Conserved(o) && o.state == UP && |o.pending| == 1 && |o.sendQueue| >= 2
    requires Carries(o.pending[0], nonce)
    ensures var y := o.sendQueue[1];
            var o1 := Step(o, EvRemove(nonce));
            && |o1.pending| == 1
            && var o2 := Step(o1, EvReport(0, true, canAllocate));
               && y in o2.completed && y !in o2.sendQueue && y !in o2.confirmed
               && o2.attempted == o.attempted + (if canAllocate && |o.sendQueue| > 2 then [o.sendQueue[2]] else [])
  {
    var y := o.sendQueue[1];
    var o1 := Step(o, EvRemove(nonce));
    assert o1.sendQueue == o.sendQueue[1..];
    var o2 := Step(o1, EvReport(0, true, canAllocate));
    assert o1.sendQueue[1..] == o.sendQueue[2..];
    assert o2.completed == o.completed + [y] && o2.sendQueue == o.sendQueue[2..];
    assert o2.confirmed == o.completed + [o.sendQueue[0]];
    hide Step;
    SecondIsOnlyOnce(o.completed, o.sendQueue);
  }

  /** Without the condition a packet is lost: the link goes down and up while x is in flight,
      both transmissions of x succeed, and the next packet y leaves the queue although its own
      transmission fails. */
  lemma ResendDropsNextPacket(o: Opp)
    requires InStep(o) && Conserved(o) && o.state == UP && |o.pending| == 1 && |o.sendQueue| >= 2
    ensures var y := o.sendQueue[1];
            var o1 := CommuteState(CommuteState(o, DOWN, true), UP, true);
            var o2 := Step(o1, EvReport(0, true, true));
            && |o2.pending| == 2
            && var o3 := Step(o2, EvReport(0, true, false));
               && o3.pending == [y]
               && var o4 := Step(o3, EvReport(0, false, true));
                  y in o4.completed && y !in o4.sendQueue && y !in o4.confirmed
  {
    var x, y := o.sendQueue[0], o.sendQueue[1];
    var o1 := CommuteState(CommuteState(o, DOWN, true), UP, true);
    assert o1.pending == [x, x];
    var o2 := Step(o1, EvReport(0, true, true));
    assert o2.pending == [x, y] && o2.sendQueue == o.sendQueue[1..];
    var o3 := Step(o2, EvReport(0, true, false));
    assert o3.pending == [y] && o3.completed == (o.completed + [x]) + [y];
    var o4 := Step(o3, EvReport(0, false, true));
    assert o4.confirmed == (o.confirmed + [x]) + [x];
    assert o4.sendQueue == o.sendQueue[2..];
    hide Step, CommuteState;
    SecondIsOnlyOnce(o.completed, o.sendQueue);
  }

  lemma SecondIsOnlyOnce(a: seq<Packet>, queue: seq<Packet>)
    requires Increasing(a + queue) && |queue| >= 2
    ensures queue[1] != queue[0] && queue[1] !in a && queue[1] !in queue[2..]
  {
    var s := a + queue;
    assert s[|a|] == queue[0] && s[|a| + 1] == queue[1];
    assert forall k :: 0 <= k < |a| ==> s[k] == a[k];
    assert forall k :: 0 <= k < |queue[2..]| ==> s[|a| + 2 + k] == queue[2..][k];
  }

  /** While the link is up, the front packet is under way. */
  ghost predicate Flowing(o: Opp) {
    o.state == UP && o.sendQueue != [] ==> o.pending != []
  }

  /** What stops the queue of a link that is up: a failed transmission, or a packet that is
      due and for which no buffer can be allocated. */
  ghost predicate Stops(o: Opp, e: Event) {
    match e
    case EvCommute(newState, canAllocate) =>
      newState == UP && !canAllocate && o.sendQueue != [] && o.pending == []
    case EvSend(_, canAllocate) => o.state == UP && !canAllocate && o.sendQueue == []
    case EvRemove(_) => false
    case EvReport(which, succeeded, canAllocate) =>
      o.state == UP && which < |o.pending| && (!succeeded || (!canAllocate && |o.sendQueue| > 1))
  }

  lemma StopsExactly(o: Opp, e: Event)
    requires InStep(o) && Conserved(o) && Flowing(o)
    ensures Flowing(Step(o, e)) <==> !Stops(o, e)
  {
    hide Conserved, FirstWithNonce;
  }

  /** A failed transmission leaves the queue waiting: sending more packets does not start it
      again, only bringing the link up does. */
  lemma {:induction false} FailureWaitsForLinkUp(o: Opp, events: seq<Event>)
    requires o.sendQueue != [] && o.pending == []
    requires forall e :: e in events ==> e.EvSend?
    ensures var r := Run(o, events);
            r.pending == [] && r.completed == o.completed && o.sendQueue <= r.sendQueue
    decreases |events|
  {
    if events != [] {
      assert events[0] in events;
      FailureWaitsForLinkUp(Step(o, events[0]), events[1..]);
    }
  }

  // ---------------------------------------------------------------------
  // The transport object
  // ---------------------------------------------------------------------

  class OppTransport {
    var state: TransportState
    var sendQueue: seq<Packet>
    var attempted: seq<Packet>
    var pending: seq<Packet>
    var accepted: seq<Packet>
    var completed: seq<Packet>
    var removed: seq<Packet>
    var confirmed: seq<Packet>
    var faults: nat

    function View(): Opp
      reads this
    {
      Opp(state, sendQueue, attempted, pending, accepted, completed, removed, confirmed, faults)
    }

    constructor ()
      ensures View() == OPP_INITIAL && Conserved(View())
    {
      state := DOWN;
      sendQueue, attempted, pending := [], [], [];
      accepted, completed, removed, confirmed, faults := [], [], [], [], 0;
    }

    method Send(canAllocate: bool)
      modifies this
      ensures View() == SendNextPacket(old(View()), canAllocate)
    {
      if sendQueue != [] {
        if state == UP && canAllocate {
          attempted := attempted + [sendQueue[0]];
          pending := pending + [sendQueue[0]];
        }
      }
    }

    method Commute(newState: TransportState, canAllocate: bool)
      requires Conserved(View())
      modifies this
      ensures Conserved(View()) && View() == CommuteState(old(View()), newState, canAllocate)
    {
      StepConserves(View(), EvCommute(newState, canAllocate));
      hide Conserved;
      state := newState;
      if newState == UP {
        Send(canAllocate);
      }
    }

    /** std::find_if over the queue. */
    method Find(nonce: nat) returns (it: nat)
      ensures it == FirstWithNonce(sendQueue, nonce)
    {
      it := 0;
      assert sendQueue[0..] == sendQueue;
      while it < |sendQueue|
        invariant it <= |sendQueue|
        invariant FirstWithNonce(sendQueue, nonce) == it + FirstWithNonce(sendQueue[it..], nonce)
      {
        assert sendQueue[it..][1..] == sendQueue[it + 1..];
        if Carries(sendQueue[it], nonce) {
          return;
        }
        it := it + 1;
      }
    }

    method Remove(nonce: nat)
      requires Conserved(View())
      modifies this
      ensures Conserved(View()) && View() == RemovePacket(old(View()), nonce)
    {
      RemoveConserves(View(), nonce);
      hide Conserved, FirstWithNonce, Carries;
      var it := Find(nonce);
      if it != |sendQueue| {
        removed := removed + [sendQueue[it]];
        sendQueue := sendQueue[..it] + sendQueue[it + 1..];
      }
    }

    /** The report may answer no transmission; the queue is popped all the same. pop_front on
        an empty queue is undefined and counted as a fault. */
    method SendComplete(which: nat, succeeded: bool, canAllocate: bool)
      modifies this
      ensures View() == Step(old(View()), EvReport(which, succeeded, canAllocate))
      ensures old(Conserved(View())) ==> (Conserved(View()) <==> !(succeeded && old(sendQueue) == []))
    {
      ghost var before := View();
      if Conserved(before) {
        StepConserves(before, EvReport(which, succeeded, canAllocate));
      }
      hide Conserved;
      if which < |pending| {
        if succeeded {
          confirmed := confirmed + [pending[which]];
        }
        pending := pending[..which] + pending[which + 1..];
      }
      if succeeded {
        Pop();
        Send(canAllocate);
      }
    }

    method Pop()
      modifies this`sendQueue, this`completed, this`faults
      ensures View() == PopFront(old(View()))
    {
      if sendQueue == [] {
        faults := faults + 1;
      } else {
        completed := completed + [sendQueue[0]];
        sendQueue := sendQueue[1..];
      }
    }

    method DoSendPacket(payload: Payload, canAllocate: bool)
      requires Conserved(View())
      modifies this
      ensures Conserved(View()) && View() == DoSend(old(View()), payload, canAllocate)
    {
      StepConserves(View(), EvSend(payload, canAllocate));
      hide Conserved;
      var packet := Packet(|accepted|, payload);
      accepted := accepted + [packet];
      sendQueue := sendQueue + [packet];
      if state == UP && |sendQueue| == 1 {
        Send(canAllocate);
      }
    }
  }
}
