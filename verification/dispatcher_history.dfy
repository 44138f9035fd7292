/** What the calls of a run say about the Dispatcher: which top prefixes and handlers it has,
    what it answers, whom it dispatches to, what it sends and what it asks the Face for. */
module DispatcherHistory {
  import opened DispatcherModel
  import opened DispatcherProperties
  import DR = DispatcherRegistrations

  // ---------------------------------------------------------------------
  // The calls
  // ---------------------------------------------------------------------

  /** What one would note down from the calls alone: the top prefixes and whether they were to
      be registered, the handlers, the names that have a counter, the streams of the
      notifications in order, and how many registrations were asked for. */
  datatype Notes = Notes(
    tops: map<Name, bool>,
    handlers: map<Name, HandlerKind>,
    counters: set<Name>,
    sent: seq<Name>,
    asked: nat)

  const NO_NOTES := Notes(map[], map[], {}, [], 0)

  /** No name here is a prefix of the new one, or the other way round. */
  ghost predicate Free(name: Name, names: set<Name>) {
    forall n <- names :: !(n <= name) && !(name <= n)
  }

  ghost function Noted(s: Notes, e: Event): Notes {
    match e
    case EvAddHandler(rel, kind) =>
      if s.tops == map[] && Free(rel, s.handlers.Keys) && Free(rel, s.counters) then
        s.(handlers := s.handlers[rel := kind],
        counters := if kind == NotificationStream then s.counters + {rel} else s.counters)
      else s
    case EvAddTop(prefix, wantRegister, _) =>
      if Free(prefix, s.tops.Keys) then
        s.(tops := s.tops[prefix := wantRegister], asked := if wantRegister then s.asked + 1 else s.asked)
      else s
    case EvRemoveTop(prefix) => s.(tops := s.tops - {prefix})
    case EvNotify(top, rel) =>
      if s.tops.Keys == {top} then s.(counters := s.counters + {top + rel}, sent := s.sent + [top + rel]) else s
    case _ => s
  }

  ghost function NotedAll(s: Notes, events: seq<Event>): Notes
    decreases |events|
  {
    if events == [] then s else NotedAll(Noted(s, events[0]), events[1..])
  }

  ghost predicate SameTops(d: Dispatcher, tops: map<Name, bool>) {
    d.tops.Keys == tops.Keys && forall p :: p in tops ==> d.tops[p].wantRegister == tops[p]
  }

  ghost predicate SameSent(d: Dispatcher, sent: seq<Name>) {
    |d.sent| == |sent| && forall i :: 0 <= i < |sent| ==> d.sent[i].stream == sent[i]
  }

  ghost predicate Agrees(d: Dispatcher, s: Notes) {
    && SameTops(d, s.tops) && d.handlers == s.handlers && d.streams.Keys == s.counters
    && SameSent(d, s.sent) && d.nextRegistration == s.asked
  }

  // ---------------------------------------------------------------------
  // Every step does what its call says
  // ---------------------------------------------------------------------

  /** What setting and unsetting filters leaves alone. */
  ghost predicate SameBut(d: Dispatcher, r: Dispatcher) {
    && r.tops.Keys == d.tops.Keys && (forall p :: p in d.tops ==> r.tops[p].wantRegister == d.tops[p].wantRegister)
    && r.handlers == d.handlers && r.streams == d.streams && r.sent == d.sent
    && r.nextRegistration == d.nextRegistration && r.face == d.face
  }

  lemma {:induction false} AddFiltersSame(d: Dispatcher, prefix: Name, order: seq<Name>)
    requires prefix in d.tops
    ensures SameBut(d, AddFilters(d, prefix, order))
    decreases |order|
  {
    if order != [] {
      assert SameBut(d, AddFilter(d, prefix, order[0]));
      hide AddFilter;
      AddFiltersSame(AddFilter(d, prefix, order[0]), prefix, order[1..]);
    }
  }

  lemma {:induction false} UnsetFiltersSame(d: Dispatcher, ids: seq<nat>)
    ensures SameBut(d, UnsetFilters(d, ids))
    decreases |ids|
  {
    if ids != [] {
      UnsetFiltersSame(PostOp(d, UnsetFilter(ids[0])), ids[1..]);
    }
  }

  lemma TopIsFree(d: Dispatcher, prefix: Name)
    ensures TopOverlaps(d, prefix) <==> !Free(prefix, d.tops.Keys)
  {
  }

  lemma RelIsFree(d: Dispatcher, rel: Name)
    ensures OverlapsOthers(d, rel) <==> !Free(rel, d.handlers.Keys) || !Free(rel, d.streams.Keys)
  {
  }

  lemma AddTopAgrees(d: Dispatcher, s: Notes, prefix: Name, wantRegister: bool, order: seq<Name>)
    requires Agrees(d, s)
    ensures Agrees(AddTopPrefix(d, prefix, wantRegister, order), Noted(s, EvAddTop(prefix, wantRegister, order)))
  {
    hide AddFilters, TopOverlaps, Free;
    TopIsFree(d, prefix);
    if !TopOverlaps(d, prefix) {
      var d1 := StartTop(d, prefix, wantRegister);
      assert Agrees(d1, Noted(s, EvAddTop(prefix, wantRegister, order)));
      hide StartTop;
      AddFiltersSame(d1, prefix, order);
    }
  }

  lemma RemoveTopAgrees(d: Dispatcher, s: Notes, prefix: Name)
    requires Agrees(d, s)
    ensures Agrees(RemoveTopPrefix(d, prefix), Noted(s, EvRemoveTop(prefix)))
  {
    if prefix in d.tops {
      var entry := d.tops[prefix];
      var d1 := if entry.wantRegister then PostOp(d, UnregisterPrefix(entry.registerPrefixId)) else d;
      UnsetFiltersSame(d1, entry.interestFilters);
      hide UnsetFilters;
    } else {
      assert s.tops - {prefix} == s.tops;
    }
  }

  lemma NotifyAgrees(d: Dispatcher, s: Notes, top: Name, rel: Name)
    requires Agrees(d, s) && PrefixesApart(d) && Enabled(d, EvNotify(top, rel))
    ensures Agrees(PostNotification(d, top, rel), Noted(s, EvNotify(top, rel)))
  {
    OnlyOne(d.tops, top);
    assert |d.tops| == |d.tops.Keys|;
    if |d.tops| == 1 {
      assert d.tops.Keys == {top};
      var stream := top + rel;
      assert SendNotification(d, top, rel).streams.Keys == d.streams.Keys + {stream};
    } else {
      assert d.tops.Keys != {top};
    }
  }

  lemma OnlyOne(tops: map<Name, TopPrefixEntry>, top: Name)
    requires |tops| == 1 ==> top in tops
    ensures |tops| == 1 <==> tops.Keys == {top}
  {
    assert |tops.Keys| == |tops|;
    if |tops| == 1 {
      var rest := tops.Keys - {top};
      assert |rest| == 0;
    }
  }

  lemma AddHandlerAgrees(d: Dispatcher, s: Notes, rel: Name, kind: HandlerKind)
    requires Agrees(d, s)
    ensures Agrees(AddHandler(d, rel, kind), Noted(s, EvAddHandler(rel, kind)))
  {
    hide OverlapsOthers, Free;
    RelIsFree(d, rel);
    assert d.tops == map[] <==> s.tops == map[] by {
      assert d.tops == map[] <==> d.tops.Keys == {};
      assert s.tops == map[] <==> s.tops.Keys == {};
    }
  }

  lemma StepAgrees(d: Dispatcher, s: Notes, e: Event)
    requires Agrees(d, s) && PrefixesApart(d) && Enabled(d, e)
    ensures Agrees(Step(d, e), Noted(s, e))
  {
    hide AddTopPrefix, RemoveTopPrefix, PostNotification, AddHandler, ApplyOp, RegisterReply, UnregisterReply;
    match e
    case EvAddHandler(rel, kind) => AddHandlerAgrees(d, s, rel, kind);
    case EvAddTop(prefix, wantRegister, order) => AddTopAgrees(d, s, prefix, wantRegister, order);
    case EvRemoveTop(prefix) => RemoveTopAgrees(d, s, prefix);
    case EvNotify(top, rel) => NotifyAgrees(d, s, top, rel);
    case EvFaceRuns =>
    case EvRegisterReply(_, _) =>
    case EvUnregisterReply(_, _) =>
  }

  lemma {:induction false} RunAgrees(d: Dispatcher, s: Notes, events: seq<Event>)
    requires Inv(d) && Agrees(d, s) && Possible(d, events)
    ensures Inv(Run(d, events)) && Agrees(Run(d, events), NotedAll(s, events))
    decreases |events|
  {
    hide Agrees, Noted, Step, Enabled, Owned, Complete, AlwaysUnique, PrefixesApart;
    if events != [] {
      StepAgrees(d, s, events[0]);
      StepKeepsInv(d, events[0]);
      RunAgrees(Step(d, events[0]), Noted(s, events[0]), events[1..]);
    }
  }

  // ---------------------------------------------------------------------
  // What a caller can rely on
  // ---------------------------------------------------------------------

  /** The tables, the numbers and the replies follow from the calls: a relative prefix is
      accepted exactly when there is no top prefix and none of its kind in the way, and a
      notification is sent exactly when there is one top prefix, under it. */
  lemma HistoryTells(events: seq<Event>, rel: Name, prefix: Name)
    requires Possible(DISPATCHER_INITIAL, events)
    ensures var d, s := Run(DISPATCHER_INITIAL, events), NotedAll(NO_NOTES, events);
            && SameTops(d, s.tops) && d.handlers == s.handlers && d.streams.Keys == s.counters
            && SameSent(d, s.sent) && d.nextRegistration == s.asked
            && HandlerReply(d, rel) == (if s.tops != map[] then DomainError
                                        else if Free(rel, s.handlers.Keys) && Free(rel, s.counters) then Accepted
                                        else OutOfRange)
            && (TopOverlaps(d, prefix) <==> !Free(prefix, s.tops.Keys))
  {
    InitialInv();
    assert Agrees(DISPATCHER_INITIAL, NO_NOTES);
    hide Run, NotedAll, Possible, Inv, Free, TopOverlaps, OverlapsOthers;
    RunAgrees(DISPATCHER_INITIAL, NO_NOTES, events);
    var d, s := Run(DISPATCHER_INITIAL, events), NotedAll(NO_NOTES, events);
    TopIsFree(d, prefix);
    RelIsFree(d, rel);
    assert d.tops == map[] <==> d.tops.Keys == {};
    assert s.tops == map[] <==> s.tops.Keys == {};
  }

  /** After any run, and once what is posted has run, an Interest invokes the handler of a
      relative prefix whose add was accepted, under a top prefix that was added and not
      removed, if its name goes on from the two; any other Interest invokes nothing. */
  lemma DispatchFromCalls(events: seq<Event>, name: Name, p: Name, h: Name)
    requires Possible(DISPATCHER_INITIAL, events)
    ensures var found := Matching(Drained(Run(DISPATCHER_INITIAL, events)).filters, name);
            var s := NotedAll(NO_NOTES, events);
            && (p in s.tops && h in s.handlers && p + h <= name ==>
                  |found| == 1 && found[0].top == p && found[0].rel == h)
            && (found == [] <==>
                forall p, h :: p in s.tops && h in s.handlers ==> !(p + h <= name))
  {
    HistoryTells(events, h, p);
    UniqueDispatch(events, name);
    InitialInv();
    RunKeepsInv(DISPATCHER_INITIAL, events);
    hide Run, NotedAll, Possible, Drained, Noted, Matching, Distinct, Complete, AlwaysUnique, PrefixesApart, HasFilter;
    var d, s := Run(DISPATCHER_INITIAL, events), NotedAll(NO_NOTES, events);
    var filters := Drained(d).filters;
    MatchingIs(filters, name);
    if Matching(filters, name) != [] {
      var f := Matching(filters, name)[0];
      assert f in Matching(filters, name);
      assert f.top in s.tops && f.rel in s.handlers && f.top + f.rel <= name;
    }
  }

  function Turns(n: nat): seq<Event> {
    seq(n, i => EvFaceRuns)
  }

  /** After as many turns of the Face as operations are posted, they have all run. */
  lemma {:induction false} FaceCatchesUp(d: Dispatcher)
    ensures Possible(d, Turns(|d.posted|))
    ensures Run(d, Turns(|d.posted|)) == d.(face := Drained(d), posted := [])
    decreases |d.posted|
  {
    if d.posted != [] {
      hide ApplyOp;
      var d' := Step(d, EvFaceRuns);
      FaceCatchesUp(d');
      assert Turns(|d.posted|)[1..] == Turns(|d'.posted|);
    }
  }

  /** What a step adds to the history of the registrations. */
  function Momentous(d: Dispatcher, e: Event): seq<Moment> {
    match e
    case EvAddTop(prefix, wantRegister, _) =>
      if wantRegister && !TopOverlaps(d, prefix) then [Started(d.nextRegistration)] else []
    case EvFaceRuns =>
      if d.posted != [] && d.posted[0].UnregisterPrefix? then [UnregisterRan(d.posted[0].id)] else []
    case EvRegisterReply(id, ok) =>
      if id !in d.face.registering then [] else if ok then [Granted(id)] else [Denied(id)]
    case EvUnregisterReply(id, ok) =>
      if id !in d.face.unregistering then [] else if ok then [Withdrawn(id)] else [Kept(id)]
    case _ => []
  }

  /** A top prefix that wants it has its registration started when it is added, requests to
      unregister have run when the Face has had their turn, and responses are taken in. */
  lemma StepRecords(d: Dispatcher, e: Event)
    ensures Step(d, e).face.log == d.face.log + Momentous(d, e)
  {
    match e
    case EvAddTop(prefix, wantRegister, order) =>
      hide TopOverlaps, AddFilters;
      if !TopOverlaps(d, prefix) {
        AddFiltersSame(StartTop(d, prefix, wantRegister), prefix, order);
      }
    case EvRemoveTop(prefix) =>
      hide UnsetFilters;
      if prefix in d.tops {
        var entry := d.tops[prefix];
        var d1 := if entry.wantRegister then PostOp(d, UnregisterPrefix(entry.registerPrefixId)) else d;
        UnsetFiltersSame(d1, entry.interestFilters);
      }
    case _ =>
  }
}
