/** The Dispatcher object and the Face loop that invokes the handlers of its filters. */
module Dispatcher {
  import opened DispatcherModel
  import opened DispatcherProperties
  import DR = DispatcherRegistrations

  class MgmtDispatcher {
    var topLevelPrefixes: map<Name, TopPrefixEntry>
    var handlers: map<Name, HandlerKind>
    var streams: map<Name, nat>

    // The Face: operations posted to it, its tables, and the notifications it was given.
    var nextFilter: nat
    var nextRegistration: nat
    var face: FaceTables
    var posted: seq<FaceOp>
    var sent: seq<Notification>

    function State(): DispatcherModel.Dispatcher
      reads this
    {
      DispatcherModel.Dispatcher(topLevelPrefixes, handlers, streams, nextFilter, nextRegistration, face, posted, sent)
    }

    ghost predicate Valid()
      reads this
    {
      Inv(State()) && Numbered(State()) && DR.RegInv(State())
    }

    constructor ()
      ensures Valid() && State() == DISPATCHER_INITIAL
    {
      topLevelPrefixes, handlers, streams := map[], map[], map[];
      nextFilter, nextRegistration := 0, 0;
      face, posted, sent := FaceTables([], map[], map[], {}, []), [], [];
      new;
      InitialInv();
      DR.InitialRegistrations();
    }

    method IsOverlappedWithOthers(relPrefix: Name) returns (overlap: bool)
      ensures overlap <==> OverlapsOthers(State(), relPrefix)
    {
      var hasOverlapWithHandlers := exists h :: h in handlers && Overlap(h, relPrefix);
      var hasOverlapWithStreams := exists s :: s in streams && Overlap(s, relPrefix);
      overlap := hasOverlapWithHandlers || hasOverlapWithStreams;
    }

    /** addControlCommand, addStatusDataset and addNotificationStream. */
    method Add(relPrefix: Name, kind: HandlerKind) returns (reply: Reply)
      requires Valid()
      modifies this
      ensures Valid()
      ensures reply == HandlerReply(old(State()), relPrefix)
      ensures State() == AddHandler(old(State()), relPrefix, kind)
      ensures handlers == if reply == Accepted then old(handlers)[relPrefix := kind] else old(handlers)
    {
      hide Inv, Numbered, DR.RegInv;
      StepKeepsInv(State(), EvAddHandler(relPrefix, kind));
      StepKeepsNumbered(State(), EvAddHandler(relPrefix, kind));
      DR.StepKeepsRegistrations(State(), EvAddHandler(relPrefix, kind));
      if topLevelPrefixes != map[] {
        return DomainError;
      }
      var overlap := IsOverlappedWithOthers(relPrefix);
      if overlap {
        return OutOfRange;
      }
      handlers := handlers[relPrefix := kind];
      if kind.NotificationStream? {
        streams := streams[relPrefix := 0];
      }
      return Accepted;
    }

    method SetInterestFilter(prefix: Name, rel: Name)
      requires prefix in topLevelPrefixes
      modifies this
      ensures State() == AddFilter(old(State()), prefix, rel)
    {
      var entry := topLevelPrefixes[prefix];
      posted := posted + [SetFilter(Filter(nextFilter, prefix, rel))];
      topLevelPrefixes := topLevelPrefixes[prefix := entry.(interestFilters := entry.interestFilters + [nextFilter])];
      nextFilter := nextFilter + 1;
    }

    /** The handlers are visited in an order the map chooses. */
    method AddTopPrefix(prefix: Name, wantRegister: bool) returns (reply: Reply, ghost order: seq<Name>)
      requires Valid()
      modifies this
      ensures Valid() && Enumerates(order, old(handlers.Keys))
      ensures reply == if TopOverlaps(old(State()), prefix) then OutOfRange else Accepted
      ensures State() == DispatcherModel.AddTopPrefix(old(State()), prefix, wantRegister, order)
    {
      hide Inv, Numbered, DR.RegInv, AddFilter;
      var hasOverlap := exists t :: t in topLevelPrefixes && Overlap(t, prefix);
      if hasOverlap {
        order := AnyOrder(handlers.Keys);
        return OutOfRange, order;
      }
      ghost var before := State();
      topLevelPrefixes := topLevelPrefixes[prefix := TopPrefixEntry(prefix, wantRegister, nextRegistration, [])];
      if wantRegister {
        face := StartRegistration(face, nextRegistration, prefix);
        nextRegistration := nextRegistration + 1;
      }
      ghost var started := State();
      var todo := handlers.Keys;
      order := [];
      while todo != {}
        invariant prefix in topLevelPrefixes && handlers == before.handlers && todo <= handlers.Keys
        invariant Enumerates(order, handlers.Keys - todo)
        invariant State() == AddFilters(started, prefix, order)
        decreases todo
      {
        var rel :| rel in todo;
        AddFiltersSnoc(started, prefix, order, rel);
        order := order + [rel];
        SetInterestFilter(prefix, rel);
        todo := todo - {rel};
      }
      assert handlers.Keys - {} == handlers.Keys;
      StepKeepsInv(before, EvAddTop(prefix, wantRegister, order));
      StepKeepsNumbered(before, EvAddTop(prefix, wantRegister, order));
      DR.StepKeepsRegistrations(before, EvAddTop(prefix, wantRegister, order));
      return Accepted, order;
    }

    method RemoveTopPrefix(prefix: Name)
      requires Valid()
      modifies this
      ensures Valid() && State() == DispatcherModel.RemoveTopPrefix(old(State()), prefix)
    {
      hide Inv, Numbered, DR.RegInv;
      StepKeepsInv(State(), EvRemoveTop(prefix));
      StepKeepsNumbered(State(), EvRemoveTop(prefix));
      DR.StepKeepsRegistrations(State(), EvRemoveTop(prefix));
      if prefix !in topLevelPrefixes {
        return;
      }
      var entry := topLevelPrefixes[prefix];
      if entry.wantRegister {
        posted := posted + [UnregisterPrefix(entry.registerPrefixId)];
      }
      ghost var before := State();
      var ids := entry.interestFilters;
      assert ids[0..] == ids;
      for k := 0 to |ids|
        invariant UnsetFilters(State(), ids[k..]) == UnsetFilters(before, ids)
        invariant topLevelPrefixes == before.tops
      {
        assert ids[k..][1..] == ids[k + 1..];
        posted := posted + [UnsetFilter(ids[k])];
      }
      topLevelPrefixes := topLevelPrefixes - {prefix};
    }

    /** The destructor: afterwards every registration ever asked for has its request to
        unregister posted or run. */
    method Destroy()
      requires Valid()
      modifies this
      ensures Valid() && topLevelPrefixes == map[]
      ensures Drained(State()).filters == []
      ensures forall id :: 0 <= id < nextRegistration ==>
                id in DR.Undoing(posted) || UnregisterRan(id) in face.log
    {
      hide Inv, Numbered, DR.RegInv, Drained;
      while topLevelPrefixes != map[]
        invariant Valid()
        decreases topLevelPrefixes.Keys
      {
        var name :| name in topLevelPrefixes;
        RemoveTopKeepsInv(State(), name);
        RemoveTopPrefix(name);
      }
      EmptyBooks(State());
      DR.DestructorUnregistersAll(State(), []);
    }

    method PostNotification(relPrefix: Name)
      requires Valid()
      modifies this
      ensures Valid()
      ensures |old(topLevelPrefixes)| != 1 ==> State() == old(State())
      ensures |old(topLevelPrefixes)| == 1 ==>
                exists top :: top in old(topLevelPrefixes) && State() == SendNotification(old(State()), top, relPrefix)
    {
      hide Inv, Numbered, DR.RegInv;
      if |topLevelPrefixes| == 0 || |topLevelPrefixes| > 1 {
        return;
      }
      assert topLevelPrefixes.Keys != {};
      var top :| top in topLevelPrefixes;
      StepKeepsInv(State(), EvNotify(top, relPrefix));
      StepKeepsNumbered(State(), EvNotify(top, relPrefix));
      DR.StepKeepsRegistrations(State(), EvNotify(top, relPrefix));
      var stream := topLevelPrefixes[top].topPrefix + relPrefix;
      var number := if stream in streams then streams[stream] else 0;
      streams := streams[stream := (number + 1) % SEQUENCE_NUMBERS];
      sent := sent + [Notification(stream, number)];
    }

    /** The Face runs the oldest posted operation. */
    method FaceRuns()
      requires Valid() && posted != []
      modifies this
      ensures Valid() && State() == RunPosted(old(State()))
    {
      hide Inv, Numbered, DR.RegInv;
      StepKeepsInv(State(), EvFaceRuns);
      StepKeepsNumbered(State(), EvFaceRuns);
      DR.StepKeepsRegistrations(State(), EvFaceRuns);
      face := ApplyOp(face, posted[0]);
      posted := posted[1..];
    }

    /** The response to a register command: afterPrefixRegistered, or an exception. */
    method AfterRegisterReply(id: nat, ok: bool) returns (thrown: bool)
      requires Valid() && id in face.registering
      modifies this
      ensures Valid() && State() == Step(old(State()), EvRegisterReply(id, ok))
      ensures thrown <==> !ok
    {
      hide Inv, Numbered, DR.RegInv;
      StepKeepsInv(State(), EvRegisterReply(id, ok));
      StepKeepsNumbered(State(), EvRegisterReply(id, ok));
      DR.StepKeepsRegistrations(State(), EvRegisterReply(id, ok));
      face := RegisterReply(face, id, ok);
      return !ok;
    }

    /** The response to an unregister command: finalizeUnregisterPrefix, or nothing. */
    method AfterUnregisterReply(id: nat, ok: bool)
      requires Valid() && id in face.unregistering
      modifies this
      ensures Valid() && State() == Step(old(State()), EvUnregisterReply(id, ok))
    {
      hide Inv, Numbered, DR.RegInv;
      StepKeepsInv(State(), EvUnregisterReply(id, ok));
      StepKeepsNumbered(State(), EvUnregisterReply(id, ok));
      DR.StepKeepsRegistrations(State(), EvUnregisterReply(id, ok));
      face := UnregisterReply(face, id, ok);
    }

    /** Face::Impl::processInterestFilters: at most one handler is invoked. */
    method ProcessInterestFilters(name: Name) returns (invoked: seq<Filter>)
      requires Valid()
      ensures invoked == Matching(face.filters, name) && |invoked| <= 1
    {
      hide Inv, Numbered, DR.RegInv, Unique, DispatcherModel.Filter.Matches;
      invoked := [];
      var table := face.filters;
      NowUnique(State());
      UniqueMatchesOnce(table, name);
      assert table[0..] == table;
      for k := 0 to |table|
        invariant invoked + Matching(table[k..], name) == Matching(table, name)
      {
        MatchingFrom(table, k, name, invoked);
        if table[k].Matches(name) {
          invoked := invoked + [table[k]];
        }
      }
    }
  }

  lemma NowUnique(d: DispatcherModel.Dispatcher)
    requires Inv(d)
    ensures Unique(d.face.filters)
  {
    hide Unique;
    NowIsUnique(d.face, d.posted);
  }

  lemma MatchingFrom(table: seq<Filter>, k: nat, name: Name, invoked: seq<Filter>)
    requires k < |table|
    ensures invoked + Matching(table[k..], name) ==
              (if table[k].Matches(name) then invoked + [table[k]] else invoked) + Matching(table[k + 1..], name)
  {
    assert table[k..][1..] == table[k + 1..];
  }

  lemma {:induction false} AddFiltersSnoc(d: DispatcherModel.Dispatcher, prefix: Name, order: seq<Name>, rel: Name)
    requires prefix in d.tops
    ensures prefix in AddFilters(d, prefix, order).tops
    ensures AddFilters(d, prefix, order + [rel]) == AddFilter(AddFilters(d, prefix, order), prefix, rel)
    ensures var r := AddFilters(d, prefix, order + [rel]); prefix in r.tops && r.handlers == d.handlers
    decreases |order|
  {
    if order == [] {
      assert [rel][1..] == [];
    } else {
      AddFiltersSnoc(AddFilter(d, prefix, order[0]), prefix, order[1..], rel);
      assert (order + [rel])[1..] == order[1..] + [rel];
    }
  }

  lemma {:induction false} AnyOrder(names: set<Name>) returns (order: seq<Name>)
    ensures Enumerates(order, names)
  {
    if names == {} {
      order := [];
    } else {
      var n :| n in names;
      order := AnyOrder(names - {n});
      order := order + [n];
    }
  }
}
