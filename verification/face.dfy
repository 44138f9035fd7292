/** Face::Impl as an object: tables, posted tasks and the transport are updated in place. */
module Face {
  import opened TransportLink
  import opened FaceModel
  import opened FaceProperties

  class FaceImpl {
    var pendingInterestTable: seq<Entry>
    var registeredPrefixTable: seq<nat>
    var transport: Link

    // The io_service: posted tasks, the scheduler's timers, and what has happened so far.
    var posted: seq<Task>
    var timers: set<nat>
    var nextId: nat
    var settled: seq<Settled>
    var calls: seq<Settled>
    var lost: bool
    var faults: nat

    function State(): FaceModel.Face
      reads this
    {
      FaceModel.Face(pendingInterestTable, nextId, timers, settled, calls, registeredPrefixTable, posted,
                     transport, lost, faults)
    }

    constructor ()
      ensures State() == FACE_INITIAL && FaceInv(State())
    {
      pendingInterestTable, registeredPrefixTable, posted, settled, calls := [], [], [], [], [];
      transport, timers, nextId, lost, faults := LINK_INITIAL, {}, 0, false, 0;
      new;
      InitialInv();
    }

    method EnsureConnected(wantResume: bool)
      modifies this
      ensures wantResume ==> State() == FaceModel.EnsureConnected(old(State()))
      ensures !wantResume ==>
                var l := old(transport);
                State() == old(State()).(link := if l.connected then l else Connect(l), lost := false)
    {
      if !transport.connected {
        transport := Connect(transport);
      }
      if wantResume && !transport.receiving {
        transport := Resume(transport);
      }
      lost := false;
    }

    method AsyncExpressInterest(interest: Interest)
      modifies this
      ensures State() == ExpressInterest(old(State()), interest)
    {
      EnsureConnected(true);
      pendingInterestTable := pendingInterestTable + [Entry(nextId, interest)];
      timers := timers + {nextId};
      nextId := nextId + 1;
      transport := Send(transport, []);
    }

    method AsyncSend()
      modifies this
      ensures State() == PutPacket(old(State()))
    {
      EnsureConnected(true);
      transport := Send(transport, []);
    }

    method Erase(item: nat)
      requires item < |pendingInterestTable|
      modifies this
      ensures State() == ErasePending(old(State()), item)
    {
      pendingInterestTable := EraseAt(pendingInterestTable, item);
      if pendingInterestTable == [] {
        posted := posted + [PauseCheck];
      }
    }

    method AsyncRemovePendingInterest(id: nat)
      modifies this
      ensures State() == RemovePending(old(State()), id)
    {
      var i := IndexOf(pendingInterestTable, id);
      if i < |pendingInterestTable| {
        pendingInterestTable := EraseAt(pendingInterestTable, i);
        timers := timers - {id};
        settled := settled + [Settled(id, Removed)];
      }
      if pendingInterestTable == [] {
        posted := posted + [PauseCheck];
      }
    }

    method AsyncRemoveAllPendingInterests()
      modifies this
      ensures State() == RemoveAllPending(old(State()))
    {
      ghost var before := State();
      while pendingInterestTable != []
        invariant RemoveFrom(State()) == RemoveFrom(before)
        decreases |pendingInterestTable|
      {
        var id := pendingInterestTable[0].id;
        pendingInterestTable := pendingInterestTable[1..];
        timers := timers - {id};
        settled := settled + [Settled(id, Removed)];
      }
      posted := posted + [PauseCheck];
    }

    method AsyncRegistered(prefix: nat)
      modifies this
      ensures State() == AfterPrefixRegistered(old(State()), prefix)
    {
      registeredPrefixTable := registeredPrefixTable + [prefix];
    }

    /** The record may already have been erased; then the erasure is counted as a fault. */
    method FinalizeUnregister(prefix: nat)
      modifies this
      ensures State() == FinalizeUnregisterPrefix(old(State()), prefix)
    {
      var i := IndexOfPrefix(registeredPrefixTable, prefix);
      if i < |registeredPrefixTable| {
        registeredPrefixTable := EraseAt(registeredPrefixTable, i);
        if registeredPrefixTable == [] {
          posted := posted + [PauseCheck];
        }
      } else {
        faults := faults + 1;
      }
    }

    method AsyncUnregisterPrefix(prefix: nat, command: Interest)
      modifies this
      ensures State() == UnregisterPrefix(old(State()), prefix, command)
    {
      if IndexOfPrefix(registeredPrefixTable, prefix) < |registeredPrefixTable| {
        AsyncExpressInterest(command);
      }
    }

    method OnEmptyPitOrNoPrefixes()
      modifies this
      ensures State() == OnEmptyPitOrNoRegisteredPrefixes(old(State()))
    {
      if pendingInterestTable == [] && registeredPrefixTable == [] {
        transport := Pause(transport);
      }
    }

    /** What a callback does to the Face. */
    method RunCallback(id: nat, callback: Callback, fate: Fate)
      modifies this
      ensures State() == Invoke(old(State()), id, callback, fate)
    {
      if callback.NoCallback? {
        return;
      }
      calls := calls + [Settled(id, fate)];
      ghost var before := State();
      var actions := callback.actions;
      assert actions[0..] == actions;
      for k := 0 to |actions|
        invariant Play(State(), actions[k..]) == Play(before, actions)
      {
        assert actions[k..][1..] == actions[k + 1..];
        match actions[k]
        case Express(i) => AsyncExpressInterest(i);
        case Put => AsyncSend();
        case Registered(prefix) => AsyncRegistered(prefix);
        case Unregistered(prefix) => FinalizeUnregister(prefix);
        case Post(t) => posted := posted + [t];
      }
    }

    method SatisfyPendingInterests(matchesData: Interest -> bool)
      modifies this
      ensures State() == Deliver(old(State()), 0, matchesData, Satisfied)
    {
      hide ErasePending, Invoke, Load;
      ghost var before := State();
      var entry, atEnd := 0, pendingInterestTable == [];
      while !atEnd
        invariant if atEnd then State() == Deliver(before, 0, matchesData, Satisfied)
                  else entry < |pendingInterestTable|
                       && Deliver(State(), entry, matchesData, Satisfied) == Deliver(before, 0, matchesData, Satisfied)
        decreases !atEnd, if atEnd then 0 else Load(pendingInterestTable[entry..])
      {
        if matchesData(pendingInterestTable[entry].interest) {
          DeliverToShrinks(State(), entry, Satisfied);
          var matchedEntry := pendingInterestTable[entry];
          atEnd := entry + 1 == |pendingInterestTable|;
          DeliverToSplit(State(), entry, Satisfied);
          Erase(entry);
          settled := settled + [Settled(matchedEntry.id, Satisfied)];
          RunCallback(matchedEntry.id, matchedEntry.interest.onData, Satisfied);
          timers := timers - {matchedEntry.id};
        } else {
          LoadDrops(pendingInterestTable[entry..]);
          assert pendingInterestTable[entry..][1..] == pendingInterestTable[entry + 1..];
          entry := entry + 1;
          atEnd := entry == |pendingInterestTable|;
        }
      }
    }

    method NackPendingInterests(matchesInterest: Interest -> bool)
      modifies this
      ensures State() == Deliver(old(State()), 0, matchesInterest, Nacked)
    {
      hide ErasePending, Invoke, Load;
      ghost var before := State();
      var entry, atEnd := 0, pendingInterestTable == [];
      while !atEnd
        invariant if atEnd then State() == Deliver(before, 0, matchesInterest, Nacked)
                  else entry < |pendingInterestTable|
                       && Deliver(State(), entry, matchesInterest, Nacked) == Deliver(before, 0, matchesInterest, Nacked)
        decreases !atEnd, if atEnd then 0 else Load(pendingInterestTable[entry..])
      {
        if matchesInterest(pendingInterestTable[entry].interest) {
          DeliverToShrinks(State(), entry, Nacked);
          var matchedEntry := pendingInterestTable[entry];
          atEnd := entry + 1 == |pendingInterestTable|;
          DeliverToSplit(State(), entry, Nacked);
          Erase(entry);
          settled := settled + [Settled(matchedEntry.id, Nacked)];
          RunCallback(matchedEntry.id, matchedEntry.interest.onNack, Nacked);
          timers := timers - {matchedEntry.id};
        } else {
          LoadDrops(pendingInterestTable[entry..]);
          assert pendingInterestTable[entry..][1..] == pendingInterestTable[entry + 1..];
          entry := entry + 1;
          atEnd := entry == |pendingInterestTable|;
        }
      }
    }

    lemma DeliverToSplit(s: FaceModel.Face, pos: nat, fate: Fate)
      requires pos < |s.pit|
      ensures pos + 1 < |s.pit| ==> pos < |DeliverTo(s, pos, fate).pit|
    {
      hide DeliverTo;
      DeliverToShape(s, pos, fate);
    }

    method InvokeTimeoutCallback(id: nat)
      requires FaceInv(State()) && id in timers
      modifies this
      ensures State() == Timeout(old(State()), id) && FaceInv(State())
    {
      hide FaceInv, Invoke;
      TimeoutKeeps(State(), id);
      var i := IndexOf(pendingInterestTable, id);
      if i < |pendingInterestTable| {
        timers := timers - {id};
        settled := settled + [Settled(id, TimedOut)];
        RunCallback(id, pendingInterestTable[i].interest.onTimeout, TimedOut);
        var j := IndexOf(pendingInterestTable, id);
        if j < |pendingInterestTable| {
          Erase(j);
        }
      }
    }

    method RunPosted()
      requires FaceInv(State()) && posted != []
      modifies this
      ensures State() == RunTask(old(State())) && FaceInv(State())
    {
      hide FaceInv;
      RunTaskKeeps(State());
      var task := posted[0];
      posted := posted[1..];
      match task
      case PauseCheck => OnEmptyPitOrNoPrefixes();
      case RemoveOne(id) => AsyncRemovePendingInterest(id);
      case RemoveAll => AsyncRemoveAllPendingInterests();
      case Unregister(prefix, command) => AsyncUnregisterPrefix(prefix, command);
    }
  }
}
