/** What the events of a Face come to, said from the tables before the event and the fields
    of the Interests in them: whom Data and Nacks reach, what their callbacks leave behind,
    and what removals and timeouts take away. */
module FacePasses {
  import opened TransportLink
  import opened FaceModel
  import opened FaceProperties

  // ---------------------------------------------------------------------
  // Data and Nacks
  // ---------------------------------------------------------------------

  /** Interests in the table under the identities from n on. */
  function Entries(interests: seq<Interest>, n: nat): (r: seq<Entry>)
    ensures |r| == |interests|
  {
    seq(|interests|, k requires 0 <= k < |interests| => Entry(n + k, interests[k]))
  }

  /** Whom a pass over the entries of work reaches, in order, when n is the next identity. A
      matching one adds what its callback expresses to the end of the work, unless it is the
      last when its turn comes: then the pass is over. */
  ghost function Reached(work: seq<Entry>, n: nat, matches: Interest -> bool, pick: Interest -> Callback): seq<Entry>
    requires Lighter(pick)
    decreases Load(work)
  {
    if work == [] then []
    else if !matches(work[0].interest) then Reached(work[1..], n, matches, pick)
    else
      var added := Entries(ExpressedBy(pick(work[0].interest)), n);
      EntriesLighter(work, n, pick);
      [work[0]] + (if |work| == 1 then [] else Reached(work[1..] + added, n + |added|, matches, pick))
  }

  /** The entries that such a pass leaves. */
  ghost function Left(work: seq<Entry>, n: nat, matches: Interest -> bool, pick: Interest -> Callback): seq<Entry>
    requires Lighter(pick)
    decreases Load(work)
  {
    if work == [] then []
    else if !matches(work[0].interest) then [work[0]] + Left(work[1..], n, matches, pick)
    else
      var added := Entries(ExpressedBy(pick(work[0].interest)), n);
      EntriesLighter(work, n, pick);
      if |work| == 1 then added else Left(work[1..] + added, n + |added|, matches, pick)
  }

  lemma {:induction false} EntriesLoad(interests: seq<Interest>, n: nat)
    ensures Load(Entries(interests, n)) == WorkLoad(interests)
    decreases |interests|
  {
    hide Weight;
    if interests != [] {
      EntriesLoad(interests[1..], n + 1);
      assert Entries(interests, n)[1..] == Entries(interests[1..], n + 1);
    }
  }

  lemma ExpressedByLoad(c: Callback)
    ensures WorkLoad(ExpressedBy(c)) == CallbackWeight(c)
  {
    hide Expressed;
    if c.Script? {
      ExpressedLoad(c.actions);
    }
  }

  lemma EntriesLighter(work: seq<Entry>, n: nat, pick: Interest -> Callback)
    requires work != [] && Lighter(pick)
    ensures Load(work[1..] + Entries(ExpressedBy(pick(work[0].interest)), n)) < Load(work)
  {
    hide ExpressedBy, CallbackWeight, Weight;
    var c := pick(work[0].interest);
    LoadAppend(work[1..], Entries(ExpressedBy(c), n));
    EntriesLoad(ExpressedBy(c), n);
    ExpressedByLoad(c);
    assert CallbackWeight(c) < Weight(work[0].interest);
  }

  /** Everything the callbacks of these entries do, in order. */
  function ScriptsOf(reached: seq<Entry>, pick: Interest -> Callback): seq<Action> {
    if reached == [] then [] else ScriptOf(pick(reached[0].interest)) + ScriptsOf(reached[1..], pick)
  }

  function SettledAs(reached: seq<Entry>, fate: Fate): seq<Settled> {
    if reached == [] then [] else [Settled(reached[0].id, fate)] + SettledAs(reached[1..], fate)
  }

  /** The callbacks that were there to be invoked. */
  function Invoked(reached: seq<Entry>, fate: Fate, pick: Interest -> Callback): seq<Settled> {
    if reached == [] then []
    else
      (if pick(reached[0].interest).NoCallback? then [] else [Settled(reached[0].id, fate)])
      + Invoked(reached[1..], fate, pick)
  }

  // ---------------------------------------------------------------------
  // One script
  // ---------------------------------------------------------------------

  /** The timers of new Interests are set, and those of the ones that are gone are cancelled. */
  ghost predicate Timers(s: Face, gone: set<nat>, r: Face) {
    forall k :: k in r.timers <==> (k in s.timers || s.nextId <= k < r.nextId) && k !in gone
  }

  /** The table, the next identity and the timers after a script has expressed its Interests. */
  ghost predicate Grown(s: Face, interests: seq<Interest>, r: Face) {
    && r.pit == s.pit + Entries(interests, s.nextId)
    && r.nextId == s.nextId + |interests|
    && Timers(s, {}, r)
  }

  lemma ActGrows(s: Face, a: Action)
    ensures Grown(s, Expressed([a]), Act(s, a))
  {
    hide Grown, Connect, Resume, Send, IndexOfPrefix;
    assert [a][1..] == [] && Expressed([a]) == if a.Express? then [a.interest] else [];
    if a.Express? {
      ExpressGrows(s, a.interest);
    } else {
      GrownSame(s, Act(s, a));
    }
  }

  lemma ExpressGrows(s: Face, i: Interest)
    ensures Grown(s, [i], ExpressInterest(s, i))
  {
    hide Connect, Resume, Send;
  }

  lemma GrownSame(s: Face, r: Face)
    requires r.pit == s.pit && r.nextId == s.nextId && r.timers == s.timers
    ensures Grown(s, [], r)
  {
  }

  lemma GrownTwice(s: Face, a: seq<Interest>, t: Face, b: seq<Interest>, r: Face)
    requires Grown(s, a, t) && Grown(t, b, r)
    ensures Grown(s, a + b, r)
  {
    assert Entries(a + b, s.nextId) == Entries(a, s.nextId) + Entries(b, t.nextId);
  }

  lemma GrownNothing(s: Face)
    ensures Grown(s, [], s)
  {
  }

  lemma {:induction false} PlayGrows(s: Face, actions: seq<Action>)
    ensures Grown(s, Expressed(actions), Play(s, actions))
    decreases |actions|
  {
    hide Act, Grown;
    if actions == [] {
      GrownNothing(s);
    } else {
      var t := Act(s, actions[0]);
      ActGrows(s, actions[0]);
      PlayGrows(t, actions[1..]);
      assert Expressed([actions[0]]) + Expressed(actions[1..]) == Expressed(actions) by {
        assert [actions[0]][1..] == [];
      }
      GrownTwice(s, Expressed([actions[0]]), t, Expressed(actions[1..]), Play(s, actions));
    }
  }

  lemma InvokeGrows(s: Face, id: nat, c: Callback, fate: Fate)
    ensures Grown(s, ExpressedBy(c), Invoke(s, id, c, fate))
  {
    hide Play, Expressed, Grown;
    if c.Script? {
      var t := s.(calls := s.calls + [Settled(id, fate)]);
      PlayGrows(t, c.actions);
      GrownCalls(s, t.calls, Expressed(c.actions), Play(t, c.actions));
    } else {
      GrownNothing(s);
    }
  }

  lemma GrownCalls(s: Face, calls: seq<Settled>, interests: seq<Interest>, r: Face)
    requires Grown(s.(calls := calls), interests, r)
    ensures Grown(s, interests, r)
  {
  }

  // ---------------------------------------------------------------------
  // One round
  // ---------------------------------------------------------------------

  /** What one delivery of a packet that runs the picked callback does to the tables. */
  lemma RoundIs(s: Face, pos: nat, fate: Fate, pick: Interest -> Callback)
    requires pos < |s.pit| && Runs(fate, pick)
    ensures var r, e := DeliverTo(s, pos, fate), s.pit[pos];
            var added := Entries(ExpressedBy(pick(e.interest)), s.nextId);
            && r.pit == s.pit[..pos] + (s.pit[pos + 1..] + added)
            && r.nextId == s.nextId + |added|
            && r.settled == s.settled + SettledAs([e], fate)
            && r.calls == s.calls + Invoked([e], fate, pick)
            && Timers(s, {e.id}, r)
            && FootingOf(r) == ActAll(FootingOf(s), ScriptOf(pick(e.interest)))
  {
    hide Invoke, ExpressedBy, ScriptOf, ActAll, Weight, CallbackWeight, Load, ErasePending, CallbackOf;
    var e := s.pit[pos];
    assert pick(e.interest) == CallbackFor(e, fate);
    ErasedRest(s, pos);
    InvokeGrows(Settle(ErasePending(s, pos), e.id, fate), e.id, pick(e.interest), fate);
    DeliverToShape(s, pos, fate);
    DeliverToFooting(s, pos, fate);
    assert [e][1..] == [];
  }

  // ---------------------------------------------------------------------
  // A pass
  // ---------------------------------------------------------------------

  ghost predicate PassLeaves(s: Face, pos: nat, r: Face, matches: Interest -> bool, pick: Interest -> Callback)
    requires pos <= |s.pit| && Lighter(pick)
  {
    r.pit == s.pit[..pos] + Left(s.pit[pos..], s.nextId, matches, pick)
  }

  /** The table after a pass, entry by entry. */
  lemma {:induction false} PassTable(s: Face, pos: nat, matches: Interest -> bool, fate: Fate,
                                     pick: Interest -> Callback)
    requires pos <= |s.pit| && Runs(fate, pick)
    ensures PassLeaves(s, pos, Deliver(s, pos, matches, fate), matches, pick)
    decreases Load(s.pit[pos..])
  {
    hide DeliverTo, Load, ExpressedBy, FootingOf, ActAll, SettledAs, Invoked, ScriptOf;
    if pos < |s.pit| {
      var rest := s.pit[pos + 1..];
      assert s.pit[pos..][1..] == rest;
      if !matches(s.pit[pos].interest) {
        LoadDrops(s.pit[pos..]);
        PassTable(s, pos + 1, matches, fate, pick);
        assert s.pit[..pos + 1] == s.pit[..pos] + [s.pit[pos]];
      } else {
        RoundIs(s, pos, fate, pick);
        DeliverToShrinks(s, pos, fate);
        var r := DeliverTo(s, pos, fate);
        var added := Entries(ExpressedBy(pick(s.pit[pos].interest)), s.nextId);
        if pos + 1 < |s.pit| {
          assert r.pit[..pos] == s.pit[..pos] && r.pit[pos..] == rest + added;
          PassTable(r, pos, matches, fate, pick);
        } else {
          assert rest + added == added;
        }
      }
    }
  }

  ghost predicate PassTells(s: Face, reached: seq<Entry>, fate: Fate, pick: Interest -> Callback, r: Face) {
    && r.settled == s.settled + SettledAs(reached, fate)
    && r.calls == s.calls + Invoked(reached, fate, pick)
    && FootingOf(r) == ActAll(FootingOf(s), ScriptsOf(reached, pick))
    && s.nextId <= r.nextId
    && Timers(s, IdsOf(reached), r)
  }

  ghost function IdsOf(reached: seq<Entry>): set<nat> {
    set e | e in reached :: e.id
  }

  lemma TellsNothing(s: Face, fate: Fate, pick: Interest -> Callback)
    ensures PassTells(s, [], fate, pick, s)
  {
  }

  lemma TellsCons(s: Face, e: Entry, t: Face, rest: seq<Entry>, fate: Fate, pick: Interest -> Callback, r: Face)
    requires e.id < s.nextId && PassTells(t, rest, fate, pick, r)
    requires t.settled == s.settled + SettledAs([e], fate) && t.calls == s.calls + Invoked([e], fate, pick)
    requires FootingOf(t) == ActAll(FootingOf(s), ScriptOf(pick(e.interest)))
    requires s.nextId <= t.nextId && Timers(s, {e.id}, t)
    ensures PassTells(s, [e] + rest, fate, pick, r)
  {
    hide ActAll, ScriptOf, FootingOf, Timers, IdsOf;
    assert ([e] + rest)[1..] == rest && [e][1..] == [];
    ActAllAppend(FootingOf(s), ScriptOf(pick(e.interest)), ScriptsOf(rest, pick));
    IdsCons(e, rest);
    TimersTwice(s, {e.id}, t, IdsOf(rest), r);
  }

  lemma IdsCons(e: Entry, rest: seq<Entry>)
    ensures IdsOf([e] + rest) == {e.id} + IdsOf(rest)
  {
    assert forall x :: x in [e] + rest <==> x == e || x in rest;
  }

  lemma TimersTwice(s: Face, a: set<nat>, t: Face, b: set<nat>, r: Face)
    requires Timers(s, a, t) && Timers(t, b, r) && s.nextId <= t.nextId <= r.nextId
    requires forall k :: k in a ==> k < s.nextId
    ensures Timers(s, a + b, r)
  {
  }

  /** Whom a pass reaches, what their callbacks do, and which timers go. */
  lemma {:induction false} PassReaches(s: Face, pos: nat, matches: Interest -> bool, fate: Fate,
                                       pick: Interest -> Callback)
    requires pos <= |s.pit| && Runs(fate, pick) && forall e <- s.pit :: e.id < s.nextId
    ensures PassTells(s, Reached(s.pit[pos..], s.nextId, matches, pick), fate, pick, Deliver(s, pos, matches, fate))
    decreases Load(s.pit[pos..])
  {
    hide DeliverTo, Load, ExpressedBy, FootingOf, ActAll, SettledAs, Invoked, ScriptOf, PassTells;
    if pos == |s.pit| {
      TellsNothing(s, fate, pick);
    } else {
      var rest := s.pit[pos + 1..];
      assert s.pit[pos..][1..] == rest;
      if !matches(s.pit[pos].interest) {
        LoadDrops(s.pit[pos..]);
        PassReaches(s, pos + 1, matches, fate, pick);
      } else {
        RoundIs(s, pos, fate, pick);
        DeliverToShrinks(s, pos, fate);
        var r := DeliverTo(s, pos, fate);
        var added := Entries(ExpressedBy(pick(s.pit[pos].interest)), s.nextId);
        if pos + 1 < |s.pit| {
          assert r.pit[pos..] == rest + added;
          PassReaches(r, pos, matches, fate, pick);
          TellsCons(s, s.pit[pos], r, Reached(rest + added, r.nextId, matches, pick), fate, pick,
                    Deliver(s, pos, matches, fate));
        } else {
          TellsNothing(r, fate, pick);
          TellsCons(s, s.pit[pos], r, [], fate, pick, r);
        }
      }
    }
  }

  lemma IdsBelowNext(s: Face)
    requires FaceInv(s)
    ensures forall e <- s.pit :: e.id < s.nextId
  {
    hide FaceInv;
    assert forall id :: id in PitIds(s.pit) ==> id < s.nextId by { PitCovered(s); }
    forall e | e in s.pit ensures e.id < s.nextId {
      assert e.id in PitIds(s.pit);
    }
  }

  lemma PitCovered(s: Face)
    requires FaceInv(s)
    ensures forall id :: id in PitIds(s.pit) ==> id < s.nextId
  {
  }

  /** Data settle the Interests they reach as satisfied, and do to the link, the registered
      prefixes and the posted tasks what the Data callbacks of these do, in that order. */
  lemma DataPass(s: Face, matches: Interest -> bool)
    requires FaceInv(s)
    ensures Lighter(OnData)
    ensures var r, reached := Deliver(s, 0, matches, Satisfied), Reached(s.pit, s.nextId, matches, OnData);
            && PassTells(s, reached, Satisfied, OnData, r)
            && r.pit == Left(s.pit, s.nextId, matches, OnData)
  {
    hide FaceInv, PassTells;
    DataAndNackRun();
    IdsBelowNext(s);
    assert s.pit[0..] == s.pit;
    PassTable(s, 0, matches, Satisfied, OnData);
    PassReaches(s, 0, matches, Satisfied, OnData);
  }

  /** A Nack does the same with the Nack callbacks. */
  lemma NackPass(s: Face, matches: Interest -> bool)
    requires FaceInv(s)
    ensures Lighter(OnNack)
    ensures var r, reached := Deliver(s, 0, matches, Nacked), Reached(s.pit, s.nextId, matches, OnNack);
            && PassTells(s, reached, Nacked, OnNack, r)
            && r.pit == Left(s.pit, s.nextId, matches, OnNack)
  {
    hide FaceInv, PassTells;
    DataAndNackRun();
    IdsBelowNext(s);
    assert s.pit[0..] == s.pit;
    PassTable(s, 0, matches, Nacked, OnNack);
    PassReaches(s, 0, matches, Nacked, OnNack);
  }

  // ---------------------------------------------------------------------
  // Timeouts and removals
  // ---------------------------------------------------------------------

  /** The entries with another identity, in order. */
  function Others(pit: seq<Entry>, id: nat): seq<Entry> {
    if pit == [] then []
    else if pit[0].id == id then Others(pit[1..], id)
    else [pit[0]] + Others(pit[1..], id)
  }

  lemma {:induction false} OthersAll(pit: seq<Entry>, id: nat)
    requires forall e <- pit :: e.id != id
    ensures Others(pit, id) == pit
  {
    if pit != [] {
      assert pit[0] in pit;
      OthersAll(pit[1..], id);
    }
  }

  lemma {:induction false} OthersOne(pit: seq<Entry>, i: nat)
    requires Increasing(pit) && i < |pit|
    ensures Others(pit, pit[i].id) == pit[..i] + pit[i + 1..]
    decreases |pit|
  {
    if i == 0 {
      forall e | e in pit[1..] ensures e.id != pit[0].id {
        var k :| 0 <= k < |pit[1..]| && pit[1..][k] == e;
        assert pit[k + 1] == e;
      }
      OthersAll(pit[1..], pit[0].id);
    } else {
      OthersOne(pit[1..], i - 1);
    }
  }

  lemma TableIncreases(s: Face)
    requires FaceInv(s)
    ensures Increasing(s.pit)
  {
  }

  /** The removal of a pending Interest takes its entry and its timer and nothing else, runs
      no callback, and posts the pause check if the table is empty then. */
  lemma RemovesOne(s: Face, id: nat)
    requires FaceInv(s)
    ensures var r := RemovePending(s, id);
            && r.pit == Others(s.pit, id)
            && r.settled == s.settled + (if exists e :: e in s.pit && e.id == id then [Settled(id, Removed)] else [])
            && r.timers == s.timers - {id}
            && r.calls == s.calls && FootingOf(r) == FootingOf(s) && r.nextId == s.nextId
            && r.tasks == s.tasks + if r.pit == [] then [PauseCheck] else []
  {
    TableIncreases(s);
    var i := IndexOf(s.pit, id);
    if i < |s.pit| {
      assert s.pit[i] in s.pit;
      OthersOne(s.pit, i);
    } else {
      OthersAll(s.pit, id);
      NoTimer(s, id);
    }
    JobsAfter(s.tasks, PauseCheck);
    hide FaceInv, Jobs;
  }

  lemma NoTimer(s: Face, id: nat)
    requires FaceInv(s) && forall e <- s.pit :: e.id != id
    ensures id !in s.timers
  {
  }

  /** The removal of all pending Interests empties the table and settles them in order. */
  lemma {:induction false} RemovesFrom(s: Face)
    ensures var r := RemoveFrom(s);
            && r == s.(pit := [], settled := s.settled + SettledAs(s.pit, Removed), timers := r.timers)
            && (forall k :: k in r.timers <==> k in s.timers && forall e <- s.pit :: e.id != k)
    decreases |s.pit|
  {
    if s.pit != [] {
      var e := s.pit[0];
      var t := Settle(CancelTimer(s.(pit := s.pit[1..]), e.id), e.id, Removed);
      RemovesFrom(t);
      assert s.pit == [e] + s.pit[1..];
    }
  }

  /** The timeout of a pending Interest runs its timeout callback and takes its entry. */
  lemma TimesOut(s: Face, i: nat)
    requires FaceInv(s) && i < |s.pit|
    ensures var r, e := Timeout(s, s.pit[i].id), s.pit[i];
            var added := Entries(ExpressedBy(e.interest.onTimeout), s.nextId);
            && r.pit == s.pit[..i] + s.pit[i + 1..] + added
            && r.nextId == s.nextId + |added|
            && r.settled == s.settled + [Settled(e.id, TimedOut)]
            && r.calls == s.calls + (if e.interest.onTimeout.NoCallback? then [] else [Settled(e.id, TimedOut)])
            && Timers(s, {e.id}, r)
            && FootingOf(r) == ActAll(FootingOf(s), ScriptOf(e.interest.onTimeout))
  {
    hide Invoke, ExpressedBy, ScriptOf, ActAll, Weight, CallbackWeight, Load, FaceInv, FootingOf, ErasePending,
         Timers, Timeout;
    TimeoutIs(s, i);
    IdsBelowNext(s);
    var e := s.pit[i];
    var t := Settle(CancelTimer(s, e.id), e.id, TimedOut);
    SameFooting(s, t);
    InvokeGrows(t, e.id, e.interest.onTimeout, TimedOut);
    InvokeFooting(t, e.id, e.interest.onTimeout, TimedOut);
    InvokeShape(t, e.id, e.interest.onTimeout, TimedOut);
    var u := Invoke(t, e.id, e.interest.onTimeout, TimedOut);
    ErasedRest(u, i);
    assert e in s.pit;
    TimersHeld(s, e.id, t, u, ErasePending(u, i));
  }

  /** The entry is still where it was after its callback has run. */
  lemma TimeoutIs(s: Face, i: nat)
    requires FaceInv(s) && i < |s.pit|
    ensures var e := s.pit[i];
            var u := Invoke(Settle(CancelTimer(s, e.id), e.id, TimedOut), e.id, e.interest.onTimeout, TimedOut);
            i < |u.pit| && Timeout(s, e.id) == ErasePending(u, i)
  {
    hide Invoke, FaceInv, ErasePending, Increasing;
    TableIncreases(s);
    var e := s.pit[i];
    IndexIs(s.pit, i);
    var t := Settle(CancelTimer(s, e.id), e.id, TimedOut);
    InvokeShape(t, e.id, e.interest.onTimeout, TimedOut);
    IndexStays(s.pit, i, Invoke(t, e.id, e.interest.onTimeout, TimedOut).pit);
  }

  lemma SameFooting(s: Face, t: Face)
    requires t.link == s.link && t.prefixes == s.prefixes && t.faults == s.faults && t.tasks == s.tasks
    ensures FootingOf(t) == FootingOf(s)
  {
  }

  /** An erased entry leaves the others in order, and the last one posts the check. */
  lemma ErasedRest(s: Face, pos: nat)
    requires pos < |s.pit|
    ensures var r := ErasePending(s, pos);
            && r.pit == s.pit[..pos] + s.pit[pos + 1..]
            && r.nextId == s.nextId && r.timers == s.timers && r.settled == s.settled && r.calls == s.calls
            && FootingOf(r) == FootingOf(s)
            && r.tasks == s.tasks + if |s.pit| == 1 then [PauseCheck] else []
  {
    JobsAfter(s.tasks, PauseCheck);
    hide Jobs;
  }

  lemma TimersHeld(s: Face, id: nat, t: Face, u: Face, r: Face)
    requires id < s.nextId && t.timers == s.timers - {id} && t.nextId == s.nextId && Timers(t, {}, u)
    requires r.timers == u.timers && r.nextId == u.nextId
    ensures Timers(s, {id}, r)
  {
  }

  lemma IndexIs(pit: seq<Entry>, i: nat)
    requires Increasing(pit) && i < |pit|
    ensures IndexOf(pit, pit[i].id) == i
  {
  }

  lemma IndexStays(pit: seq<Entry>, i: nat, longer: seq<Entry>)
    requires Increasing(pit) && i < |pit| && pit <= longer
    ensures IndexOf(longer, pit[i].id) == i
  {
    assert forall k :: 0 <= k <= i ==> longer[k] == pit[k];
  }

  // ---------------------------------------------------------------------
  // Prefixes, sending and posted tasks
  // ---------------------------------------------------------------------

  /** A prefix is recorded when its registration is granted, and its record goes when the
      unregister command succeeds: one record, and no other. */
  lemma RecordsPrefixes(s: Face, prefix: nat)
    ensures multiset(AfterPrefixRegistered(s, prefix).prefixes) == multiset(s.prefixes) + multiset{prefix}
    ensures multiset(FinalizeUnregisterPrefix(s, prefix).prefixes) == multiset(s.prefixes) - multiset{prefix}
    ensures FinalizeUnregisterPrefix(s, prefix).tasks
            == s.tasks + if s.prefixes == [prefix] then [PauseCheck] else []
  {
    hide IndexOfPrefix, EraseAt;
    PrefixIndex(s.prefixes, prefix);
    var i := IndexOfPrefix(s.prefixes, prefix);
    if i < |s.prefixes| {
      RecordGoes(s.prefixes, i);
    }
  }

  lemma RecordGoes(prefixes: seq<nat>, i: nat)
    requires i < |prefixes|
    ensures multiset(EraseAt(prefixes, i)) == multiset(prefixes) - multiset{prefixes[i]}
    ensures EraseAt(prefixes, i) == [] <==> prefixes == [prefixes[i]]
  {
    assert prefixes == prefixes[..i] + [prefixes[i]] + prefixes[i + 1..];
    assert EraseAt(prefixes, i) == [] <==> |prefixes| == 1;
  }

  /** A request to unregister sends its command exactly if the prefix is in the table. */
  lemma UnregistersKnown(s: Face, prefix: nat, command: Interest)
    ensures UnregisterPrefix(s, prefix, command) == if prefix in s.prefixes then ExpressInterest(s, command) else s
  {
    hide ExpressInterest;
    PrefixIndex(s.prefixes, prefix);
  }

  /** Expressing an Interest and putting a packet hand one sequence to the transport, behind
      what it was given before on this connection. */
  lemma HandsOver(s: Face, i: Interest)
    ensures PutPacket(s).link.accepted == s.link.accepted + [Item(|s.link.accepted|, [])]
    ensures ExpressInterest(s, i).link == PutPacket(s).link
    ensures PutPacket(s).link.connected || PutPacket(s).link.connecting
  {
  }

  /** Tasks run in the order they were posted, what a task posts goes behind the others, and
      each does to the table what it is for. */
  lemma OldestFirst(s: Face)
    requires FaceInv(s) && s.tasks != []
    ensures var r := RunTask(s);
            && s.tasks[1..] <= r.tasks
            && r.pit == (match s.tasks[0]
                         case PauseCheck => s.pit
                         case RemoveOne(id) => Others(s.pit, id)
                         case RemoveAll => []
                         case Unregister(prefix, command) =>
                           if prefix in s.prefixes then s.pit + [Entry(s.nextId, command)] else s.pit)
  {
    hide Connect, Resume, Send, RemoveFrom, Pause, RemovePending, UnregisterPrefix;
    var t := s.(tasks := s.tasks[1..]);
    match s.tasks[0]
    case PauseCheck =>
    case RemoveOne(id) =>
      assert FaceInv(t);
      RemovesOne(t, id);
    case RemoveAll =>
      RemovesFrom(t);
    case Unregister(prefix, command) =>
      UnregistersKnown(t, prefix, command);
  }
}
