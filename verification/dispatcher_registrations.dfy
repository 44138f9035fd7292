/** What becomes of the prefixes a Dispatcher registers: registering and unregistering are
    commands with responses, and a request to unregister that runs before the response to
    the registration does nothing. */
module DispatcherRegistrations {
  import opened DispatcherModel
  import opened DispatcherProperties

  // ---------------------------------------------------------------------
  // Moments
  // ---------------------------------------------------------------------

  ghost predicate Before(log: seq<Moment>, x: Moment, y: Moment) {
    exists i, j :: 0 <= i < j < |log| && log[i] == x && log[j] == y
  }

  ghost predicate EachOnce(log: seq<Moment>) {
    forall i, j :: 0 <= i < j < |log| ==> log[i] != log[j]
  }

  lemma BeforeAppend(log: seq<Moment>, e: Moment, x: Moment, y: Moment)
    ensures Before(log + [e], x, y) <==> Before(log, x, y) || (e == y && x in log)
  {
    var longer := log + [e];
    if Before(longer, x, y) {
      var i, j :| 0 <= i < j < |longer| && longer[i] == x && longer[j] == y;
      if j < |log| {
        assert log[i] == x && log[j] == y;
      } else {
        assert log[i] == x;
      }
    }
    if Before(log, x, y) {
      var i, j :| 0 <= i < j < |log| && log[i] == x && log[j] == y;
      assert longer[i] == x && longer[j] == y;
    }
    if e == y && x in log {
      var i :| 0 <= i < |log| && log[i] == x;
      assert longer[i] == x && longer[|log|] == y;
    }
  }

  /** Of two moments that both come, one comes first, and not the other way round too. */
  lemma BeforeOrAfter(log: seq<Moment>, x: Moment, y: Moment)
    requires EachOnce(log) && x in log && y in log && x != y
    ensures Before(log, x, y) <==> !Before(log, y, x)
  {
    var i :| 0 <= i < |log| && log[i] == x;
    var j :| 0 <= j < |log| && log[j] == y;
    if i < j {
      assert Before(log, x, y);
    } else {
      assert Before(log, y, x);
    }
  }

  // ---------------------------------------------------------------------
  // The Face's side
  // ---------------------------------------------------------------------

  /** Where the registration id is in the tables follows from what has happened to it. */
  ghost predicate Traced(t: FaceTables, id: nat) {
    && (id in t.registering <==> Started(id) in t.log && Granted(id) !in t.log && Denied(id) !in t.log)
    && (id in t.registered <==> Granted(id) in t.log && Withdrawn(id) !in t.log)
    && (id in t.unregistering <==>
          Before(t.log, Granted(id), UnregisterRan(id)) && Withdrawn(id) !in t.log && Kept(id) !in t.log)
    && (Granted(id) in t.log || Denied(id) in t.log ==> Started(id) in t.log)
    && !(Granted(id) in t.log && Denied(id) in t.log)
    && (Withdrawn(id) in t.log || Kept(id) in t.log ==> Before(t.log, Granted(id), UnregisterRan(id)))
    && !(Withdrawn(id) in t.log && Kept(id) in t.log)
  }

  ghost predicate AllTraced(t: FaceTables) {
    EachOnce(t.log) && forall id :: Traced(t, id)
  }

  lemma BeforeIsIn(log: seq<Moment>, x: Moment, y: Moment)
    ensures Before(log, x, y) ==> x in log && y in log
  {
  }

  lemma OnceMore(log: seq<Moment>, e: Moment)
    requires EachOnce(log) && e !in log
    ensures EachOnce(log + [e])
  {
  }

  lemma RegisterTraced(t: FaceTables, id: nat, prefix: Name)
    requires AllTraced(t) && Started(id) !in t.log
    ensures AllTraced(StartRegistration(t, id, prefix))
  {
    hide EachOnce;
    var t' := StartRegistration(t, id, prefix);
    OnceMore(t.log, Started(id));
    forall k: nat
      ensures Traced(t', k)
    {
      assert Traced(t, k);
      BeforeAppend(t.log, Started(id), Granted(k), UnregisterRan(k));
      hide Before;
    }
  }

  lemma UnregisterTraced(t: FaceTables, id: nat)
    requires AllTraced(t) && UnregisterRan(id) !in t.log
    ensures AllTraced(ApplyOp(t, UnregisterPrefix(id)))
  {
    hide EachOnce;
    var t' := ApplyOp(t, UnregisterPrefix(id));
    OnceMore(t.log, UnregisterRan(id));
    forall k: nat
      ensures Traced(t', k)
    {
      assert Traced(t, k);
      BeforeAppend(t.log, UnregisterRan(id), Granted(k), UnregisterRan(k));
      BeforeIsIn(t.log, Granted(k), UnregisterRan(k));
      hide Before;
    }
  }

  lemma RegisterReplyTraced(t: FaceTables, id: nat, ok: bool)
    requires AllTraced(t) && id in t.registering
    ensures AllTraced(RegisterReply(t, id, ok))
  {
    hide EachOnce;
    var t' := RegisterReply(t, id, ok);
    var e := if ok then Granted(id) else Denied(id);
    assert Traced(t, id);
    OnceMore(t.log, e);
    forall k: nat
      ensures Traced(t', k)
    {
      assert Traced(t, k);
      BeforeAppend(t.log, e, Granted(k), UnregisterRan(k));
      BeforeIsIn(t.log, Granted(k), UnregisterRan(k));
      hide Before;
    }
  }

  lemma UnregisterReplyTraced(t: FaceTables, id: nat, ok: bool)
    requires AllTraced(t) && id in t.unregistering
    ensures AllTraced(UnregisterReply(t, id, ok))
  {
    hide EachOnce;
    var t' := UnregisterReply(t, id, ok);
    var e := if ok then Withdrawn(id) else Kept(id);
    assert Traced(t, id);
    OnceMore(t.log, e);
    forall k: nat
      ensures Traced(t', k)
    {
      assert Traced(t, k);
      BeforeAppend(t.log, e, Granted(k), UnregisterRan(k));
      BeforeIsIn(t.log, Granted(k), UnregisterRan(k));
      hide Before;
    }
  }

  lemma FilterOpTraced(t: FaceTables, op: FaceOp)
    requires AllTraced(t) && (op.SetFilter? || op.UnsetFilter?)
    ensures AllTraced(ApplyOp(t, op))
  {
    hide EachOnce, Before;
    var t' := ApplyOp(t, op);
    forall k: nat
      ensures Traced(t', k)
    {
      assert Traced(t, k);
    }
  }

  // ---------------------------------------------------------------------
  // The Dispatcher's side
  // ---------------------------------------------------------------------

  /** The registrations of the current top prefixes. */
  ghost function Owners(d: Dispatcher): map<Name, nat> {
    map p | p in d.tops && d.tops[p].wantRegister :: d.tops[p].registerPrefixId
  }

  /** The registrations that the posted operations are to undo. */
  function Undoing(ops: seq<FaceOp>): seq<nat> {
    if ops == [] then [] else Undone(ops[0]) + Undoing(ops[1..])
  }

  function Undone(op: FaceOp): seq<nat> {
    if op.UnregisterPrefix? then [op.id] else []
  }

  lemma {:induction false} UndoingAppend(ops: seq<FaceOp>, op: FaceOp)
    ensures Undoing(ops + [op]) == Undoing(ops) + Undone(op)
    decreases |ops|
  {
    hide Undone, Undoing;
    if ops == [] {
      assert ops + [op] == [op] + [];
      UndoingCons(op, []);
      NothingUndoing();
    } else {
      UndoingAppend(ops[1..], op);
      assert ops == [ops[0]] + ops[1..];
      assert ops + [op] == [ops[0]] + (ops[1..] + [op]);
      UndoingCons(ops[0], ops[1..]);
      UndoingCons(ops[0], ops[1..] + [op]);
      assert Undone(ops[0]) + (Undoing(ops[1..]) + Undone(op)) == (Undone(ops[0]) + Undoing(ops[1..])) + Undone(op);
    }
  }

  lemma UndoingCons(op: FaceOp, rest: seq<FaceOp>)
    ensures Undoing([op] + rest) == Undone(op) + Undoing(rest)
  {
    assert ([op] + rest)[1..] == rest;
  }

  lemma NothingUndoing()
    ensures Undoing([]) == []
  {
  }

  ghost predicate Owned(owners: map<Name, nat>, id: nat) {
    exists p :: p in owners && owners[p] == id
  }

  /** Whose registration a table entry is. */
  ghost predicate NamedFor(owners: map<Name, nat>, t: FaceTables, p: Name) {
    p in owners ==>
      && (owners[p] in t.registering ==> t.registering[owners[p]] == p)
      && (owners[p] in t.registered ==> t.registered[owners[p]] == p)
  }

  ghost predicate AskedOnce(ids: seq<nat>) {
    forall i, j :: 0 <= i < j < |ids| ==> ids[i] != ids[j]
  }

  ghost predicate AskedFor(owners: map<Name, nat>, ids: seq<nat>, log: seq<Moment>, id: nat) {
    && Started(id) in log
    && (id in ids || UnregisterRan(id) in log <==> !Owned(owners, id))
  }

  ghost predicate OwnersApart(owners: map<Name, nat>, next: nat) {
    && (forall p :: p in owners ==> owners[p] < next)
    && (forall p, q :: p in owners && q in owners && owners[p] == owners[q] ==> p == q)
  }

  /** Every id given out has its register command started; and its request to unregister
      posted or run, once, exactly if no current top prefix has it. */
  ghost predicate Accounted(owners: map<Name, nat>, ids: seq<nat>, log: seq<Moment>, next: nat) {
    && AskedOnce(ids) && OwnersApart(owners, next)
    && (forall id :: id in ids ==> id < next && UnregisterRan(id) !in log)
    && (forall e :: e in log ==> e.id < next)
    && (forall id :: 0 <= id < next ==> AskedFor(owners, ids, log, id))
  }

  ghost predicate RegInv(d: Dispatcher) {
    && AllTraced(d.face)
    && Accounted(Owners(d), Undoing(d.posted), d.face.log, d.nextRegistration)
    && (forall p :: NamedFor(Owners(d), d.face, p))
  }

  lemma StartAccounted(owners: map<Name, nat>, ids: seq<nat>, log: seq<Moment>, next: nat, p: Name)
    requires Accounted(owners, ids, log, next) && p !in owners
    ensures Accounted(owners[p := next], ids, log + [Started(next)], next + 1)
    ensures Started(next) !in log
  {
    var owners', log' := owners[p := next], log + [Started(next)];
    assert forall e :: e in log' <==> e in log || e == Started(next);
    assert UnregisterRan(next) !in log;
    forall id | 0 <= id < next + 1
      ensures AskedFor(owners', ids, log', id)
    {
      OwnedAdd(owners, p, next, id);
      if id < next {
        assert AskedFor(owners, ids, log, id);
      }
    }
  }

  lemma OwnedAdd(owners: map<Name, nat>, p: Name, next: nat, id: nat)
    requires p !in owners
    ensures Owned(owners[p := next], id) <==> Owned(owners, id) || id == next
  {
    if Owned(owners, id) {
      var q :| q in owners && owners[q] == id;
      assert owners[p := next][q] == id;
    }
    assert owners[p := next][p] == next;
  }

  lemma RemoveAccounted(owners: map<Name, nat>, ids: seq<nat>, log: seq<Moment>, next: nat, p: Name)
    requires Accounted(owners, ids, log, next) && p in owners
    ensures Accounted(owners - {p}, ids + [owners[p]], log, next)
  {
    var gone := owners[p];
    assert AskedFor(owners, ids, log, gone) && Owned(owners, gone);
    assert forall i :: 0 <= i < |ids| ==> ids[i] in ids;
    assert forall id :: id in ids + [gone] <==> id in ids || id == gone;
    forall id | 0 <= id < next
      ensures AskedFor(owners - {p}, ids + [gone], log, id)
    {
      assert AskedFor(owners, ids, log, id);
      OwnedRemove(owners, p, id);
    }
  }

  lemma OwnedRemove(owners: map<Name, nat>, p: Name, id: nat)
    requires p in owners
    requires forall p, q :: p in owners && q in owners && owners[p] == owners[q] ==> p == q
    ensures Owned(owners - {p}, id) <==> Owned(owners, id) && id != owners[p]
  {
    if Owned(owners, id) && id != owners[p] {
      var q :| q in owners && owners[q] == id;
      assert q in owners - {p} && (owners - {p})[q] == id;
    }
  }

  lemma UndoAccounted(owners: map<Name, nat>, ids: seq<nat>, log: seq<Moment>, next: nat)
    requires Accounted(owners, ids, log, next) && ids != []
    ensures UnregisterRan(ids[0]) !in log
    ensures Accounted(owners, ids[1..], log + [UnregisterRan(ids[0])], next)
  {
    var log', rest := log + [UnregisterRan(ids[0])], ids[1..];
    assert ids[0] in ids;
    assert forall e :: e in log' <==> e in log || e == UnregisterRan(ids[0]);
    assert ids == [ids[0]] + rest;
    assert forall id :: id in ids <==> id == ids[0] || id in rest;
    forall i | 0 <= i < |rest|
      ensures rest[i] != ids[0]
    {
      assert ids[i + 1] == rest[i];
    }
    forall id | 0 <= id < next
      ensures AskedFor(owners, rest, log', id)
    {
      assert AskedFor(owners, ids, log, id);
    }
  }

  lemma ReplyAccounted(owners: map<Name, nat>, ids: seq<nat>, log: seq<Moment>, next: nat, e: Moment)
    requires Accounted(owners, ids, log, next) && e.id < next && !e.Started? && !e.UnregisterRan?
    ensures Accounted(owners, ids, log + [e], next)
  {
    hide AskedOnce, OwnersApart;
    assert forall x :: x in log + [e] <==> x in log || x == e;
    forall id | 0 <= id < next
      ensures AskedFor(owners, ids, log + [e], id)
    {
      assert AskedFor(owners, ids, log, id);
    }
  }

  // ---------------------------------------------------------------------
  // Every step keeps the books
  // ---------------------------------------------------------------------

  ghost predicate SameBooks(d: Dispatcher, r: Dispatcher) {
    && Owners(r) == Owners(d) && Undoing(r.posted) == Undoing(d.posted)
    && r.face == d.face && r.nextRegistration == d.nextRegistration
  }

  lemma SameBooksKeep(d: Dispatcher, r: Dispatcher)
    requires RegInv(d) && SameBooks(d, r)
    ensures RegInv(r)
  {
    hide Owners, Undoing, Accounted, NamedFor, AllTraced;
    forall p
      ensures NamedFor(Owners(r), r.face, p)
    {
      assert NamedFor(Owners(d), d.face, p);
    }
  }

  lemma AddFilterBooks(d: Dispatcher, prefix: Name, rel: Name)
    requires prefix in d.tops
    ensures SameBooks(d, AddFilter(d, prefix, rel))
  {
    UndoingAppend(d.posted, SetFilter(Filter(d.nextFilter, prefix, rel)));
    hide Undoing;
    var r := AddFilter(d, prefix, rel);
    assert Owners(r) == Owners(d);
  }

  lemma {:induction false} AddFiltersBooks(d: Dispatcher, prefix: Name, order: seq<Name>)
    requires prefix in d.tops
    ensures SameBooks(d, AddFilters(d, prefix, order))
    decreases |order|
  {
    if order != [] {
      AddFilterBooks(d, prefix, order[0]);
      hide AddFilter, Owners, Undoing;
      AddFiltersBooks(AddFilter(d, prefix, order[0]), prefix, order[1..]);
    }
  }

  lemma {:induction false} UnsetFiltersBooks(d: Dispatcher, ids: seq<nat>)
    ensures SameBooks(d, UnsetFilters(d, ids))
    ensures UnsetFilters(d, ids).tops == d.tops
    decreases |ids|
  {
    hide Undoing;
    if ids != [] {
      UndoingAppend(d.posted, UnsetFilter(ids[0]));
      UnsetFiltersBooks(PostOp(d, UnsetFilter(ids[0])), ids[1..]);
    }
  }

  lemma StartTopRegisters(d: Dispatcher, prefix: Name, wantRegister: bool)
    requires RegInv(d) && prefix !in d.tops
    ensures RegInv(StartTop(d, prefix, wantRegister))
  {
    var r := StartTop(d, prefix, wantRegister);
    hide Accounted, AllTraced, Undoing;
    if !wantRegister {
      assert Owners(r) == Owners(d);
      SameBooksKeep(d, r);
    } else {
      var id := d.nextRegistration;
      assert Owners(r) == Owners(d)[prefix := id];
      StartAccounted(Owners(d), Undoing(d.posted), d.face.log, id, prefix);
      RegisterTraced(d.face, id, prefix);
      IdsBelow(Owners(d), Undoing(d.posted), d.face.log, id);
      NotYetGranted(d.face, id);
      forall p
        ensures NamedFor(Owners(r), r.face, p)
      {
        assert NamedFor(Owners(d), d.face, p);
      }
    }
  }

  lemma NotYetGranted(t: FaceTables, next: nat)
    requires AllTraced(t) && forall e :: e in t.log ==> e.id < next
    ensures next !in t.registered
  {
    assert Traced(t, next);
    hide Before;
    assert Granted(next) !in t.log;
  }

  lemma IdsBelow(owners: map<Name, nat>, ids: seq<nat>, log: seq<Moment>, next: nat)
    requires Accounted(owners, ids, log, next)
    ensures forall e :: e in log ==> e.id < next
    ensures forall p :: p in owners ==> owners[p] < next
  {
    hide AskedFor, AskedOnce;
  }

  lemma AddTopRegisters(d: Dispatcher, prefix: Name, wantRegister: bool, order: seq<Name>)
    requires RegInv(d)
    ensures RegInv(AddTopPrefix(d, prefix, wantRegister, order))
  {
    hide RegInv, StartTop;
    if !TopOverlaps(d, prefix) {
      assert Overlap(prefix, prefix);
      StartTopRegisters(d, prefix, wantRegister);
      var s := StartTop(d, prefix, wantRegister);
      AddFiltersBooks(s, prefix, order);
      SameBooksKeep(s, AddFilters(s, prefix, order));
    }
  }

  lemma RemoveTopUnregisters(d: Dispatcher, prefix: Name)
    requires RegInv(d)
    ensures RegInv(RemoveTopPrefix(d, prefix))
  {
    hide Accounted, AllTraced, UnsetFilters, Undoing, NamedFor;
    if prefix in d.tops {
      var r, owners, ids := RemoveTopPrefix(d, prefix), Owners(d), Undoing(d.posted);
      RemovedBooks(d, prefix);
      hide RemoveTopPrefix, Owners;
      if prefix in owners {
        RemoveAccounted(owners, ids, d.face.log, d.nextRegistration, prefix);
      }
      forall p
        ensures NamedFor(Owners(r), r.face, p)
      {
        assert NamedFor(owners, d.face, p);
        NamedForFewer(owners, d.face, p, prefix);
      }
    }
  }

  /** Removing a top prefix takes its registration from the owners and posts the request to
      unregister it. */
  lemma RemovedBooks(d: Dispatcher, prefix: Name)
    requires prefix in d.tops
    ensures var r := RemoveTopPrefix(d, prefix);
            && r.face == d.face && r.nextRegistration == d.nextRegistration
            && Owners(r) == Owners(d) - {prefix}
            && (prefix !in Owners(d) ==> Owners(r) == Owners(d))
            && Undoing(r.posted) == if prefix in Owners(d) then Undoing(d.posted) + [Owners(d)[prefix]]
                                    else Undoing(d.posted)
  {
    hide UnsetFilters, Owners, Undoing;
    var entry := d.tops[prefix];
    var op := UnregisterPrefix(entry.registerPrefixId);
    var d1 := if entry.wantRegister then PostOp(d, op) else d;
    UnsetFiltersBooks(d1, entry.interestFilters);
    UndoingAppend(d.posted, op);
    OwnersWithout(d, RemoveTopPrefix(d, prefix), prefix);
  }

  lemma OwnersWithout(d: Dispatcher, r: Dispatcher, prefix: Name)
    requires prefix in d.tops && r.tops == d.tops - {prefix}
    ensures Owners(r) == Owners(d) - {prefix}
    ensures prefix in Owners(d) <==> d.tops[prefix].wantRegister
    ensures prefix in Owners(d) ==> Owners(d)[prefix] == d.tops[prefix].registerPrefixId
    ensures prefix !in Owners(d) ==> Owners(r) == Owners(d)
  {
  }

  lemma NamedForFewer(owners: map<Name, nat>, t: FaceTables, p: Name, gone: Name)
    requires NamedFor(owners, t, p)
    ensures NamedFor(owners - {gone}, t, p)
  {
  }

  lemma FaceRunsRegistrations(d: Dispatcher)
    requires RegInv(d)
    ensures RegInv(RunPosted(d))
  {
    if d.posted != [] {
      var op, r := d.posted[0], RunPosted(d);
      var ids := Undoing(d.posted);
      assert Owners(r) == Owners(d);
      if op.UnregisterPrefix? {
        assert ids[0] == op.id && ids[1..] == Undoing(r.posted);
        UndoAccounted(Owners(d), ids, d.face.log, d.nextRegistration);
        UnregisterTraced(d.face, op.id);
      } else {
        assert [] + Undoing(r.posted) == Undoing(r.posted);
        FilterOpTraced(d.face, op);
      }
      hide Accounted, AllTraced, Undoing, Owners;
      forall p
        ensures NamedFor(Owners(r), r.face, p)
      {
        assert NamedFor(Owners(d), d.face, p);
      }
    }
  }

  lemma RegisterReplyBooks(d: Dispatcher, id: nat, ok: bool)
    requires RegInv(d) && id in d.face.registering
    ensures RegInv(d.(face := RegisterReply(d.face, id, ok)))
  {
    var r := d.(face := RegisterReply(d.face, id, ok));
    var e := if ok then Granted(id) else Denied(id);
    RegisterReplyTraced(d.face, id, ok);
    assert Traced(d.face, id);
    IdsBelow(Owners(d), Undoing(d.posted), d.face.log, d.nextRegistration);
    assert Started(id) in d.face.log;
    ReplyAccounted(Owners(d), Undoing(d.posted), d.face.log, d.nextRegistration, e);
    hide Accounted, AllTraced, Undoing, Traced;
    assert Owners(r) == Owners(d);
    hide Owners;
    forall p
      ensures NamedFor(Owners(r), r.face, p)
    {
      assert NamedFor(Owners(d), d.face, p);
    }
  }

  lemma UnregisterReplyBooks(d: Dispatcher, id: nat, ok: bool)
    requires RegInv(d) && id in d.face.unregistering
    ensures RegInv(d.(face := UnregisterReply(d.face, id, ok)))
  {
    var r := d.(face := UnregisterReply(d.face, id, ok));
    var e := if ok then Withdrawn(id) else Kept(id);
    UnregisterReplyTraced(d.face, id, ok);
    assert Traced(d.face, id);
    IdsBelow(Owners(d), Undoing(d.posted), d.face.log, d.nextRegistration);
    BeforeIsIn(d.face.log, Granted(id), UnregisterRan(id));
    assert Granted(id) in d.face.log;
    ReplyAccounted(Owners(d), Undoing(d.posted), d.face.log, d.nextRegistration, e);
    hide Accounted, AllTraced, Undoing, Traced, Before;
    assert Owners(r) == Owners(d);
    hide Owners;
    forall p
      ensures NamedFor(Owners(r), r.face, p)
    {
      assert NamedFor(Owners(d), d.face, p);
    }
  }

  lemma AddHandlerRegistrations(d: Dispatcher, rel: Name, kind: HandlerKind)
    requires RegInv(d)
    ensures RegInv(AddHandler(d, rel, kind))
  {
    assert Owners(AddHandler(d, rel, kind)) == Owners(d);
    SameBooksKeep(d, AddHandler(d, rel, kind));
  }

  lemma NotifyRegistrations(d: Dispatcher, top: Name, rel: Name)
    requires RegInv(d)
    ensures RegInv(PostNotification(d, top, rel))
  {
    assert Owners(PostNotification(d, top, rel)) == Owners(d);
    SameBooksKeep(d, PostNotification(d, top, rel));
  }

  lemma StepKeepsRegistrations(d: Dispatcher, e: Event)
    requires RegInv(d) && Enabled(d, e)
    ensures RegInv(Step(d, e))
  {
    hide RegInv, AddTopPrefix, RemoveTopPrefix, AddHandler, PostNotification, RunPosted, RegisterReply, UnregisterReply;
    match e
    case EvAddHandler(rel, kind) => AddHandlerRegistrations(d, rel, kind);
    case EvAddTop(prefix, wantRegister, order) => AddTopRegisters(d, prefix, wantRegister, order);
    case EvRemoveTop(prefix) => RemoveTopUnregisters(d, prefix);
    case EvNotify(top, rel) => NotifyRegistrations(d, top, rel);
    case EvFaceRuns => FaceRunsRegistrations(d);
    case EvRegisterReply(id, ok) => RegisterReplyBooks(d, id, ok);
    case EvUnregisterReply(id, ok) => UnregisterReplyBooks(d, id, ok);
  }

  lemma {:induction false} RunKeepsRegistrations(d: Dispatcher, events: seq<Event>)
    requires RegInv(d) && Possible(d, events)
    ensures RegInv(Run(d, events))
    decreases |events|
  {
    hide RegInv, Step, Enabled;
    if events != [] {
      StepKeepsRegistrations(d, events[0]);
      RunKeepsRegistrations(Step(d, events[0]), events[1..]);
    }
  }

  lemma InitialRegistrations()
    ensures RegInv(DISPATCHER_INITIAL)
  {
    assert Owners(DISPATCHER_INITIAL) == map[];
  }

  // ---------------------------------------------------------------------
  // What becomes of a registration
  // ---------------------------------------------------------------------

  /** Everything posted about registrations has run, and nothing about id is on its way. */
  ghost predicate Settled(d: Dispatcher, id: nat) {
    Undoing(d.posted) == [] && id !in d.face.registering && id !in d.face.unregistering
  }

  /** The registration id was asked for, and its top prefix has been removed. */
  ghost predicate IsRemoved(d: Dispatcher, id: nat) {
    id < d.nextRegistration && !Owned(Owners(d), id)
  }

  /** p is a current top prefix, and id its registration. */
  ghost predicate IsCurrent(d: Dispatcher, p: Name, id: nat) {
    p in d.tops && d.tops[p].wantRegister && d.tops[p].registerPrefixId == id
  }

  /** A prefix that the Dispatcher has removed stays registered if and only if the response
      that granted it came after the request to unregister had run, or the command to
      unregister failed. */
  lemma RemovedStaysRegisteredExactly(events: seq<Event>, id: nat)
    requires Possible(DISPATCHER_INITIAL, events)
    requires IsRemoved(Run(DISPATCHER_INITIAL, events), id) && Settled(Run(DISPATCHER_INITIAL, events), id)
    ensures var t := Run(DISPATCHER_INITIAL, events).face;
            id in t.registered <==> Before(t.log, UnregisterRan(id), Granted(id)) || Kept(id) in t.log
  {
    hide Step, Enabled;
    InitialRegistrations();
    RunKeepsRegistrations(DISPATCHER_INITIAL, events);
    var d := Run(DISPATCHER_INITIAL, events);
    hide Run;
    var t := d.face;
    assert Traced(t, id);
    assert AskedFor(Owners(d), Undoing(d.posted), t.log, id);
    assert UnregisterRan(id) in t.log;
    BeforeIsIn(t.log, UnregisterRan(id), Granted(id));
    if Granted(id) in t.log {
      BeforeOrAfter(t.log, UnregisterRan(id), Granted(id));
    }
    hide Before;
  }

  /** A current top prefix that wanted to be registered is, under its own name, if and only if
      it was not refused. */
  lemma CurrentIsRegisteredExactly(events: seq<Event>, p: Name, id: nat)
    requires Possible(DISPATCHER_INITIAL, events)
    requires IsCurrent(Run(DISPATCHER_INITIAL, events), p, id) && Settled(Run(DISPATCHER_INITIAL, events), id)
    ensures var t := Run(DISPATCHER_INITIAL, events).face;
            && (id in t.registered <==> Denied(id) !in t.log)
            && (id in t.registered ==> t.registered[id] == p)
  {
    hide Step, Enabled;
    InitialRegistrations();
    RunKeepsRegistrations(DISPATCHER_INITIAL, events);
    var d := Run(DISPATCHER_INITIAL, events);
    hide Run;
    assert Traced(d.face, id);
    assert NamedFor(Owners(d), d.face, p);
    assert Owners(d)[p] == id && Owned(Owners(d), id);
    assert id < d.nextRegistration;
    assert AskedFor(Owners(d), Undoing(d.posted), d.face.log, id);
    BeforeIsIn(d.face.log, Granted(id), UnregisterRan(id));
    hide Before;
  }

  /** The first case happens: a top prefix is added and removed, both before the response to
      its registration, which then leaves it registered with no top prefix left. */
  lemma LateGrantStaysRegistered(p: Name) returns (events: seq<Event>)
    ensures events == [EvAddTop(p, true, []), EvRemoveTop(p), EvFaceRuns, EvRegisterReply(0, true)]
    ensures Possible(DISPATCHER_INITIAL, events)
    ensures var d := Run(DISPATCHER_INITIAL, events);
            d.tops == map[] && d.posted == [] && d.face.registered == map[0 := p]
            && d.face.registering == map[] && d.face.unregistering == {}
  {
    var d1 := Step(DISPATCHER_INITIAL, EvAddTop(p, true, []));
    assert d1.posted == [] && d1.tops == map[p := TopPrefixEntry(p, true, 0, [])] && d1.face.registering == map[0 := p];
    var d2 := Step(d1, EvRemoveTop(p));
    assert d2.posted == [UnregisterPrefix(0)] && d2.tops == map[];
    var d3 := Step(d2, EvFaceRuns);
    assert d3.posted == [] && d3.face.registering == map[0 := p] && d3.face.unregistering == {};
    var d4 := Step(d3, EvRegisterReply(0, true));
    assert d4.face.registering == map[] && d4.face.registered == map[0 := p];
    assert Enabled(DISPATCHER_INITIAL, EvAddTop(p, true, [])) && Enabled(d3, EvRegisterReply(0, true));
    hide Step;
    assert Run(d4, []) == d4;
    RunCons(d3, EvRegisterReply(0, true), []);
    events := [EvRegisterReply(0, true)] + [];
    RunCons(d2, EvFaceRuns, events);
    events := [EvFaceRuns] + events;
    RunCons(d1, EvRemoveTop(p), events);
    events := [EvRemoveTop(p)] + events;
    RunCons(DISPATCHER_INITIAL, EvAddTop(p, true, []), events);
    events := [EvAddTop(p, true, [])] + events;
  }

  lemma RunCons(d: Dispatcher, e: Event, rest: seq<Event>)
    requires Enabled(d, e) && Possible(Step(d, e), rest)
    ensures Possible(d, [e] + rest)
    ensures Run(d, [e] + rest) == Run(Step(d, e), rest)
  {
    assert ([e] + rest)[1..] == rest;
  }

  /** After the destructor every registration ever asked for has its request to unregister
      posted or run, so that what is said above about removed prefixes holds for all. */
  lemma {:induction false} DestructorUnregistersAll(d: Dispatcher, order: seq<Name>)
    requires RegInv(d) && forall p :: p in d.tops ==> p in order
    ensures var r := RemoveTopPrefixes(d, order);
            && RegInv(r) && Owners(r) == map[]
            && forall id :: 0 <= id < d.nextRegistration ==>
                 id in Undoing(r.posted) || UnregisterRan(id) in r.face.log
    decreases |order|
  {
    hide RemoveTopPrefix, Undoing;
    if order == [] {
      assert Owners(d) == map[];
      forall id | 0 <= id < d.nextRegistration
        ensures id in Undoing(d.posted) || UnregisterRan(id) in d.face.log
      {
        assert AskedFor(Owners(d), Undoing(d.posted), d.face.log, id);
      }
    } else {
      RemoveTopUnregisters(d, order[0]);
      hide RegInv, Owners;
      RemovesOne(d, order[0]);
      assert order == [order[0]] + order[1..];
      DestructorUnregistersAll(RemoveTopPrefix(d, order[0]), order[1..]);
    }
  }

  lemma RemovesOne(d: Dispatcher, prefix: Name)
    ensures RemoveTopPrefix(d, prefix).tops == d.tops - {prefix}
    ensures RemoveTopPrefix(d, prefix).nextRegistration == d.nextRegistration
  {
    if prefix in d.tops {
      var entry := d.tops[prefix];
      var d1 := if entry.wantRegister then PostOp(d, UnregisterPrefix(entry.registerPrefixId)) else d;
      UnsetFiltersBooks(d1, entry.interestFilters);
      hide Owners, Undoing;
    }
  }
}
