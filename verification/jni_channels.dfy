/** The face functions of the JNI layer: each opportunistic face that is up holds a global
    reference to the Java channel its packets are sent through. */
module JniChannels {
  import opened OppQueue
  import opened Tlv

  /** faces is the face table, channels the map of references, live the references that have
      been created and not deleted. faults counts uses and deletions of anything else. */
  datatype Jni = Jni(
    faces: map<nat, Opp>,
    channels: map<nat, nat>,
    live: set<nat>,
    nextRef: nat,
    faults: nat)

  const JNI_INITIAL := Jni(map[], map[], {}, 0, 0)

  /** Whether the channel found for a face is a live reference. */
  predicate ChannelLive(j: Jni, face: nat) {
    face in j.channels && j.channels[face] in j.live
  }

  /** performSend looks the channel up and calls its send method. */
  function UseChannel(j: Jni, face: nat): Jni {
    if ChannelLive(j, face) then j else j.(faults := j.faults + 1)
  }

  /** The transport moves to o'; if that handed a packet over, the channel was used. */
  function Moved(j: Jni, face: nat, o': Opp): Jni
    requires face in j.faces
  {
    var j' := if Transmits(j.faces[face], o') then UseChannel(j, face) else j;
    j'.(faces := j'.faces[face := o'])
  }

  predicate Transmits(o: Opp, o': Opp) {
    |o'.attempted| > |o.attempted|
  }

  function NewGlobalRef(j: Jni, face: nat): Jni {
    j.(channels := j.channels[face := j.nextRef], live := j.live + {j.nextRef}, nextRef := j.nextRef + 1)
  }

  function DeleteGlobalRef(j: Jni, face: nat): Jni {
    if ChannelLive(j, face) then j.(live := j.live - {j.channels[face]}) else j.(faults := j.faults + 1)
  }

  function BringUpFace(j: Jni, face: nat, canAllocate: bool): Jni {
    if face !in j.faces || j.faces[face].state != DOWN then j
    else Moved(NewGlobalRef(j, face), face, CommuteState(j.faces[face], UP, canAllocate))
  }

  /** The reference is deleted and stays in the map. */
  function BringDownFace(j: Jni, face: nat): Jni {
    if face !in j.faces || j.faces[face].state != UP then j
    else DeleteGlobalRef(Moved(j, face, CommuteState(j.faces[face], DOWN, true)), face)
  }

  datatype Call =
    | CreateFace(face: nat)
    | DestroyFace(face: nat)
    | BringUp(face: nat, canAllocate: bool)
    | BringDown(face: nat)
    | Send(face: nat, payload: Payload, canAllocate: bool)
    | SendComplete(face: nat, which: nat, succeeded: bool, canAllocate: bool)
    | PitEntryRemoved(face: nat, nonce: nat)

  /** Calls that name an unknown face change nothing. */
  function Apply(j: Jni, c: Call): Jni {
    match c
    case CreateFace(face) => if face in j.faces then j else j.(faces := j.faces[face := OPP_INITIAL])
    case DestroyFace(face) => j.(faces := j.faces - {face})
    case BringUp(face, canAllocate) => BringUpFace(j, face, canAllocate)
    case BringDown(face) => BringDownFace(j, face)
    case Send(face, payload, canAllocate) =>
      if face !in j.faces then j else Moved(j, face, DoSend(j.faces[face], payload, canAllocate))
    case SendComplete(face, which, succeeded, canAllocate) =>
      if face !in j.faces then j
      else Moved(j, face, Step(j.faces[face], EvReport(which, succeeded, canAllocate)))
    case PitEntryRemoved(face, nonce) =>
      if face !in j.faces then j else Moved(j, face, RemovePacket(j.faces[face], nonce))
  }

  // ---------------------------------------------------------------------
  // References over every interleaving of calls
  // ---------------------------------------------------------------------

  predicate IsUp(j: Jni, face: nat) {
    face in j.faces && j.faces[face].state == UP
  }

  /** Every face that is up has a live reference of its own, and nothing was ever used or
      deleted that was not live. */
  ghost predicate Safe(j: Jni) {
    && j.faults == 0
    && (forall f :: IsUp(j, f) ==> ChannelLive(j, f))
    && (forall f, g :: IsUp(j, f) && IsUp(j, g) && f != g ==> j.channels[f] != j.channels[g])
    && (forall r :: r in j.live ==> r < j.nextRef)
    && (forall f :: f in j.channels ==> j.channels[f] < j.nextRef)
  }

  /** Every live reference is that of a face that is up. */
  ghost predicate NoneLeaked(j: Jni) {
    forall r :: r in j.live ==> HeldByFace(j, r)
  }

  ghost predicate HeldByFace(j: Jni, r: nat) {
    exists f :: IsUp(j, f) && f in j.channels && j.channels[f] == r
  }

  /** A call that only moves a transport, and not up or down, keeps the references; it
      transmits only while the transport is up. */
  lemma MovedKeeps(j: Jni, face: nat, o': Opp)
    requires Safe(j) && face in j.faces && o'.state == j.faces[face].state
    requires Transmits(j.faces[face], o') ==> o'.state == UP
    ensures Safe(Moved(j, face, o')) && (NoneLeaked(Moved(j, face, o')) <==> NoneLeaked(j))
  {
    hide Transmits, HeldByFace;
    var r := Moved(j, face, o');
    assert IsUp(j, face) ==> ChannelLive(j, face);
    assert r == j.(faces := j.faces[face := o']);
    assert forall f :: IsUp(r, f) <==> IsUp(j, f);
    forall ref
      ensures HeldByFace(r, ref) <==> HeldByFace(j, ref)
    {
      SameHolders(j, r, ref);
    }
  }

  lemma SameHolders(j: Jni, r: Jni, ref: nat)
    requires r.channels == j.channels && forall f :: IsUp(r, f) <==> IsUp(j, f)
    ensures HeldByFace(r, ref) <==> HeldByFace(j, ref)
  {
  }

  lemma StepKeepsState(o: Opp, e: Event)
    requires !e.EvCommute?
    ensures Step(o, e).state == o.state
    ensures Transmits(o, Step(o, e)) ==> o.state == UP
  {
  }

  lemma BringUpKeeps(j: Jni, face: nat, canAllocate: bool)
    requires Safe(j)
    ensures Safe(BringUpFace(j, face, canAllocate))
    ensures NoneLeaked(j) ==> NoneLeaked(BringUpFace(j, face, canAllocate))
  {
    if face in j.faces && j.faces[face].state == DOWN {
      var o' := CommuteState(j.faces[face], UP, canAllocate);
      var r := BringUpFace(j, face, canAllocate);
      assert ChannelLive(NewGlobalRef(j, face), face);
      assert o'.state == UP && r == NewGlobalRef(j, face).(faces := j.faces[face := o']);
      hide BringUpFace, CommuteState;
      NewReferenceOwned(j, face, r);
    }
  }

  lemma NewReferenceOwned(j: Jni, face: nat, r: Jni)
    requires Safe(j) && face in j.faces && j.faces[face].state == DOWN
    requires face in r.faces && r.faces[face].state == UP
    requires r == NewGlobalRef(j, face).(faces := j.faces[face := r.faces[face]])
    ensures Safe(r) && (NoneLeaked(j) ==> NoneLeaked(r))
  {
    hide HeldByFace;
    assert forall f :: IsUp(r, f) <==> IsUp(j, f) || f == face;
    assert forall f :: f in j.channels && f != face ==> r.channels[f] == j.channels[f];
    forall ref | NoneLeaked(j) && ref in r.live
      ensures HeldByFace(r, ref)
    {
      if ref == j.nextRef {
        Holds(r, face, ref);
      } else {
        assert HeldByFace(j, ref);
        var f := Holder(j, ref);
        Holds(r, f, ref);
      }
    }
  }

  lemma Holds(j: Jni, face: nat, ref: nat)
    requires IsUp(j, face) && face in j.channels && j.channels[face] == ref
    ensures HeldByFace(j, ref)
  {
  }

  lemma Holder(j: Jni, ref: nat) returns (face: nat)
    requires HeldByFace(j, ref)
    ensures IsUp(j, face) && face in j.channels && j.channels[face] == ref
  {
    face :| IsUp(j, face) && face in j.channels && j.channels[face] == ref;
  }

  /** Taking a face that is up away without its reference keeps the others safe. */
  lemma BringDownKeeps(j: Jni, face: nat)
    requires Safe(j)
    ensures Safe(BringDownFace(j, face))
    ensures NoneLeaked(j) ==> NoneLeaked(BringDownFace(j, face))
  {
    if face in j.faces && j.faces[face].state == UP {
      assert IsUp(j, face);
      var r := BringDownFace(j, face);
      assert r == j.(faces := j.faces[face := j.faces[face].(state := DOWN)], live := j.live - {j.channels[face]});
      assert forall f :: IsUp(r, f) <==> IsUp(j, f) && f != face;
      hide BringDownFace, HeldByFace;
      forall ref | NoneLeaked(j) && ref in r.live
        ensures HeldByFace(r, ref)
      {
        assert HeldByFace(j, ref);
        var f := Holder(j, ref);
        Holds(r, f, ref);
      }
    }
  }

  /** The face goes, and its reference stays behind if it was up. */
  lemma DestroyKeeps(j: Jni, face: nat)
    requires Safe(j)
    ensures var r := Apply(j, DestroyFace(face));
            Safe(r) && (NoneLeaked(j) ==> (NoneLeaked(r) <==> !IsUp(j, face)))
  {
    var r := Apply(j, DestroyFace(face));
    assert forall f :: IsUp(r, f) <==> IsUp(j, f) && f != face;
    hide HeldByFace;
    if IsUp(j, face) {
      var ref := j.channels[face];
      assert ref in r.live;
      HeldByNoOther(j, r, face);
    } else {
      forall ref
        ensures HeldByFace(r, ref) <==> HeldByFace(j, ref)
      {
        SameHolders(j, r, ref);
      }
    }
  }

  lemma HeldByNoOther(j: Jni, r: Jni, face: nat)
    requires Safe(j) && IsUp(j, face) && r.channels == j.channels
    requires forall f :: IsUp(r, f) ==> IsUp(j, f) && f != face
    ensures !HeldByFace(r, j.channels[face])
  {
  }

  lemma CreateKeeps(j: Jni, face: nat)
    requires Safe(j)
    ensures var r := Apply(j, CreateFace(face)); Safe(r) && (NoneLeaked(r) <==> NoneLeaked(j))
  {
    hide HeldByFace;
    var r := Apply(j, CreateFace(face));
    assert forall f :: IsUp(r, f) <==> IsUp(j, f);
    forall ref
      ensures HeldByFace(r, ref) <==> HeldByFace(j, ref)
    {
      SameHolders(j, r, ref);
    }
  }

  /** Every call keeps the references safe. */
  lemma ApplyKeepsSafe(j: Jni, c: Call)
    requires Safe(j)
    ensures Safe(Apply(j, c))
    ensures NoneLeaked(j) ==> (NoneLeaked(Apply(j, c)) <==> !(c.DestroyFace? && IsUp(j, c.face)))
  {
    hide Safe, NoneLeaked, Moved, Step, DoSend, RemovePacket, BringUpFace, BringDownFace, Transmits;
    match c
    case CreateFace(face) => CreateKeeps(j, face);
    case DestroyFace(face) => DestroyKeeps(j, face);
    case BringUp(face, canAllocate) => BringUpKeeps(j, face, canAllocate);
    case BringDown(face) => BringDownKeeps(j, face);
    case Send(face, payload, canAllocate) =>
      if face in j.faces {
        StepKeepsState(j.faces[face], EvSend(payload, canAllocate));
        StepIsSend(j.faces[face], payload, canAllocate);
        MovedKeeps(j, face, DoSend(j.faces[face], payload, canAllocate));
      }
    case SendComplete(face, which, succeeded, canAllocate) =>
      if face in j.faces {
        StepKeepsState(j.faces[face], EvReport(which, succeeded, canAllocate));
        MovedKeeps(j, face, Step(j.faces[face], EvReport(which, succeeded, canAllocate)));
      }
    case PitEntryRemoved(face, nonce) =>
      if face in j.faces {
        RemoveKeepsState(j.faces[face], nonce);
        MovedKeeps(j, face, RemovePacket(j.faces[face], nonce));
      }
  }

  lemma StepIsSend(o: Opp, payload: Payload, canAllocate: bool)
    ensures Step(o, EvSend(payload, canAllocate)) == DoSend(o, payload, canAllocate)
  {
  }

  lemma RemoveKeepsState(o: Opp, nonce: nat)
    ensures RemovePacket(o, nonce).state == o.state && !Transmits(o, RemovePacket(o, nonce))
  {
  }

  function ApplyAll(j: Jni, calls: seq<Call>): Jni
    decreases |calls|
  {
    if calls == [] then j else ApplyAll(Apply(j, calls[0]), calls[1..])
  }

  /** No face is destroyed while it is up. */
  predicate DownBeforeDestroyed(j: Jni, calls: seq<Call>)
    decreases |calls|
  {
    calls != [] ==>
      && !(calls[0].DestroyFace? && IsUp(j, calls[0].face))
      && DownBeforeDestroyed(Apply(j, calls[0]), calls[1..])
  }

  lemma {:induction false} ApplyAllKeeps(j: Jni, calls: seq<Call>)
    requires Safe(j)
    ensures Safe(ApplyAll(j, calls))
    ensures NoneLeaked(j) && DownBeforeDestroyed(j, calls) ==> NoneLeaked(ApplyAll(j, calls))
    decreases |calls|
  {
    hide Safe, NoneLeaked, Apply, IsUp;
    if calls != [] {
      ApplyKeepsSafe(j, calls[0]);
      ApplyAllKeeps(Apply(j, calls[0]), calls[1..]);
    }
  }

  /** Over any interleaving of calls, every face that is up has its own live reference and no
      reference is deleted twice or used after its deletion. If no face is destroyed while it
      is up, every live reference belongs to a face that is up. */
  lemma ChannelReferences(calls: seq<Call>)
    ensures Safe(ApplyAll(JNI_INITIAL, calls))
    ensures DownBeforeDestroyed(JNI_INITIAL, calls) ==> NoneLeaked(ApplyAll(JNI_INITIAL, calls))
  {
    ApplyAllKeeps(JNI_INITIAL, calls);
  }

  // ---------------------------------------------------------------------
  // What the calls tell
  // ---------------------------------------------------------------------

  /** The transport of one face as the calls that name the face tell it; None if there is no
      such face. */
  function Heard(o: Option<Opp>, face: nat, c: Call): Option<Opp> {
    if c.face != face then o
    else if o.None? then (if c.CreateFace? then Some(OPP_INITIAL) else None)
    else
      match c
      case CreateFace(_) => o
      case DestroyFace(_) => None
      case BringUp(_, canAllocate) =>
        if o.value.state == DOWN then Some(Step(o.value, EvCommute(UP, canAllocate))) else o
      case BringDown(_) => if o.value.state == UP then Some(Step(o.value, EvCommute(DOWN, true))) else o
      case Send(_, payload, canAllocate) => Some(Step(o.value, EvSend(payload, canAllocate)))
      case SendComplete(_, which, succeeded, canAllocate) =>
        Some(Step(o.value, EvReport(which, succeeded, canAllocate)))
      case PitEntryRemoved(_, nonce) => Some(Step(o.value, EvRemove(nonce)))
  }

  function HeardAll(o: Option<Opp>, face: nat, calls: seq<Call>): Option<Opp>
    decreases |calls|
  {
    if calls == [] then o else HeardAll(Heard(o, face, calls[0]), face, calls[1..])
  }

  function TransportOf(j: Jni, face: nat): Option<Opp> {
    if face in j.faces then Some(j.faces[face]) else None
  }

  lemma ApplyHeard(j: Jni, c: Call, face: nat)
    ensures TransportOf(Apply(j, c), face) == Heard(TransportOf(j, face), face, c)
  {
    hide DoSend, RemovePacket, CommuteState, OnSendComplete, Answer, Transmits;
  }

  lemma {:induction false} RunHeard(j: Jni, calls: seq<Call>, face: nat)
    ensures TransportOf(ApplyAll(j, calls), face) == HeardAll(TransportOf(j, face), face, calls)
    decreases |calls|
  {
    hide Apply, Heard, TransportOf;
    if calls != [] {
      ApplyHeard(j, calls[0], face);
      RunHeard(Apply(j, calls[0]), calls[1..], face);
    }
  }

  /** Over any interleaving of calls each face is as the calls that name it left it: a call
      moves its own transport, and no other. */
  lemma FacesAreSeparate(calls: seq<Call>, face: nat)
    ensures TransportOf(ApplyAll(JNI_INITIAL, calls), face) == HeardAll(None, face, calls)
  {
    RunHeard(JNI_INITIAL, calls, face);
  }

  /** A packet handed over, or a reference deleted, without a live reference is counted. */
  lemma CountsDeadReferences(j: Jni, face: nat, o': Opp)
    ensures var dead := if face in j.channels && j.channels[face] in j.live then 0 else 1;
            && DeleteGlobalRef(j, face).faults == j.faults + dead
            && (face in j.faces ==>
                  Moved(j, face, o').faults
                  == j.faults + if |o'.attempted| > |j.faces[face].attempted| then dead else 0)
  {
  }

  // ---------------------------------------------------------------------
  // The JNI layer as an object
  // ---------------------------------------------------------------------

  class NfdJni {
    var faces: map<nat, Opp>
    var opportunisticChannels: map<nat, nat>
    var live: set<nat>
    var nextRef: nat
    var faults: nat

    function View(): Jni
      reads this
    {
      Jni(faces, opportunisticChannels, live, nextRef, faults)
    }

    constructor ()
      ensures Safe(View()) && NoneLeaked(View()) && View() == JNI_INITIAL
    {
      faces, opportunisticChannels, live, nextRef, faults := map[], map[], {}, 0, 0;
    }

    method Delete(face: nat)
      modifies this`live, this`faults
      ensures View() == DeleteGlobalRef(old(View()), face)
    {
      if face in opportunisticChannels && opportunisticChannels[face] in live {
        live := live - {opportunisticChannels[face]};
      } else {
        faults := faults + 1;
      }
    }

    /** performSend: the channel that is found is sent through, live or not. */
    method Use(face: nat)
      modifies this`faults
      ensures View() == UseChannel(old(View()), face)
    {
      if !(face in opportunisticChannels && opportunisticChannels[face] in live) {
        faults := faults + 1;
      }
    }

    /** The transport moves, and uses the channel if it hands a packet over. */
    method Move(face: nat, o': Opp)
      requires face in faces
      modifies this`faces, this`faults
      ensures View() == Moved(old(View()), face, o')
    {
      if |o'.attempted| > |faces[face].attempted| {
        Use(face);
      }
      faces := faces[face := o'];
    }

    method JniBringUpFace(face: nat, canAllocate: bool)
      requires Safe(View())
      modifies this
      ensures Safe(View()) && View() == BringUpFace(old(View()), face, canAllocate)
      ensures old(NoneLeaked(View())) ==> NoneLeaked(View())
    {
      BringUpKeeps(View(), face, canAllocate);
      hide Safe, NoneLeaked;
      if face in faces && faces[face].state == DOWN {
        opportunisticChannels := opportunisticChannels[face := nextRef];
        live := live + {nextRef};
        nextRef := nextRef + 1;
        Move(face, CommuteState(faces[face], UP, canAllocate));
      }
    }

    method JniBringDownFace(face: nat)
      requires Safe(View())
      modifies this
      ensures Safe(View()) && View() == BringDownFace(old(View()), face)
      ensures old(NoneLeaked(View())) ==> NoneLeaked(View())
    {
      BringDownKeeps(View(), face);
      hide NoneLeaked;
      if face in faces && faces[face].state == UP {
        assert IsUp(View(), face);
        Move(face, CommuteState(faces[face], DOWN, true));
        Delete(face);
      }
    }

    /** The reference to the channel is not deleted. */
    method JniDestroyFace(face: nat)
      requires Safe(View())
      modifies this
      ensures Safe(View()) && View() == Apply(old(View()), DestroyFace(face))
      ensures old(NoneLeaked(View())) ==> (NoneLeaked(View()) <==> !old(IsUp(View(), face)))
    {
      ApplyKeepsSafe(View(), DestroyFace(face));
      hide Safe, NoneLeaked;
      faces := faces - {face};
    }

    method JniSendComplete(face: nat, which: nat, succeeded: bool, canAllocate: bool)
      requires Safe(View())
      modifies this
      ensures Safe(View()) && View() == Apply(old(View()), SendComplete(face, which, succeeded, canAllocate))
      ensures old(NoneLeaked(View())) ==> NoneLeaked(View())
    {
      ApplyKeepsSafe(View(), SendComplete(face, which, succeeded, canAllocate));
      hide NoneLeaked;
      if face in faces {
        var e := EvReport(which, succeeded, canAllocate);
        StepKeepsState(faces[face], e);
        assert IsUp(View(), face) ==> ChannelLive(View(), face);
        Move(face, Step(faces[face], e));
      }
    }
  }
}
