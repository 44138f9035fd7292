/** Signal: a list of slots that emission walks while the handlers may connect new handlers
    and disconnect themselves. */
module Signal {
  import opened Tlv

  /** connected is false once the slot's disconnect function is gone: then every Connection
      to it has expired and cannot disconnect it. */
  datatype Slot = Slot(id: nat, handler: nat, singleShot: bool, connected: bool)

  /** What a handler does to the signal while it is called. */
  datatype Action = Connect(handler: nat) | ConnectSingleShot(handler: nat) | DisconnectSelf

  datatype Behaviour = Behaviour(actions: seq<Action>, throws: bool)

  /** Handlers may do anything, and something else at each emission. */
  type Emission = nat -> Behaviour

  // ---------------------------------------------------------------------
  // What one emission comes to
  // ---------------------------------------------------------------------

  /** The slots that a handler's actions connect, in order, with ids from n on. */
  function Fresh(actions: seq<Action>, n: nat): seq<Slot> {
    if actions == [] then []
    else
      var before := Fresh(actions[..|actions| - 1], n);
      match actions[|actions| - 1]
      case Connect(h) => before + [Slot(n + |before|, h, false, true)]
      case ConnectSingleShot(h) => before + [Slot(n + |before|, h, true, true)]
      case DisconnectSelf => before
  }

  lemma FreshNext(actions: seq<Action>, k: nat, n: nat)
    requires k < |actions|
    ensures var before := Fresh(actions[..k], n);
            Fresh(actions[..k + 1], n) ==
              match actions[k]
              case Connect(h) => before + [Slot(n + |before|, h, false, true)]
              case ConnectSingleShot(h) => before + [Slot(n + |before|, h, true, true)]
              case DisconnectSelf => before
    ensures DisconnectSelf in actions[..k + 1] <==> DisconnectSelf in actions[..k] || actions[k].DisconnectSelf?
  {
    assert actions[..k + 1][..k] == actions[..k];
    assert actions[..k + 1] == actions[..k] + [actions[k]];
  }

  /** The slots of front, the one at it connected or not, and then the new ones. */
  function WithFresh(front: seq<Slot>, it: nat, connected: bool, added: seq<Slot>): seq<Slot>
    requires it < |front|
  {
    front[it := front[it].(connected := connected)] + added
  }

  lemma WithFreshAt(front: seq<Slot>, it: nat, connected: bool, added: seq<Slot>)
    requires it < |front|
    ensures var s := WithFresh(front, it, connected, added);
            && it < |s| && s[it] == front[it].(connected := connected)
            && s[it := s[it].(connected := false)] == WithFresh(front, it, false, added)
  {
  }

  /** What one action of the handler at it does to the slots. */
  function AfterAction(slots: seq<Slot>, it: nat, a: Action, n: nat): seq<Slot>
    requires it < |slots|
  {
    match a
    case Connect(h) => slots + [Slot(n, h, false, true)]
    case ConnectSingleShot(h) => slots + [Slot(n, h, true, true)]
    case DisconnectSelf => slots[it := slots[it].(connected := false)]
  }

  lemma ActionFollows(front: seq<Slot>, it: nat, connected: bool, actions: seq<Action>, k: nat, n: nat)
    requires it < |front| && k < |actions|
    ensures var added := Fresh(actions[..k], n);
            var s := WithFresh(front, it, connected, added);
            && it < |s|
            && AfterAction(s, it, actions[k], n + |added|)
               == WithFresh(front, it, connected && !actions[k].DisconnectSelf?, Fresh(actions[..k + 1], n))
            && |Fresh(actions[..k + 1], n)| == |added| + (if actions[k].DisconnectSelf? then 0 else 1)
  {
    hide Fresh;
    FreshNext(actions, k, n);
    WithFreshAt(front, it, connected, Fresh(actions[..k], n));
  }

  lemma WithFreshIs(front: seq<Slot>, it: nat, connected: bool, added: seq<Slot>)
    requires it < |front|
    ensures WithFresh(front, it, connected, added) == front[it := front[it].(connected := connected)] + added
  {
  }

  lemma ActionsStart(front: seq<Slot>, it: nat, actions: seq<Action>, n: nat)
    requires it < |front|
    ensures Fresh(actions[..0], n) == [] && WithFresh(front, it, front[it].connected, []) == front
  {
  }

  function Added(slots: seq<Slot>, behave: Emission, n: nat): seq<Slot> {
    if slots == [] then []
    else
      var before := Added(slots[..|slots| - 1], behave, n);
      before + Fresh(behave(slots[|slots| - 1].id).actions, n + |before|)
  }

  /** A slot goes when its handler disconnects itself, or is single-shot and returns. */
  predicate Sheds(slot: Slot, b: Behaviour) {
    slot.connected && (DisconnectSelf in b.actions || (slot.singleShot && !b.throws))
  }

  function Survivors(slots: seq<Slot>, behave: Emission): seq<Slot> {
    if slots == [] then []
    else
      var slot := slots[|slots| - 1];
      Survivors(slots[..|slots| - 1], behave) + (if Sheds(slot, behave(slot.id)) then [] else [slot])
  }

  /** The position of the first handler that throws, or the number of slots. */
  function Thrower(slots: seq<Slot>, behave: Emission): (t: nat)
    ensures t <= |slots|
    ensures forall k :: 0 <= k < t ==> !behave(slots[k].id).throws
    ensures t < |slots| ==> behave(slots[t].id).throws
  {
    if slots == [] || behave(slots[0].id).throws then 0 else 1 + Thrower(slots[1..], behave)
  }

  function AfterThrow(slot: Slot, b: Behaviour): Slot {
    if DisconnectSelf in b.actions then slot.(connected := false) else slot
  }

  /** The slots after an emission. */
  function Emitted(slots: seq<Slot>, behave: Emission, n: nat): seq<Slot> {
    var t := Thrower(slots, behave);
    if t == |slots| then Survivors(slots, behave) + Added(slots, behave, n)
    else
      Survivors(slots[..t], behave) + [AfterThrow(slots[t], behave(slots[t].id))] + slots[t + 1..]
      + Added(slots[..t + 1], behave, n)
  }

  /** The handlers an emission runs: all that were there, or those up to the thrower. */
  function Ran(slots: seq<Slot>, behave: Emission): seq<Slot> {
    var t := Thrower(slots, behave);
    if t == |slots| then slots else slots[..t + 1]
  }

  // ---------------------------------------------------------------------
  // The signal object
  // ---------------------------------------------------------------------

  ghost predicate Ordered(slots: seq<Slot>, n: nat) {
    && (forall i, j :: 0 <= i < j < |slots| ==> slots[i].id < slots[j].id)
    && (forall i :: 0 <= i < |slots| ==> slots[i].id < n)
  }

  function Find(slots: seq<Slot>, id: nat): (i: nat)
    ensures i <= |slots|
    ensures i < |slots| ==> slots[i].id == id
    ensures i == |slots| ==> forall k :: 0 <= k < |slots| ==> slots[k].id != id
  {
    if slots == [] || slots[0].id == id then 0 else 1 + Find(slots[1..], id)
  }

  function Without(slots: seq<Slot>, i: nat): seq<Slot>
    requires i < |slots|
  {
    slots[..i] + slots[i + 1..]
  }

  function Disconnected(slots: seq<Slot>, id: nat): seq<Slot> {
    var i := Find(slots, id);
    if i < |slots| && slots[i].connected then Without(slots, i) else slots
  }

  /** The list after the handler at it has been called and before its slot is erased. */
  function Called(slots: seq<Slot>, it: nat, b: Behaviour, n: nat): seq<Slot>
    requires it < |slots|
  {
    slots[it := slots[it].(connected := slots[it].connected && !Sheds(slots[it], b))] + Fresh(b.actions, n)
  }

  /** The list after one round: the slot is erased if the handler returned with it gone. */
  function Round(slots: seq<Slot>, it: nat, b: Behaviour, n: nat): seq<Slot>
    requires it < |slots|
  {
    if !b.throws && Sheds(slots[it], b) then Without(Called(slots, it, b, n), it) else Called(slots, it, b, n)
  }

  function NextIt(slot: Slot, it: nat, b: Behaviour): nat {
    if Sheds(slot, b) then it else it + 1
  }

  /** After k handlers: the survivors among them, the slots still to run, the new ones. */
  ghost predicate Midway(initial: seq<Slot>, behave: Emission, n: nat, k: nat, slots: seq<Slot>, it: nat, n': nat)
    requires k <= |initial|
  {
    && slots == Survivors(initial[..k], behave) + initial[k..] + Added(initial[..k], behave, n)
    && it == |Survivors(initial[..k], behave)|
    && n' == n + |Added(initial[..k], behave, n)|
  }

  ghost predicate AllReturn(slots: seq<Slot>, behave: Emission) {
    forall j :: 0 <= j < |slots| ==> !behave(slots[j].id).throws
  }

  lemma AllReturnExtends(initial: seq<Slot>, behave: Emission, k: nat)
    requires k < |initial| && AllReturn(initial[..k], behave) && !behave(initial[k].id).throws
    ensures AllReturn(initial[..k + 1], behave)
  {
    assert initial[..k + 1] == initial[..k] + [initial[k]];
  }

  lemma SplitAround(a: seq<Slot>, x: Slot, x': Slot, c: seq<Slot>, d: seq<Slot>, f: seq<Slot>)
    ensures var s := a + ([x] + c) + d;
            && s[|a|] == x
            && s[|a| := x'] + f == a + [x'] + c + (d + f)
            && Without(s[|a| := x'] + f, |a|) == a + c + (d + f)
  {
  }

  lemma UnfoldSurvivors(initial: seq<Slot>, behave: Emission, k: nat)
    requires k < |initial|
    ensures Survivors(initial[..k + 1], behave)
            == Survivors(initial[..k], behave)
               + (if Sheds(initial[k], behave(initial[k].id)) then [] else [initial[k]])
  {
    assert initial[..k + 1][..k] == initial[..k];
  }

  lemma UnfoldAdded(initial: seq<Slot>, behave: Emission, n: nat, k: nat)
    requires k < |initial|
    ensures var d := Added(initial[..k], behave, n);
            Added(initial[..k + 1], behave, n) == d + Fresh(behave(initial[k].id).actions, n + |d|)
  {
    assert initial[..k + 1][..k] == initial[..k];
  }

  lemma RoundReturning(a: seq<Slot>, x: Slot, b: Behaviour, c: seq<Slot>, d: seq<Slot>, n: nat)
    requires !b.throws
    ensures var slots, a' := a + ([x] + c) + d, a + (if Sheds(x, b) then [] else [x]);
            && slots[|a|] == x
            && Round(slots, |a|, b, n) == a' + c + (d + Fresh(b.actions, n))
            && NextIt(x, |a|, b) == |a'|
  {
    hide Fresh;
    SplitAround(a, x, x.(connected := x.connected && !Sheds(x, b)), c, d, Fresh(b.actions, n));
    if !Sheds(x, b) {
      assert a + [] == a;
    }
  }

  lemma RoundReturns(initial: seq<Slot>, behave: Emission, n: nat, k: nat, slots: seq<Slot>, it: nat, n': nat)
    requires k < |initial| && Midway(initial, behave, n, k, slots, it, n')
    requires !behave(initial[k].id).throws
    ensures it < |slots| && slots[it] == initial[k]
    ensures var b := behave(initial[k].id);
            Midway(initial, behave, n, k + 1, Round(slots, it, b, n'), NextIt(initial[k], it, b),
                   n' + |Fresh(b.actions, n')|)
  {
    hide *;
    MidwayParts(initial, behave, n, k, slots, it, n');
    UnfoldSurvivors(initial, behave, k);
    UnfoldAdded(initial, behave, n, k);
    var b, d := behave(initial[k].id), Added(initial[..k], behave, n);
    RoundReturning(Survivors(initial[..k], behave), initial[k], b, initial[k + 1..], d, n');
    MidwayIntro(initial, behave, n, k + 1, Round(slots, it, b, n'), NextIt(initial[k], it, b),
                n' + |Fresh(b.actions, n')|);
  }

  lemma MidwayIntro(initial: seq<Slot>, behave: Emission, n: nat, k: nat, slots: seq<Slot>, it: nat, n': nat)
    requires k <= |initial|
    requires slots == Survivors(initial[..k], behave) + initial[k..] + Added(initial[..k], behave, n)
    requires it == |Survivors(initial[..k], behave)| && n' == n + |Added(initial[..k], behave, n)|
    ensures Midway(initial, behave, n, k, slots, it, n')
  {
  }

  lemma EmittedThrow(initial: seq<Slot>, behave: Emission, n: nat, k: nat)
    requires k < |initial| && behave(initial[k].id).throws
    requires AllReturn(initial[..k], behave)
    ensures Thrower(initial, behave) == k
    ensures Emitted(initial, behave, n) ==
              Survivors(initial[..k], behave) + [AfterThrow(initial[k], behave(initial[k].id))] + initial[k + 1..]
              + Added(initial[..k + 1], behave, n)
    ensures Ran(initial, behave) == initial[..k + 1]
  {
    hide Survivors, Added, AfterThrow;
    ThrowerIsFirst(initial, behave, k);
  }

  lemma {:induction false} ThrowerIsFirst(slots: seq<Slot>, behave: Emission, k: nat)
    requires k < |slots| && behave(slots[k].id).throws && AllReturn(slots[..k], behave)
    ensures Thrower(slots, behave) == k
    decreases |slots|
  {
    if k > 0 {
      assert slots[..k][0] == slots[0] && slots[..k][1..] == slots[1..][..k - 1];
      ThrowerIsFirst(slots[1..], behave, k - 1);
    }
  }

  lemma RoundThrowing(a: seq<Slot>, x: Slot, b: Behaviour, c: seq<Slot>, d: seq<Slot>, n: nat)
    requires b.throws
    ensures var slots := a + ([x] + c) + d;
            && slots[|a|] == x
            && Round(slots, |a|, b, n) == a + [AfterThrow(x, b)] + c + (d + Fresh(b.actions, n))
  {
    hide Fresh;
    SplitAround(a, x, AfterThrow(x, b), c, d, Fresh(b.actions, n));
  }

  lemma RoundThrows(initial: seq<Slot>, behave: Emission, n: nat, k: nat, slots: seq<Slot>, it: nat, n': nat)
    requires k < |initial| && Midway(initial, behave, n, k, slots, it, n')
    requires behave(initial[k].id).throws && AllReturn(initial[..k], behave)
    ensures it < |slots| && slots[it] == initial[k]
    ensures Thrower(initial, behave) == k && Ran(initial, behave) == initial[..k + 1]
    ensures Round(slots, it, behave(initial[k].id), n') == Emitted(initial, behave, n)
  {
    hide *;
    MidwayParts(initial, behave, n, k, slots, it, n');
    EmittedThrow(initial, behave, n, k);
    UnfoldAdded(initial, behave, n, k);
    RoundThrowing(Survivors(initial[..k], behave), initial[k], behave(initial[k].id), initial[k + 1..],
                Added(initial[..k], behave, n), n');
  }

  lemma MidwayParts(initial: seq<Slot>, behave: Emission, n: nat, k: nat, slots: seq<Slot>, it: nat, n': nat)
    requires k < |initial| && Midway(initial, behave, n, k, slots, it, n')
    ensures slots == Survivors(initial[..k], behave) + ([initial[k]] + initial[k + 1..]) + Added(initial[..k], behave, n)
    ensures it == |Survivors(initial[..k], behave)| && n' == n + |Added(initial[..k], behave, n)|
  {
    hide Survivors, Added;
    assert initial[k..] == [initial[k]] + initial[k + 1..];
  }

  lemma {:induction false} FreshIds(actions: seq<Action>, n: nat)
    ensures forall i :: 0 <= i < |Fresh(actions, n)| ==> Fresh(actions, n)[i].id == n + i
  {
    if actions != [] {
      FreshIds(actions[..|actions| - 1], n);
    }
  }

  lemma CalledOrdered(slots: seq<Slot>, it: nat, b: Behaviour, n: nat)
    requires it < |slots| && Ordered(slots, n)
    ensures Ordered(Called(slots, it, b, n), n + |Fresh(b.actions, n)|)
  {
    hide Fresh;
    FreshIds(b.actions, n);
  }

  lemma WithoutOrdered(slots: seq<Slot>, i: nat, n: nat)
    requires i < |slots| && Ordered(slots, n)
    ensures Ordered(Without(slots, i), n)
  {
  }

  /** Only the last slot of the initial list has the id of the last slot. */
  lemma LastIsLast(initial: seq<Slot>, n: nat, k: nat)
    requires Ordered(initial, n) && k < |initial|
    ensures initial[k].id == initial[|initial| - 1].id <==> k + 1 == |initial|
  {
  }

  class Signal {
    var slots: seq<Slot>
    var isExecuting: bool
    var currentSlot: Option<nat>   // None stands for the end of the list
    var nextId: nat

    ghost predicate Valid()
      reads this
    {
      !isExecuting && Ordered(slots, nextId)
    }

    constructor ()
      ensures Valid() && slots == [] && nextId == 0
    {
      slots, isExecuting, currentSlot, nextId := [], false, None, 0;
    }

    method Add(handler: nat, singleShot: bool) returns (id: nat)
      modifies this`slots, this`nextId
      ensures id == old(nextId) && nextId == old(nextId) + 1
      ensures slots == old(slots) + [Slot(id, handler, singleShot, true)]
      ensures (slots, nextId) == Apply(old(slots), old(nextId), Attach(handler, singleShot))
    {
      id := nextId;
      slots := slots + [Slot(id, handler, singleShot, true)];
      nextId := nextId + 1;
    }

    /** Signal::disconnect. While executing, only the current slot may be disconnected. */
    method Disconnect(it: nat)
      requires it < |slots|
      requires isExecuting ==> currentSlot == Some(slots[it].id)
      modifies this`slots, this`currentSlot
      ensures old(isExecuting) ==>
                currentSlot == None && slots == old(slots[it := slots[it].(connected := false)])
      ensures !old(isExecuting) ==> slots == Without(old(slots), it) && currentSlot == old(currentSlot)
    {
      if isExecuting {
        currentSlot := None;
        slots := slots[it := slots[it].(connected := false)];
      } else {
        slots := Without(slots, it);
      }
    }

    /** Connection::disconnect from outside an emission: nothing happens when the slot is
        gone or its disconnect function has expired. */
    method DisconnectConnection(id: nat)
      requires Valid()
      modifies this
      ensures Valid() && nextId == old(nextId)
      ensures slots == Disconnected(old(slots), id)
    {
      var i := Find(slots, id);
      if i < |slots| && slots[i].connected {
        Disconnect(i);
      }
    }

    method IsEmpty() returns (empty: bool)
      ensures empty <==> !isExecuting && slots == []
    {
      empty := !isExecuting && slots == [];
    }

    method RunAction(it: nat, action: Action)
      requires isExecuting && it < |slots| && (slots[it].connected ==> currentSlot == Some(slots[it].id))
      modifies this`slots, this`currentSlot, this`nextId
      ensures slots == AfterAction(old(slots), it, action, old(nextId))
      ensures currentSlot == if action.DisconnectSelf? && old(slots[it]).connected then None else old(currentSlot)
      ensures nextId == old(nextId) + if action.DisconnectSelf? then 0 else 1
    {
      match action
      case Connect(h) =>
        var _ := Add(h, false);
      case ConnectSingleShot(h) =>
        var _ := Add(h, true);
      case DisconnectSelf =>
        if slots[it].connected {
          Disconnect(it);
        } else {
          assert slots[it := slots[it].(connected := false)] == slots;
        }
    }

    /** The actions of the handler of the current slot. */
    method RunActions(it: nat, actions: seq<Action>)
      requires isExecuting && it < |slots| && currentSlot == Some(slots[it].id)
      modifies this`slots, this`currentSlot, this`nextId
      ensures var slot, gone := old(slots[it]), old(slots[it]).connected && DisconnectSelf in actions;
              && slots == old(slots)[it := slot.(connected := slot.connected && !gone)] + Fresh(actions, old(nextId))
              && currentSlot == (if gone then None else Some(slot.id))
      ensures nextId == old(nextId) + |Fresh(actions, old(nextId))|
    {
      ghost var front, n, slot := slots, nextId, slots[it];
      ghost var connected := slot.connected;
      hide Fresh, WithFresh, AfterAction;
      ActionsStart(front, it, actions, n);
      for k := 0 to |actions|
        invariant it < |slots| && slots[it] == slot.(connected := connected)
        invariant connected <==> slot.connected && DisconnectSelf !in actions[..k]
        invariant slots == WithFresh(front, it, connected, Fresh(actions[..k], n))
        invariant currentSlot == (if slot.connected && !connected then None else Some(slot.id))
        invariant nextId == n + |Fresh(actions[..k], n)|
      {
        ActionFollows(front, it, connected, actions, k, n);
        assert actions[..k + 1] == actions[..k] + [actions[k]];
        RunAction(it, actions[k]);
        connected := connected && !actions[k].DisconnectSelf?;
        WithFreshAt(front, it, connected, Fresh(actions[..k + 1], n));
      }
      assert actions[..|actions|] == actions;
      assert slots == front[it := front[it].(connected := connected)] + Fresh(actions, n) by {
        WithFreshIs(front, it, connected, Fresh(actions, n));
      }
    }

    /** The handler of the current slot runs; the wrapper of a single-shot handler
        disconnects its own connection if the handler returns. */
    method CallHandler(it: nat, b: Behaviour)
      requires isExecuting && it < |slots| && currentSlot == Some(slots[it].id)
      modifies this`slots, this`currentSlot, this`nextId
      ensures slots == Called(old(slots), it, b, old(nextId))
      ensures currentSlot == (if Sheds(old(slots[it]), b) then None else Some(old(slots[it].id)))
      ensures nextId == old(nextId) + |Fresh(b.actions, old(nextId))|
    {
      hide Fresh;
      RunActions(it, b.actions);
      if !b.throws && slots[it].singleShot && slots[it].connected {
        Disconnect(it);
      }
    }

    /** One round of the emission loop: call the handler, then erase its slot if it was
        disconnected meanwhile, else step over it. */
    method RunSlot(it: nat, b: Behaviour) returns (next: nat)
      requires isExecuting && it < |slots| && Ordered(slots, nextId)
      modifies this
      ensures isExecuting && Ordered(slots, nextId)
      ensures nextId == old(nextId) + |Fresh(b.actions, old(nextId))|
      ensures slots == Round(old(slots), it, b, old(nextId))
      ensures !b.throws ==> next == NextIt(old(slots[it]), it, b)
    {
      hide Fresh, Sheds;
      CalledOrdered(slots, it, b, nextId);
      currentSlot := Some(slots[it].id);
      CallHandler(it, b);
      next := it;
      if b.throws {
        return;
      }
      if currentSlot == None {
        WithoutOrdered(slots, it, nextId);
        slots := Without(slots, it);
      } else {
        next := it + 1;
      }
    }

    /** operator(): the last slot is fixed before the first handler runs. */
    method Emit(behave: Emission) returns (ran: seq<Slot>, thrown: bool)
      requires Valid()
      modifies this
      ensures Valid()
      ensures ran == Ran(old(slots), behave)
      ensures thrown <==> Thrower(old(slots), behave) < |old(slots)|
      ensures slots == Emitted(old(slots), behave, old(nextId))
      ensures nextId == old(nextId) + |Added(ran, behave, old(nextId))|
    {
      hide Round, NextIt, Fresh, Added, Progress, Emitted, Thrower, Ran, Ordered;
      ghost var initial, n, k := slots, nextId, 0;
      ran, thrown := [], false;
      ProgressStarts(initial, behave, n);
      if slots == [] {
        ProgressEnds(initial, behave, n, slots, 0, nextId, ran);
        return;
      }
      var it: nat, last := 0, slots[|slots| - 1].id;
      isExecuting := true;
      var isLast := false;
      while !isLast
        invariant isExecuting && 0 <= k <= |initial| && (isLast <==> k == |initial|)
        invariant Progress(initial, behave, n, k, slots, it, nextId, ran)
        decreases |initial| - k
      {
        ProgressRound(initial, behave, n, k, slots, it, nextId, ran);
        isLast := slots[it].id == last;
        ran := ran + [slots[it]];
        var b := behave(slots[it].id);
        it := RunSlot(it, b);
        if b.throws {
          isExecuting, thrown := false, true;
          return;
        }
        k := k + 1;
      }
      isExecuting := false;
      ProgressEnds(initial, behave, n, slots, it, nextId, ran);
    }
  }

  // ---------------------------------------------------------------------
  // The emission loop
  // ---------------------------------------------------------------------

  ghost predicate Progress(initial: seq<Slot>, behave: Emission, n: nat, k: nat, slots: seq<Slot>, it: nat,
                           n': nat, ran: seq<Slot>)
    requires k <= |initial|
  {
    && Ordered(initial, n) && Ordered(slots, n')
    && AllReturn(initial[..k], behave)
    && Midway(initial, behave, n, k, slots, it, n')
    && ran == initial[..k]
  }

  lemma ProgressStarts(initial: seq<Slot>, behave: Emission, n: nat)
    requires Ordered(initial, n)
    ensures Progress(initial, behave, n, 0, initial, 0, n, [])
  {
    hide Ordered;
  }

  /** What the next call of a handler will find and do. */
  lemma ProgressRound(initial: seq<Slot>, behave: Emission, n: nat, k: nat, slots: seq<Slot>, it: nat,
                      n': nat, ran: seq<Slot>)
    requires k < |initial| && Progress(initial, behave, n, k, slots, it, n', ran)
    ensures Ordered(slots, n')
    ensures it < |slots| && slots[it] == initial[k]
    ensures slots[it].id == initial[|initial| - 1].id <==> k + 1 == |initial|
    ensures var b := behave(slots[it].id);
            var slots', n'' := Round(slots, it, b, n'), n' + |Fresh(b.actions, n')|;
            && Ordered(slots', n'')
            && (b.throws ==>
                  && slots' == Emitted(initial, behave, n)
                  && ran + [slots[it]] == Ran(initial, behave)
                  && n'' == n + |Added(ran + [slots[it]], behave, n)|
                  && Thrower(initial, behave) < |initial|)
            && (!b.throws ==>
                  Progress(initial, behave, n, k + 1, slots', NextIt(slots[it], it, b), n'', ran + [slots[it]]))
  {
    hide Round, NextIt, Fresh, Midway, Emitted, Thrower, Ran, Ordered, AllReturn, Added;
    LastIsLast(initial, n, k);
    assert initial[..k + 1] == initial[..k] + [initial[k]];
    if behave(initial[k].id).throws {
      RoundThrows(initial, behave, n, k, slots, it, n');
      UnfoldAdded(initial, behave, n, k);
      MidwayParts(initial, behave, n, k, slots, it, n');
    } else {
      RoundReturns(initial, behave, n, k, slots, it, n');
      AllReturnExtends(initial, behave, k);
    }
    RoundOrdered(slots, it, behave(initial[k].id), n');
  }

  lemma RoundOrdered(slots: seq<Slot>, it: nat, b: Behaviour, n: nat)
    requires it < |slots| && Ordered(slots, n)
    ensures Ordered(Round(slots, it, b, n), n + |Fresh(b.actions, n)|)
  {
    hide Ordered, Fresh, Sheds, Without;
    CalledOrdered(slots, it, b, n);
    WithoutOrdered(Called(slots, it, b, n), it, n + |Fresh(b.actions, n)|);
  }

  lemma ProgressEnds(initial: seq<Slot>, behave: Emission, n: nat, slots: seq<Slot>, it: nat, n': nat, ran: seq<Slot>)
    requires Progress(initial, behave, n, |initial|, slots, it, n', ran)
    ensures Thrower(initial, behave) == |initial|
    ensures slots == Emitted(initial, behave, n) && ran == Ran(initial, behave) && Ordered(slots, n')
    ensures n' == n + |Added(ran, behave, n)|
  {
    hide Ordered, Survivors, Added;
    assert initial[..|initial|] == initial;
    DropNothing(Survivors(initial, behave), initial[|initial|..], Added(initial, behave, n));
  }

  lemma DropNothing(a: seq<Slot>, none: seq<Slot>, d: seq<Slot>)
    requires none == []
    ensures a + none + d == a + d
  {
  }

  // ---------------------------------------------------------------------
  // Who is still connected
  // ---------------------------------------------------------------------

  lemma {:induction false} SurvivorsAre(slots: seq<Slot>, behave: Emission, x: Slot)
    ensures x in Survivors(slots, behave) <==> x in slots && !Sheds(x, behave(x.id))
  {
    if slots != [] {
      var last := |slots| - 1;
      SurvivorsAre(slots[..last], behave, x);
      assert slots == slots[..last] + [slots[last]];
    }
  }

  lemma {:induction false} AddedIds(slots: seq<Slot>, behave: Emission, n: nat)
    ensures forall i :: 0 <= i < |Added(slots, behave, n)| ==> Added(slots, behave, n)[i].id == n + i
    decreases |slots|
  {
    if slots != [] {
      var last := |slots| - 1;
      AddedIds(slots[..last], behave, n);
      FreshIds(behave(slots[last].id).actions, n + |Added(slots[..last], behave, n)|);
    }
  }

  /** Old slots in the list after an emission; the ids of new ones start at n. */
  lemma EmittedOld(slots: seq<Slot>, behave: Emission, n: nat, y: Slot)
    requires y.id < n
    ensures var t := Thrower(slots, behave);
            y in Emitted(slots, behave, n) <==>
            if t == |slots| then y in slots && !Sheds(y, behave(y.id))
            else (y in slots[..t] && !Sheds(y, behave(y.id))) || y == AfterThrow(slots[t], behave(slots[t].id))
                 || y in slots[t + 1..]
  {
    hide Added, Survivors, Sheds, AfterThrow, Thrower;
    var t := Thrower(slots, behave);
    if t == |slots| {
      AddedIds(slots, behave, n);
      SurvivorsAre(slots, behave, y);
    } else {
      AddedIds(slots[..t + 1], behave, n);
      SurvivorsAre(slots[..t], behave, y);
    }
  }

  /** An emission keeps a slot that was there, unchanged, exactly when it had expired, its
      handler did not run, or its handler ran without disconnecting itself and, unless it
      threw, is not single-shot. */
  lemma EmittedKeeps(slots: seq<Slot>, behave: Emission, n: nat, k: nat)
    requires Ordered(slots, n) && k < |slots|
    ensures var x, t := slots[k], Thrower(slots, behave);
            x in Emitted(slots, behave, n)
            <==> || !x.connected
                 || k > t
                 || (DisconnectSelf !in behave(x.id).actions && (k < t ==> !x.singleShot))
  {
    hide Emitted, Thrower;
    var x, t := slots[k], Thrower(slots, behave);
    EmittedOld(slots, behave, n, x);
    if t < |slots| {
      PlaceOf(slots, n, t, k);
    }
  }

  /** No emission makes an old slot out of nothing: the thrower's may have expired. */
  lemma EmittedOnly(slots: seq<Slot>, behave: Emission, n: nat, y: Slot)
    requires y in Emitted(slots, behave, n) && y.id < n
    ensures y in slots || (!y.connected && y.(connected := true) in slots)
    ensures y.connected ==> y in slots
  {
    hide Emitted;
    var t := Thrower(slots, behave);
    EmittedOld(slots, behave, n, y);
    if t < |slots| && y !in slots[..t] && y !in slots[t + 1..] {
      assert slots[t] in slots;
    }
  }

  /** The handlers that run: a prefix that ends with the first that throws, or everything. */
  lemma RanIs(slots: seq<Slot>, behave: Emission)
    ensures var ran := Ran(slots, behave);
            && ran <= slots
            && (forall k :: 0 <= k < |ran| - 1 ==> !behave(ran[k].id).throws)
            && (ran == slots || (ran != [] && behave(ran[|ran| - 1].id).throws))
  {
  }

  // ---------------------------------------------------------------------
  // Who is connected anew
  // ---------------------------------------------------------------------

  /** The handlers that the actions connect, and whether for one call only. */
  function Asked(actions: seq<Action>): seq<(nat, bool)> {
    if actions == [] then [] else AskedBy(actions[0]) + Asked(actions[1..])
  }

  function AskedBy(a: Action): seq<(nat, bool)> {
    match a
    case Connect(h) => [(h, false)]
    case ConnectSingleShot(h) => [(h, true)]
    case DisconnectSelf => []
  }

  function AskedAll(ran: seq<Slot>, behave: Emission): seq<(nat, bool)> {
    if ran == [] then [] else Asked(behave(ran[0].id).actions) + AskedAll(ran[1..], behave)
  }

  ghost predicate Fulfils(slots: seq<Slot>, asked: seq<(nat, bool)>, n: nat) {
    && |slots| == |asked|
    && forall i :: 0 <= i < |slots| ==> slots[i] == Slot(n + i, asked[i].0, asked[i].1, true)
  }

  lemma FulfilsAppend(a: seq<Slot>, p: seq<(nat, bool)>, b: seq<Slot>, q: seq<(nat, bool)>, n: nat)
    requires Fulfils(a, p, n) && Fulfils(b, q, n + |a|)
    ensures Fulfils(a + b, p + q, n)
  {
  }

  lemma {:induction false} AskedSnoc(actions: seq<Action>)
    requires actions != []
    ensures var last := |actions| - 1; Asked(actions) == Asked(actions[..last]) + AskedBy(actions[last])
  {
    hide AskedBy;
    if |actions| > 1 {
      var rest, last := actions[1..], |actions| - 1;
      AskedSnoc(rest);
      assert actions[..last][1..] == rest[..last - 1] && actions[..last][0] == actions[0];
      assert rest[last - 1] == actions[last];
    }
  }

  lemma {:induction false} FreshFulfils(actions: seq<Action>, n: nat)
    ensures Fulfils(Fresh(actions, n), Asked(actions), n)
  {
    if actions != [] {
      hide Asked;
      var last := |actions| - 1;
      FreshFulfils(actions[..last], n);
      AskedSnoc(actions);
    }
  }

  lemma {:induction false} AskedAllSnoc(ran: seq<Slot>, behave: Emission)
    requires ran != []
    ensures var last := |ran| - 1;
            AskedAll(ran, behave) == AskedAll(ran[..last], behave) + Asked(behave(ran[last].id).actions)
    decreases |ran|
  {
    hide Asked;
    if |ran| > 1 {
      var rest, last := ran[1..], |ran| - 1;
      AskedAllSnoc(rest, behave);
      assert ran[..last][1..] == rest[..last - 1] && ran[..last][0] == ran[0];
      assert rest[last - 1] == ran[last];
    }
  }

  lemma {:induction false} AddedFulfils(ran: seq<Slot>, behave: Emission, n: nat)
    ensures Fulfils(Added(ran, behave, n), AskedAll(ran, behave), n)
    decreases |ran|
  {
    hide Fresh, Fulfils, Asked;
    if ran != [] {
      var last := |ran| - 1;
      var before, b := Added(ran[..last], behave, n), behave(ran[last].id);
      AddedFulfils(ran[..last], behave, n);
      AskedAllSnoc(ran, behave);
      FreshFulfils(b.actions, n + |before|);
      FulfilsAppend(before, AskedAll(ran[..last], behave), Fresh(b.actions, n + |before|), Asked(b.actions), n);
    } else {
      assert Fulfils([], [], n) by { NothingFulfils(n); }
    }
  }

  lemma NothingFulfils(n: nat)
    ensures Fulfils([], [], n)
  {
  }

  /** After an emission the list ends with what its handlers connected, in the order of their
      calls and of the connects within a call; everything before that was there. */
  lemma EmittedNew(slots: seq<Slot>, behave: Emission, n: nat)
    requires Ordered(slots, n)
    ensures var s, asked := Emitted(slots, behave, n), AskedAll(Ran(slots, behave), behave);
            && |asked| <= |s|
            && Fulfils(s[|s| - |asked|..], asked, n)
            && (forall i :: 0 <= i < |s| - |asked| ==> s[i].id < n)
  {
    hide Added, AskedAll, Thrower, Survivors, Sheds;
    var s, ran := Emitted(slots, behave, n), Ran(slots, behave);
    var added := Added(ran, behave, n);
    AddedFulfils(ran, behave, n);
    assert s[|s| - |added|..] == added;
    forall i | 0 <= i < |s| - |added| ensures s[i].id < n {
      var t := Thrower(slots, behave);
      if t == |slots| {
        SurvivorsAre(slots, behave, s[i]);
      } else {
        SurvivorsAre(slots[..t], behave, s[i]);
        AfterThrowId(slots[t], behave(slots[t].id));
      }
    }
  }

  /** A single-shot handler is promised to be disconnected after it has been executed once.
      It is exactly when it returns: one that throws will be executed again. */
  lemma SingleShotNeedsReturn(slots: seq<Slot>, behave: Emission, n: nat, k: nat)
    requires Ordered(slots, n) && k < |slots| && k <= Thrower(slots, behave)
    requires slots[k].singleShot && slots[k].connected && DisconnectSelf !in behave(slots[k].id).actions
    ensures slots[k] in Emitted(slots, behave, n) <==> behave(slots[k].id).throws
  {
    hide Emitted;
    EmittedKeeps(slots, behave, n, k);
  }

  lemma AfterThrowId(x: Slot, b: Behaviour)
    ensures AfterThrow(x, b).id == x.id
  {
  }

  lemma PlaceOf(slots: seq<Slot>, n: nat, t: nat, k: nat)
    requires Ordered(slots, n) && t < |slots| && k < |slots|
    ensures slots[k] in slots[..t] <==> k < t
    ensures slots[k] in slots[t + 1..] <==> k > t
    ensures slots[k].id == slots[t].id <==> k == t
  {
    if k < t {
      assert slots[..t][k] == slots[k];
    }
    if k > t {
      assert slots[t + 1..][k - t - 1] == slots[k];
    }
  }

  datatype Op = Attach(handler: nat, singleShot: bool) | Detach(id: nat) | Fire(behave: Emission)

  /** The slots and the next id after an operation from outside an emission. */
  function Apply(slots: seq<Slot>, n: nat, op: Op): (seq<Slot>, nat) {
    match op
    case Attach(h, single) => (slots + [Slot(n, h, single, true)], n + 1)
    case Detach(id) => (Disconnected(slots, id), n)
    case Fire(behave) => (Emitted(slots, behave, n), n + |Added(Ran(slots, behave), behave, n)|)
  }

  function ApplyAll(slots: seq<Slot>, n: nat, ops: seq<Op>): (seq<Slot>, nat)
    decreases |ops|
  {
    if ops == [] then (slots, n)
    else var r := Apply(slots, n, ops[0]); ApplyAll(r.0, r.1, ops[1..])
  }

  lemma {:induction false} EmissionOrdered(initial: seq<Slot>, behave: Emission, n: nat, k: nat, slots: seq<Slot>,
                                           it: nat, n': nat, ran: seq<Slot>)
    requires k <= |initial| && Progress(initial, behave, n, k, slots, it, n', ran)
    ensures Ordered(Emitted(initial, behave, n), n + |Added(Ran(initial, behave), behave, n)|)
    decreases |initial| - k
  {
    hide Round, NextIt, Fresh, Emitted, Thrower, Ran, Ordered, Added, Progress;
    if k == |initial| {
      ProgressEnds(initial, behave, n, slots, it, n', ran);
    } else {
      ProgressRound(initial, behave, n, k, slots, it, n', ran);
      var b := behave(slots[it].id);
      if !b.throws {
        EmissionOrdered(initial, behave, n, k + 1, Round(slots, it, b, n'), NextIt(slots[it], it, b),
                        n' + |Fresh(b.actions, n')|, ran + [slots[it]]);
      }
    }
  }

  /** Every operation keeps the identities of the slots apart, and below those to come. */
  lemma ApplyOrdered(slots: seq<Slot>, n: nat, op: Op)
    requires Ordered(slots, n)
    ensures var r := Apply(slots, n, op); Ordered(r.0, r.1) && n <= r.1
  {
    hide Emitted, Added, Ran, Progress;
    match op
    case Attach(_, _) =>
    case Detach(_) =>
    case Fire(behave) =>
      ProgressStarts(slots, behave, n);
      EmissionOrdered(slots, behave, n, 0, slots, 0, n, []);
  }

  /** What takes a connected slot away: its connection is disconnected from outside, or its
      handler runs and disconnects itself, or it runs, returns and is single-shot. */
  ghost predicate Takes(slots: seq<Slot>, x: Slot, op: Op) {
    match op
    case Attach(_, _) => false
    case Detach(id) => id == x.id
    case Fire(behave) =>
      && x in Ran(slots, behave)
      && (DisconnectSelf in behave(x.id).actions || (x.singleShot && !behave(x.id).throws))
  }

  ghost predicate NeverTaken(slots: seq<Slot>, n: nat, ops: seq<Op>, x: Slot)
    decreases |ops|
  {
    ops == [] ||
    (!Takes(slots, x, ops[0]) && var r := Apply(slots, n, ops[0]); NeverTaken(r.0, r.1, ops[1..], x))
  }

  lemma TakesExactly(slots: seq<Slot>, n: nat, op: Op, x: Slot)
    requires Ordered(slots, n) && x.connected && x.id < n
    ensures x in Apply(slots, n, op).0 <==> x in slots && !Takes(slots, x, op)
  {
    hide Emitted, Added, Thrower;
    match op
    case Attach(_, _) =>
    case Detach(id) =>
      DetachTakes(slots, n, id, x);
    case Fire(behave) =>
      if x in slots {
        var k :| 0 <= k < |slots| && slots[k] == x;
        EmittedKeeps(slots, behave, n, k);
        var t := Thrower(slots, behave);
        if t < |slots| {
          PlaceOf(slots, n, t, k);
          assert slots[..t + 1] == slots[..t] + [slots[t]];
        }
      } else if x in Emitted(slots, behave, n) {
        EmittedOnly(slots, behave, n, x);
      }
  }

  lemma DetachTakes(slots: seq<Slot>, n: nat, id: nat, x: Slot)
    requires Ordered(slots, n) && x.connected
    ensures x in Disconnected(slots, id) <==> x in slots && x.id != id
  {
    var i := Find(slots, id);
    if i < |slots| {
      assert slots == slots[..i] + [slots[i]] + slots[i + 1..];
      if x in slots[..i] || x in slots[i + 1..] {
        assert x.id != slots[i].id;
      }
    }
  }

  lemma {:induction false} GoneStays(slots: seq<Slot>, n: nat, ops: seq<Op>, x: Slot)
    requires Ordered(slots, n) && x.connected && x.id < n && x !in slots
    ensures x !in ApplyAll(slots, n, ops).0
    decreases |ops|
  {
    hide Apply, Ordered;
    if ops != [] {
      TakesExactly(slots, n, ops[0], x);
      ApplyOrdered(slots, n, ops[0]);
      var r := Apply(slots, n, ops[0]);
      GoneStays(r.0, r.1, ops[1..], x);
    }
  }

  /** Over any sequence of connects, disconnects and emissions, a handler stays connected
      exactly as long as nothing takes it away. An ordinary handler that nobody disconnects
      is therefore there for good. */
  lemma {:induction false} ConnectedExactly(slots: seq<Slot>, n: nat, ops: seq<Op>, x: Slot)
    requires Ordered(slots, n) && x in slots && x.connected
    ensures x in ApplyAll(slots, n, ops).0 <==> NeverTaken(slots, n, ops, x)
    decreases |ops|
  {
    hide Apply, Ordered, Takes;
    assert x.id < n by { BelowNext(slots, n, x); }
    if ops != [] {
      TakesExactly(slots, n, ops[0], x);
      ApplyOrdered(slots, n, ops[0]);
      var r := Apply(slots, n, ops[0]);
      if x in r.0 {
        ConnectedExactly(r.0, r.1, ops[1..], x);
      } else {
        GoneStays(r.0, r.1, ops[1..], x);
      }
    }
  }

  lemma BelowNext(slots: seq<Slot>, n: nat, x: Slot)
    requires Ordered(slots, n) && x in slots
    ensures x.id < n
  {
  }

  /** A handler that is connected is there from then on, exactly until something takes it. */
  lemma AttachedExactly(slots: seq<Slot>, n: nat, handler: nat, singleShot: bool, ops: seq<Op>)
    requires Ordered(slots, n)
    ensures var x, r := Slot(n, handler, singleShot, true), Apply(slots, n, Attach(handler, singleShot));
            && r == (slots + [x], n + 1)
            && (x in ApplyAll(r.0, r.1, ops).0 <==> NeverTaken(r.0, r.1, ops, x))
  {
    var x, r := Slot(n, handler, singleShot, true), Apply(slots, n, Attach(handler, singleShot));
    ApplyOrdered(slots, n, Attach(handler, singleShot));
    assert r.0[|slots|] == x;
    ConnectedExactly(r.0, r.1, ops, x);
  }

  /** Nobody disconnects this handler: neither a caller nor itself. */
  ghost predicate LeftAlone(ops: seq<Op>, id: nat) {
    forall op <- ops :: (op.Detach? ==> op.id != id) && (op.Fire? ==> DisconnectSelf !in op.behave(id).actions)
  }

  lemma {:induction false} OrdinaryStays(slots: seq<Slot>, n: nat, ops: seq<Op>, x: Slot)
    requires Ordered(slots, n) && x in slots && x.connected && !x.singleShot
    requires LeftAlone(ops, x.id)
    ensures x in ApplyAll(slots, n, ops).0
    decreases |ops|
  {
    hide Apply, Ordered;
    if ops != [] {
      assert ops[0] in ops;
      BelowNext(slots, n, x);
      TakesExactly(slots, n, ops[0], x);
      ApplyOrdered(slots, n, ops[0]);
      var r := Apply(slots, n, ops[0]);
      OrdinaryStays(r.0, r.1, ops[1..], x);
    }
  }

  lemma ThrownSlotStays(slots: seq<Slot>, behave: Emission, n: nat)
    requires Thrower(slots, behave) < |slots|
    ensures var x := slots[Thrower(slots, behave)];
            AfterThrow(x, behave(x.id)) in Emitted(slots, behave, n)
  {
    hide Survivors, Added, AfterThrow;
  }

  lemma {:induction false} EmittedKeepsDead(slots: seq<Slot>, behave: Emission, n: nat, x: Slot)
    requires x in slots && !x.connected
    ensures x in Emitted(slots, behave, n)
  {
    hide Added, Survivors;
    var t := Thrower(slots, behave);
    SurvivorsAre(slots, behave, x);
    if t < |slots| {
      SurvivorsAre(slots[..t], behave, x);
      assert slots == slots[..t] + [slots[t]] + slots[t + 1..];
    }
  }

  /** A handler that disconnects itself and then throws leaves a slot whose connections have
      all expired: no later sequence of operations removes it. */
  lemma {:induction false} DeadSlotStays(slots: seq<Slot>, n: nat, ops: seq<Op>, x: Slot)
    requires x in slots && !x.connected
    ensures x in ApplyAll(slots, n, ops).0
    decreases |ops|
  {
    hide Emitted, Added;
    if ops != [] {
      match ops[0] {
        case Attach(_, _) =>
        case Detach(id) =>
          var i := Find(slots, id);
          if i < |slots| && slots[i].connected {
            assert slots == slots[..i] + [slots[i]] + slots[i + 1..];
          }
        case Fire(behave) =>
          EmittedKeepsDead(slots, behave, n, x);
      }
      var r := Apply(slots, n, ops[0]);
      DeadSlotStays(r.0, r.1, ops[1..], x);
    }
  }

  /** The handler's own disconnection takes effect if and only if it returns. When it throws
      instead, the slot survives every later operation. */
  lemma SelfDisconnectNeedsReturn(slots: seq<Slot>, n: nat, behave: Emission, k: nat, ops: seq<Op>)
    requires Ordered(slots, n) && k < |slots| && k <= Thrower(slots, behave)
    requires slots[k].connected && DisconnectSelf in behave(slots[k].id).actions
    ensures var x, r := slots[k], Apply(slots, n, Fire(behave));
            && (behave(x.id).throws <==> x.(connected := false) in r.0)
            && (behave(x.id).throws ==> x.(connected := false) in ApplyAll(r.0, r.1, ops).0)
  {
    var x := slots[k];
    var dead := x.(connected := false);
    var r := Apply(slots, n, Fire(behave));
    if behave(x.id).throws {
      ThrownSlotStays(slots, behave, n);
      DeadSlotStays(r.0, r.1, ops, dead);
    } else {
      NoSuchSlot(slots, n, behave, k, dead);
    }
  }

  lemma NoSuchSlot(slots: seq<Slot>, n: nat, behave: Emission, k: nat, y: Slot)
    requires Ordered(slots, n) && k < |slots| && k < Thrower(slots, behave)
    requires y.id == slots[k].id && y != slots[k]
    ensures y !in Emitted(slots, behave, n)
  {
    hide Emitted, Sheds, AfterThrow;
    var t := Thrower(slots, behave);
    OnlyOneSlot(slots, n, k, y);
    EmittedOld(slots, behave, n, y);
    if t < |slots| {
      PlaceOf(slots, n, t, k);
      AfterThrowId(slots[t], behave(slots[t].id));
    }
  }

  lemma OnlyOneSlot(slots: seq<Slot>, n: nat, k: nat, y: Slot)
    requires Ordered(slots, n) && k < |slots| && y.id == slots[k].id && y != slots[k]
    ensures y !in slots
  {
  }
}
