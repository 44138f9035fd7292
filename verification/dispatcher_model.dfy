/** The management Dispatcher: top-level prefixes and relative prefixes that must not overlap,
    the Interest filters it posts to the Face, and the numbering of notifications. */
module DispatcherModel {

  // ---------------------------------------------------------------------
  // Names
  // ---------------------------------------------------------------------

  datatype Component = Generic(value: nat) | SequenceNumber(number: nat)

  type Name = seq<Component>

  predicate Overlap(a: Name, b: Name) {
    a <= b || b <= a
  }

  ghost predicate NoOverlaps(names: set<Name>) {
    forall a, b :: a in names && b in names && a != b ==> !Overlap(a, b)
  }

  const SEQUENCE_NUMBERS := 0x1_0000_0000_0000_0000

  // ---------------------------------------------------------------------
  // The Face side
  // ---------------------------------------------------------------------

  /** An InterestFilterRecord: it matches names under the top prefix followed by the relative
      prefix, and its callback is the handler of the relative prefix bound to the top one. */
  datatype Filter = Filter(id: nat, top: Name, rel: Name) {
    function Prefix(): Name { top + rel }
    predicate Matches(name: Name) { Prefix() <= name }
  }

  datatype FaceOp =
    | SetFilter(filter: Filter)
    | UnsetFilter(id: nat)
    | UnregisterPrefix(id: nat)

  /** What happens to a registration. Started: its command was started. Granted, Denied: the
      response came. UnregisterRan: the request to undo it ran. Withdrawn, Kept: the response
      to the command that undoes it came. */
  datatype Moment =
    | Started(id: nat)
    | Granted(id: nat)
    | Denied(id: nat)
    | UnregisterRan(id: nat)
    | Withdrawn(id: nat)
    | Kept(id: nat)

  /** The Face's filter table, its registered prefixes, the register and unregister commands
      that wait for their responses, and what happened to registrations so far. */
  datatype FaceTables = FaceTables(
    filters: seq<Filter>,
    registering: map<nat, Name>,
    registered: map<nat, Name>,
    unregistering: set<nat>,
    log: seq<Moment>)

  function RemoveFilter(filters: seq<Filter>, id: nat): seq<Filter> {
    if filters == [] then []
    else if filters[0].id == id then filters[1..]
    else [filters[0]] + RemoveFilter(filters[1..], id)
  }

  /** registerPrefix is not posted: it starts its command at once. */
  function StartRegistration(t: FaceTables, id: nat, prefix: Name): FaceTables {
    t.(registering := t.registering[id := prefix], log := t.log + [Started(id)])
  }

  /** Unregistering sends a command if the prefix is in the table; otherwise it fails, and the
      Dispatcher has asked not to be told. */
  function ApplyOp(t: FaceTables, op: FaceOp): FaceTables {
    match op
    case SetFilter(f) => t.(filters := t.filters + [f])
    case UnsetFilter(id) => t.(filters := RemoveFilter(t.filters, id))
    case UnregisterPrefix(id) =>
      t.(unregistering := if id in t.registered then t.unregistering + {id} else t.unregistering,
      log := t.log + [UnregisterRan(id)])
  }

  /** The response to a register command; a failure is thrown as a runtime_error. */
  function RegisterReply(t: FaceTables, id: nat, ok: bool): FaceTables
    requires id in t.registering
  {
    var t' := t.(registering := t.registering - {id}, log := t.log + [if ok then Granted(id) else Denied(id)]);
    if ok then t'.(registered := t.registered[id := t.registering[id]]) else t'
  }

  /** The response to an unregister command; a failure is ignored. */
  function UnregisterReply(t: FaceTables, id: nat, ok: bool): FaceTables {
    var t' := t.(unregistering := t.unregistering - {id}, log := t.log + [if ok then Withdrawn(id) else Kept(id)]);
    if ok then t'.(registered := t.registered - {id}) else t'
  }

  /** The tables once the posted operations have run. */
  function Drain(t: FaceTables, ops: seq<FaceOp>): FaceTables
    decreases |ops|
  {
    if ops == [] then t else Drain(ApplyOp(t, ops[0]), ops[1..])
  }

  lemma {:induction false} DrainAppend(t: FaceTables, ops: seq<FaceOp>, op: FaceOp)
    ensures Drain(t, ops + [op]) == ApplyOp(Drain(t, ops), op)
    decreases |ops|
  {
    hide ApplyOp;
    if ops == [] {
      assert [op][1..] == [];
    } else {
      DrainAppend(ApplyOp(t, ops[0]), ops[1..], op);
      assert (ops + [op])[1..] == ops[1..] + [op];
    }
  }

  // ---------------------------------------------------------------------
  // The Dispatcher side
  // ---------------------------------------------------------------------

  datatype HandlerKind = ControlCommand | StatusDataset | NotificationStream

  datatype TopPrefixEntry = TopPrefixEntry(
    topPrefix: Name,
    wantRegister: bool,
    registerPrefixId: nat,
    interestFilters: seq<nat>)

  /** A notification that was sent, in the stream of its full name. */
  datatype Notification = Notification(stream: Name, number: nat) {
    function DataName(): Name { stream + [SequenceNumber(number)] }
  }

  datatype Dispatcher = Dispatcher(
    tops: map<Name, TopPrefixEntry>,
    handlers: map<Name, HandlerKind>,
    streams: map<Name, nat>,
    nextFilter: nat,
    nextRegistration: nat,
    face: FaceTables,
    posted: seq<FaceOp>,
    sent: seq<Notification>)

  const DISPATCHER_INITIAL := Dispatcher(map[], map[], map[], 0, 0, FaceTables([], map[], map[], {}, []), [], [])

  datatype Reply = Accepted | OutOfRange | DomainError

  function PostOp(d: Dispatcher, op: FaceOp): Dispatcher {
    d.(posted := d.posted + [op])
  }

  predicate OverlapsOthers(d: Dispatcher, rel: Name) {
    || (exists h :: h in d.handlers && Overlap(h, rel))
    || (exists s :: s in d.streams && Overlap(s, rel))
  }

  function HandlerReply(d: Dispatcher, rel: Name): Reply {
    if d.tops != map[] then DomainError else if OverlapsOthers(d, rel) then OutOfRange else Accepted
  }

  function AddHandler(d: Dispatcher, rel: Name, kind: HandlerKind): Dispatcher {
    if HandlerReply(d, rel) != Accepted then d
    else
      var d' := d.(handlers := d.handlers[rel := kind]);
      if kind.NotificationStream? then d'.(streams := d'.streams[rel := 0]) else d'
  }

  predicate TopOverlaps(d: Dispatcher, prefix: Name) {
    exists t :: t in d.tops && Overlap(t, prefix)
  }

  /** setInterestFilter for one handler, remembered in the entry of the top prefix. */
  function AddFilter(d: Dispatcher, prefix: Name, rel: Name): Dispatcher
    requires prefix in d.tops
  {
    var entry := d.tops[prefix];
    var d' := PostOp(d, SetFilter(Filter(d.nextFilter, prefix, rel)));
    d'.(nextFilter := d.nextFilter + 1,
    tops := d.tops[prefix := entry.(interestFilters := entry.interestFilters + [d.nextFilter])])
  }

  function AddFilters(d: Dispatcher, prefix: Name, order: seq<Name>): Dispatcher
    requires prefix in d.tops
    decreases |order|
  {
    if order == [] then d else AddFilters(AddFilter(d, prefix, order[0]), prefix, order[1..])
  }

  function StartTop(d: Dispatcher, prefix: Name, wantRegister: bool): (d': Dispatcher)
    ensures prefix in d'.tops
  {
    var d1 := d.(tops := d.tops[prefix := TopPrefixEntry(prefix, wantRegister, d.nextRegistration, [])]);
    if wantRegister then
      d1.(face := StartRegistration(d.face, d.nextRegistration, prefix), nextRegistration := d.nextRegistration + 1)
    else d1
  }

  /** order is the order in which the handler map is traversed. */
  function AddTopPrefix(d: Dispatcher, prefix: Name, wantRegister: bool, order: seq<Name>): Dispatcher {
    if TopOverlaps(d, prefix) then d else AddFilters(StartTop(d, prefix, wantRegister), prefix, order)
  }

  function UnsetFilters(d: Dispatcher, ids: seq<nat>): Dispatcher
    decreases |ids|
  {
    if ids == [] then d else UnsetFilters(PostOp(d, UnsetFilter(ids[0])), ids[1..])
  }

  function RemoveTopPrefix(d: Dispatcher, prefix: Name): Dispatcher {
    if prefix !in d.tops then d
    else
      var entry := d.tops[prefix];
      var d1 := if entry.wantRegister then PostOp(d, UnregisterPrefix(entry.registerPrefixId)) else d;
      var d2 := UnsetFilters(d1, entry.interestFilters);
      d2.(tops := d2.tops - {prefix})
  }

  /** The destructor removes the top prefixes in the order of the map traversal. */
  function RemoveTopPrefixes(d: Dispatcher, order: seq<Name>): Dispatcher
    decreases |order|
  {
    if order == [] then d else RemoveTopPrefixes(RemoveTopPrefix(d, order[0]), order[1..])
  }

  function NextNumber(d: Dispatcher, stream: Name): nat {
    if stream in d.streams then d.streams[stream] else 0
  }

  /** The counter is kept under the full stream name and wraps as a 64-bit number. */
  function SendNotification(d: Dispatcher, top: Name, rel: Name): Dispatcher
    requires top in d.tops
  {
    var stream := d.tops[top].topPrefix + rel;
    var number := NextNumber(d, stream);
    d.(streams := d.streams[stream := (number + 1) % SEQUENCE_NUMBERS],
    sent := d.sent + [Notification(stream, number)])
  }

  /** Nothing is sent unless there is exactly one top prefix; top names it. */
  function PostNotification(d: Dispatcher, top: Name, rel: Name): Dispatcher {
    if |d.tops| != 1 || top !in d.tops then d else SendNotification(d, top, rel)
  }

  function RunPosted(d: Dispatcher): Dispatcher {
    if d.posted == [] then d
    else d.(face := ApplyOp(d.face, d.posted[0]), posted := d.posted[1..])
  }

  // ---------------------------------------------------------------------
  // Runs
  // ---------------------------------------------------------------------

  datatype Event =
    | EvAddHandler(rel: Name, kind: HandlerKind)
    | EvAddTop(prefix: Name, wantRegister: bool, order: seq<Name>)
    | EvRemoveTop(prefix: Name)
    | EvNotify(top: Name, rel: Name)
    | EvFaceRuns
    | EvRegisterReply(id: nat, ok: bool)
    | EvUnregisterReply(id: nat, ok: bool)

  ghost predicate Enumerates(order: seq<Name>, names: set<Name>) {
    && (forall i, j :: 0 <= i < j < |order| ==> order[i] != order[j])
    && (forall n :: n in order <==> n in names)
  }

  ghost predicate Enabled(d: Dispatcher, e: Event) {
    match e
    case EvAddTop(_, _, order) => Enumerates(order, d.handlers.Keys)
    case EvNotify(top, _) => |d.tops| == 1 ==> top in d.tops
    case EvRegisterReply(id, _) => id in d.face.registering
    case EvUnregisterReply(id, _) => id in d.face.unregistering
    case _ => true
  }

  function Step(d: Dispatcher, e: Event): Dispatcher {
    match e
    case EvAddHandler(rel, kind) => AddHandler(d, rel, kind)
    case EvAddTop(prefix, wantRegister, order) => AddTopPrefix(d, prefix, wantRegister, order)
    case EvRemoveTop(prefix) => RemoveTopPrefix(d, prefix)
    case EvNotify(top, rel) => PostNotification(d, top, rel)
    case EvFaceRuns => RunPosted(d)
    case EvRegisterReply(id, ok) =>
      if id in d.face.registering then d.(face := RegisterReply(d.face, id, ok)) else d
    case EvUnregisterReply(id, ok) =>
      if id in d.face.unregistering then d.(face := UnregisterReply(d.face, id, ok)) else d
  }

  function Run(d: Dispatcher, events: seq<Event>): Dispatcher
    decreases |events|
  {
    if events == [] then d else Run(Step(d, events[0]), events[1..])
  }

  ghost predicate Possible(d: Dispatcher, events: seq<Event>)
    decreases |events|
  {
    events != [] ==> Enabled(d, events[0]) && Possible(Step(d, events[0]), events[1..])
  }
}
