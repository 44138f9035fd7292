/** lp::Packet: an NDNLPv2 packet as an ordered list of field elements. */
module LpPacket {
  import opened Tlv

  // ---------------------------------------------------------------------
  // Field declarations
  // ---------------------------------------------------------------------

  datatype Field =
    | Fragment | Sequence | FragIndex | FragCount | Nack | NextHopFaceId
    | CachePolicy | IncomingFaceId | CongestionMark | Ack

  const FRAGMENT_TYPE := 80

  function TlvType(f: Field): (typ: UInt32)
    ensures f != Fragment <==> 81 <= typ <= 99 || 800 <= typ <= 959   // the ranges of header fields
  {
    match f
    case Fragment => FRAGMENT_TYPE
    case Sequence => 81
    case FragIndex => 82
    case FragCount => 83
    case Nack => 800
    case NextHopFaceId => 816
    case CachePolicy => 820
    case IncomingFaceId => 817
    case CongestionMark => 832
    case Ack => 836
  }

  predicate IsRepeatable(f: Field) { f == Ack }

  /** The fields whose ValueType is uint64_t. The others hold bytes: the fragment, or the
      encoding of a header that is a structure of its own. */
  predicate IsNumber(f: Field) { f != Fragment && f != Nack && f != CachePolicy }

  datatype Value = Number(number: UInt64) | Bytes(bytes: Tlv.Bytes)

  predicate HasType(f: Field, v: Value) {
    (IsNumber(f) <==> v.Number?) && (v.Bytes? ==> |v.bytes| <= UINT64_MAX)
  }

  /** Header fields come before the fragment, although its TLV-TYPE is the smallest. */
  function LocationSortOrder(typ: nat): nat {
    if typ == FRAGMENT_TYPE then 2 else 1
  }

  predicate CompareFieldSortOrder(first: nat, second: nat) {
    || LocationSortOrder(first) < LocationSortOrder(second)
    || (LocationSortOrder(first) == LocationSortOrder(second) && first < second)
  }

  function Payload(v: Value): (s: Tlv.Bytes)
    requires v.Bytes? ==> |v.bytes| <= UINT64_MAX
    ensures |s| <= UINT64_MAX
  {
    match v
    case Number(n) => WriteNonNegativeInteger(n)
    case Bytes(bytes) => bytes
  }

  function EncodeField(f: Field, v: Value): Block
    requires HasType(f, v)
  {
    Block(TlvType(f), Payload(v), EncodeBlock(TlvType(f), Payload(v)))
  }

  datatype Error = LengthError | OutOfRange | DecodeError

  function DecodeField(f: Field, b: Block): Result<Value, Error> {
    if b.typ != TlvType(f) then Failure(DecodeError)
    else if IsNumber(f) then
      match ReadNonNegativeInteger(|b.value|, b.value)
      case Success(r) => Success(Number(r.number))
      case Failure(_) => Failure(DecodeError)
    else if f == Fragment && b.value == [] then Failure(DecodeError)
    else Success(Bytes(b.value))
  }

  /** A field reads back as what was encoded, except that an empty fragment is encoded without
      complaint and refused when it is read. */
  lemma FieldRoundTrip(f: Field, v: Value)
    requires HasType(f, v)
    ensures DecodeField(f, EncodeField(f, v)) == Success(v) <==> !(f == Fragment && v.bytes == [])
    ensures f == Fragment && v.bytes == [] ==> DecodeField(f, EncodeField(f, v)) == Failure(DecodeError)
  {
    if v.Number? {
      NonNegativeIntegerRoundTrip(v.number, []);
      assert Payload(v) + [] == Payload(v);
    }
  }

  /** No field decodes what was encoded for another. */
  lemma FieldsApart(f: Field, v: Value, g: Field)
    requires HasType(f, v)
    ensures DecodeField(g, EncodeField(f, v)).Success? ==> g == f
  {
    TypesDiffer(f, g);
  }

  // ---------------------------------------------------------------------
  // The ordered list
  // ---------------------------------------------------------------------

  /** Header fields by ascending TLV-TYPE, and then the fragment. */
  predicate MayPrecede(first: nat, second: nat) {
    second == FRAGMENT_TYPE || (first != FRAGMENT_TYPE && first <= second)
  }

  ghost predicate Ordered(elements: seq<Block>) {
    forall i, j :: 0 <= i < j < |elements| ==> MayPrecede(elements[i].typ, elements[j].typ)
  }

  /** The order is the one that the comparison of the fields' order induces. */
  lemma OrderedCompares(elements: seq<Block>)
    ensures Ordered(elements) <==>
            forall i, j :: 0 <= i < j < |elements| ==> !CompareFieldSortOrder(elements[j].typ, elements[i].typ)
  {
  }

  function OfType(elements: seq<Block>, typ: nat): seq<Block> {
    if elements == [] then []
    else if elements[0].typ == typ then [elements[0]] + OfType(elements[1..], typ)
    else OfType(elements[1..], typ)
  }

  function Count(elements: seq<Block>, f: Field): nat {
    |OfType(elements, TlvType(f))|
  }

  /** Where std::upper_bound puts a field of type typ: before the first element that sorts
      after it. */
  function UpperBound(elements: seq<Block>, typ: nat): (i: nat)
    ensures i <= |elements|
  {
    if elements == [] || CompareFieldSortOrder(typ, elements[0].typ) then 0 else 1 + UpperBound(elements[1..], typ)
  }

  function InsertAt(elements: seq<Block>, i: nat, b: Block): seq<Block>
    requires i <= |elements|
  {
    elements[..i] + [b] + elements[i..]
  }

  function Insert(elements: seq<Block>, b: Block): seq<Block> {
    InsertAt(elements, UpperBound(elements, b.typ), b)
  }

  /** The list without the index-th element of type typ. */
  function RemoveNth(elements: seq<Block>, typ: nat, index: nat): seq<Block> {
    if elements == [] then []
    else if elements[0].typ != typ then [elements[0]] + RemoveNth(elements[1..], typ, index)
    else if index == 0 then elements[1..]
    else [elements[0]] + RemoveNth(elements[1..], typ, index - 1)
  }

  function RemoveAll(elements: seq<Block>, typ: nat): seq<Block> {
    if elements == [] then []
    else if elements[0].typ == typ then RemoveAll(elements[1..], typ)
    else [elements[0]] + RemoveAll(elements[1..], typ)
  }

  /** Values in order, or the error of the first one that does not decode. */
  function DecodeAll(f: Field, blocks: seq<Block>): Result<seq<Value>, Error>
    decreases |blocks|
  {
    if blocks == [] then Success([])
    else
      match DecodeField(f, blocks[0])
      case Failure(e) => Failure(e)
      case Success(v) =>
        match DecodeAll(f, blocks[1..])
        case Failure(e) => Failure(e)
        case Success(vs) => Success([v] + vs)
  }

  function List(elements: seq<Block>, f: Field): Result<seq<Value>, Error> {
    DecodeAll(f, OfType(elements, TlvType(f)))
  }

  function Get(elements: seq<Block>, f: Field, index: nat): Result<Value, Error> {
    var found := OfType(elements, TlvType(f));
    if index < |found| then DecodeField(f, found[index]) else Failure(OutOfRange)
  }

  function Add(elements: seq<Block>, f: Field, v: Value): Result<seq<Block>, Error>
    requires HasType(f, v)
  {
    if !IsRepeatable(f) && Count(elements, f) > 0 then Failure(LengthError)
    else Success(Insert(elements, EncodeField(f, v)))
  }

  function Remove(elements: seq<Block>, f: Field, index: nat): Result<seq<Block>, Error> {
    if index < Count(elements, f) then Success(RemoveNth(elements, TlvType(f), index)) else Failure(OutOfRange)
  }

  function Clear(elements: seq<Block>, f: Field): seq<Block> {
    RemoveAll(elements, TlvType(f))
  }

  // ---------------------------------------------------------------------
  // Lists of one type
  // ---------------------------------------------------------------------

  lemma OfTypeCons(b: Block, rest: seq<Block>, typ: nat)
    ensures OfType([b] + rest, typ) == if b.typ == typ then [b] + OfType(rest, typ) else OfType(rest, typ)
  {
    assert ([b] + rest)[1..] == rest;
  }

  lemma {:induction false} OfTypeAppend(a: seq<Block>, b: seq<Block>, typ: nat)
    ensures OfType(a + b, typ) == OfType(a, typ) + OfType(b, typ)
    decreases |a|
  {
    if a == [] {
      assert a + b == b;
    } else {
      OfTypeAppend(a[1..], b, typ);
      OfTypeCons(a[0], a[1..], typ);
      OfTypeCons(a[0], a[1..] + b, typ);
      assert a == [a[0]] + a[1..] && a + b == [a[0]] + (a[1..] + b);
      hide OfType;
    }
  }

  lemma {:induction false} NoneOfType(elements: seq<Block>, typ: nat)
    requires forall k :: 0 <= k < |elements| ==> elements[k].typ != typ
    ensures OfType(elements, typ) == []
  {
    if elements != [] {
      NoneOfType(elements[1..], typ);
    }
  }

  lemma {:induction false} UpperBoundSplits(elements: seq<Block>, typ: nat)
    requires Ordered(elements)
    ensures var i := UpperBound(elements, typ);
            && (forall k :: 0 <= k < i ==> !CompareFieldSortOrder(typ, elements[k].typ))
            && (forall k :: i <= k < |elements| ==> CompareFieldSortOrder(typ, elements[k].typ))
    decreases |elements|
  {
    if elements != [] && !CompareFieldSortOrder(typ, elements[0].typ) {
      UpperBoundSplits(elements[1..], typ);
    }
  }

  lemma InsertKeepsOrdered(elements: seq<Block>, b: Block)
    requires Ordered(elements)
    ensures Ordered(Insert(elements, b))
  {
    var i := UpperBound(elements, b.typ);
    UpperBoundSplits(elements, b.typ);
    assert forall k :: 0 <= k < i ==> MayPrecede(elements[k].typ, b.typ);
    assert forall k :: i <= k < |elements| ==> MayPrecede(b.typ, elements[k].typ);
    hide MayPrecede, UpperBound;
  }

  lemma BehindTheBound(elements: seq<Block>, typ: nat)
    requires Ordered(elements)
    ensures OfType(elements[UpperBound(elements, typ)..], typ) == []
  {
    hide OfType;
    UpperBoundSplits(elements, typ);
    NoneOfType(elements[UpperBound(elements, typ)..], typ);
  }

  /** A field is inserted behind those of its type, and no other type is affected. */
  lemma InsertExtends(elements: seq<Block>, b: Block, typ: nat)
    requires Ordered(elements)
    ensures typ == b.typ ==> OfType(Insert(elements, b), typ) == OfType(elements, typ) + [b]
    ensures typ != b.typ ==> OfType(Insert(elements, b), typ) == OfType(elements, typ)
  {
    hide Ordered, OfType, UpperBound;
    var i := UpperBound(elements, b.typ);
    var front, back := elements[..i], elements[i..];
    assert elements == front + back;
    BehindTheBound(elements, b.typ);
    OfTypeOne(b, typ);
    OfTypeAppend(front, back, typ);
    OfTypeAppend(front + [b], back, typ);
    OfTypeAppend(front, [b], typ);
    assert OfType(front, typ) + [] == OfType(front, typ);
  }

  lemma OfTypeOne(b: Block, typ: nat)
    ensures OfType([b], typ) == if typ == b.typ then [b] else []
  {
    assert [b][1..] == [];
  }

  lemma {:induction false} RemoveNthIs(elements: seq<Block>, typ: nat, index: nat, other: nat)
    requires index < |OfType(elements, typ)|
    ensures var r := OfType(elements, typ);
            OfType(RemoveNth(elements, typ, index), typ) == r[..index] + r[index + 1..]
    ensures other != typ ==> OfType(RemoveNth(elements, typ, index), other) == OfType(elements, other)
    decreases |elements|
  {
    OfTypeCons(elements[0], RemoveNth(elements[1..], typ, if index > 0 then index - 1 else 0), typ);
    OfTypeCons(elements[0], RemoveNth(elements[1..], typ, if index > 0 then index - 1 else 0), other);
    if elements[0].typ != typ {
      OfTypeCons(elements[0], RemoveNth(elements[1..], typ, index), typ);
      OfTypeCons(elements[0], RemoveNth(elements[1..], typ, index), other);
      RemoveNthIs(elements[1..], typ, index, other);
    } else if index > 0 {
      RemoveNthIs(elements[1..], typ, index - 1, other);
      DropInCons(elements[0], OfType(elements[1..], typ), index);
    }
  }

  lemma DropInCons(b: Block, q: seq<Block>, index: nat)
    requires 0 < index <= |q|
    ensures var r := [b] + q;
            r[..index] + r[index + 1..] == [b] + (q[..index - 1] + q[index..])
  {
  }

  lemma {:induction false} RemoveAllIs(elements: seq<Block>, typ: nat, other: nat)
    ensures OfType(RemoveAll(elements, typ), typ) == []
    ensures other != typ ==> OfType(RemoveAll(elements, typ), other) == OfType(elements, other)
    decreases |elements|
  {
    if elements != [] {
      RemoveAllIs(elements[1..], typ, other);
      OfTypeCons(elements[0], RemoveAll(elements[1..], typ), typ);
      OfTypeCons(elements[0], RemoveAll(elements[1..], typ), other);
    }
  }

  /** a is b with elements left out. */
  ghost predicate Sublist(a: seq<Block>, b: seq<Block>)
    decreases |b|
  {
    a == [] || (b != [] && ((a[0] == b[0] && Sublist(a[1..], b[1..])) || Sublist(a, b[1..])))
  }

  lemma {:induction false} SublistRefl(a: seq<Block>)
    ensures Sublist(a, a)
    decreases |a|
  {
    if a != [] {
      SublistRefl(a[1..]);
    }
  }

  lemma {:induction false} RemoveNthSublist(elements: seq<Block>, typ: nat, index: nat)
    ensures Sublist(RemoveNth(elements, typ, index), elements)
    decreases |elements|
  {
    if elements != [] {
      SublistRefl(elements[1..]);
      if elements[0].typ != typ {
        RemoveNthSublist(elements[1..], typ, index);
      } else if index > 0 {
        RemoveNthSublist(elements[1..], typ, index - 1);
      } else {
        SublistSkip(elements[1..], elements);
      }
    }
  }

  lemma SublistSkip(a: seq<Block>, b: seq<Block>)
    requires b != [] && Sublist(a, b[1..])
    ensures Sublist(a, b)
  {
  }

  lemma {:induction false} RemoveAllSublist(elements: seq<Block>, typ: nat)
    ensures Sublist(RemoveAll(elements, typ), elements)
    decreases |elements|
  {
    if elements != [] {
      RemoveAllSublist(elements[1..], typ);
      if elements[0].typ == typ {
        SublistSkip(RemoveAll(elements, typ), elements);
      } else {
        assert RemoveAll(elements, typ)[1..] == RemoveAll(elements[1..], typ);
      }
    }
  }

  lemma {:induction false} SublistMembers(a: seq<Block>, b: seq<Block>)
    requires Sublist(a, b)
    ensures forall x :: x in a ==> x in b
    decreases |b|
  {
    if a != [] {
      assert a == [a[0]] + a[1..] && b == [b[0]] + b[1..];
      if a[0] == b[0] && Sublist(a[1..], b[1..]) {
        SublistMembers(a[1..], b[1..]);
      } else {
        SublistMembers(a, b[1..]);
      }
    }
  }

  lemma {:induction false} SublistOrdered(a: seq<Block>, b: seq<Block>)
    requires Sublist(a, b) && Ordered(b)
    ensures Ordered(a)
    decreases |b|
  {
    if a != [] {
      if a[0] == b[0] && Sublist(a[1..], b[1..]) {
        SublistOrdered(a[1..], b[1..]);
        SublistMembers(a[1..], b[1..]);
        forall j | 1 <= j < |a|
          ensures MayPrecede(a[0].typ, a[j].typ)
        {
          assert a[j] == a[1..][j - 1];
          assert a[j] in b[1..];
        }
      } else {
        SublistOrdered(a, b[1..]);
      }
    }
  }

  // ---------------------------------------------------------------------
  // Runs
  // ---------------------------------------------------------------------

  datatype Op =
    | OpAdd(field: Field, value: Value)
    | OpSet(field: Field, value: Value)
    | OpRemove(field: Field, index: nat)
    | OpClear(field: Field)

  /** An operation that throws leaves the packet as it was, except that set has cleared. */
  function Apply(elements: seq<Block>, op: Op): seq<Block>
    requires op.OpAdd? || op.OpSet? ==> HasType(op.field, op.value)
  {
    match op
    case OpAdd(f, v) => (match Add(elements, f, v) case Success(e) => e case Failure(_) => elements)
    case OpSet(f, v) =>
      var cleared := Clear(elements, f);
      (match Add(cleared, f, v) case Success(e) => e case Failure(_) => cleared)
    case OpRemove(f, index) => (match Remove(elements, f, index) case Success(e) => e case Failure(_) => elements)
    case OpClear(f) => Clear(elements, f)
  }

  ghost predicate WellTyped(ops: seq<Op>) {
    forall op :: op in ops && (op.OpAdd? || op.OpSet?) ==> HasType(op.field, op.value)
  }

  function ApplyAll(elements: seq<Block>, ops: seq<Op>): seq<Block>
    requires WellTyped(ops)
    decreases |ops|
  {
    if ops == [] then elements else ApplyAll(Apply(elements, ops[0]), ops[1..])
  }

  ghost predicate NoRepeats(elements: seq<Block>) {
    forall f: Field :: !IsRepeatable(f) ==> Count(elements, f) <= 1
  }

  lemma TypesDiffer(f: Field, g: Field)
    ensures TlvType(f) == TlvType(g) <==> f == g
  {
  }

  lemma AddKeeps(elements: seq<Block>, f: Field, v: Value)
    requires HasType(f, v) && Ordered(elements) && Add(elements, f, v).Success?
    ensures Ordered(Add(elements, f, v).value)
    ensures NoRepeats(elements) ==> NoRepeats(Add(elements, f, v).value)
  {
    hide Ordered, Insert, OfType;
    var r := Add(elements, f, v).value;
    InsertKeepsOrdered(elements, EncodeField(f, v));
    forall g: Field | !IsRepeatable(g) && NoRepeats(elements)
      ensures Count(r, g) <= 1
    {
      InsertExtends(elements, EncodeField(f, v), TlvType(g));
      TypesDiffer(f, g);
      assert Count(elements, g) <= 1;
    }
  }

  lemma ClearKeeps(elements: seq<Block>, f: Field)
    requires Ordered(elements)
    ensures Ordered(Clear(elements, f)) && Count(Clear(elements, f), f) == 0
    ensures NoRepeats(elements) ==> NoRepeats(Clear(elements, f))
  {
    hide Ordered, RemoveAll, OfType;
    RemoveAllSublist(elements, TlvType(f));
    SublistOrdered(Clear(elements, f), elements);
    RemoveAllIs(elements, TlvType(f), TlvType(f));
    forall g: Field | !IsRepeatable(g) && NoRepeats(elements)
      ensures Count(Clear(elements, f), g) <= 1
    {
      RemoveAllIs(elements, TlvType(f), TlvType(g));
      TypesDiffer(f, g);
      assert Count(elements, g) <= 1;
    }
  }

  lemma RemoveKeeps(elements: seq<Block>, f: Field, index: nat)
    requires Ordered(elements) && index < Count(elements, f)
    ensures var r := Remove(elements, f, index).value; Ordered(r) && (NoRepeats(elements) ==> NoRepeats(r))
  {
    hide Ordered, RemoveNth, OfType;
    var r := Remove(elements, f, index).value;
    RemoveNthSublist(elements, TlvType(f), index);
    SublistOrdered(r, elements);
    forall g: Field | !IsRepeatable(g) && NoRepeats(elements)
      ensures Count(r, g) <= 1
    {
      RemoveNthIs(elements, TlvType(f), index, TlvType(g));
      TypesDiffer(f, g);
      assert Count(elements, g) <= 1;
    }
  }

  lemma ApplyKeeps(elements: seq<Block>, op: Op)
    requires Ordered(elements)
    requires op.OpAdd? || op.OpSet? ==> HasType(op.field, op.value)
    ensures Ordered(Apply(elements, op))
    ensures NoRepeats(elements) ==> NoRepeats(Apply(elements, op))
  {
    hide Ordered, NoRepeats, Add, Clear, HasType;
    match op
    case OpAdd(f, v) =>
      if Add(elements, f, v).Success? {
        AddKeeps(elements, f, v);
      }
    case OpSet(f, v) =>
      ClearKeeps(elements, f);
      if Add(Clear(elements, f), f, v).Success? {
        AddKeeps(Clear(elements, f), f, v);
      }
    case OpRemove(f, index) =>
      if index < Count(elements, f) {
        RemoveKeeps(elements, f, index);
      }
    case OpClear(f) =>
      ClearKeeps(elements, f);
  }

  /** Any sequence of operations keeps an ordered packet ordered, and free of repetitions if it
      was. */
  lemma {:induction false} ApplyAllKeeps(elements: seq<Block>, ops: seq<Op>)
    requires Ordered(elements) && WellTyped(ops)
    ensures Ordered(ApplyAll(elements, ops))
    ensures NoRepeats(elements) ==> NoRepeats(ApplyAll(elements, ops))
    decreases |ops|
  {
    hide Ordered, NoRepeats, Apply;
    if ops != [] {
      ApplyKeeps(elements, ops[0]);
      ApplyAllKeeps(Apply(elements, ops[0]), ops[1..]);
    }
  }

  /** A packet built from empty by any operations has its header fields by ascending
      TLV-TYPE and then the fragment, and holds nothing twice but acknowledgements. */
  lemma BuiltPacket(ops: seq<Op>)
    requires WellTyped(ops)
    ensures var e := ApplyAll([], ops);
            && Ordered(e)
            && (forall i, j :: 0 <= i < j < |e| && e[i].typ == FRAGMENT_TYPE ==> e[j].typ == FRAGMENT_TYPE)
            && (forall i, j :: 0 <= i < j < |e| && e[i].typ != FRAGMENT_TYPE && e[j].typ != FRAGMENT_TYPE
                  ==> e[i].typ <= e[j].typ)
            && (forall f: Field :: f != Ack ==> |OfType(e, TlvType(f))| <= 1)
  {
    ApplyAllKeeps([], ops);
    ghost var e := ApplyAll([], ops);
    forall f: Field | f != Ack ensures |OfType(e, TlvType(f))| <= 1 {
      assert !IsRepeatable(f) && Count(e, f) <= 1;
    }
  }

  /** The elements of a type, one by one: those of the list, in its order. */
  lemma {:induction false} OfTypeMembers(elements: seq<Block>, typ: nat, b: Block)
    ensures b in OfType(elements, typ) <==> b in elements && b.typ == typ
    ensures multiset(OfType(elements, typ))[b] == if b.typ == typ then multiset(elements)[b] else 0
  {
    if elements != [] {
      OfTypeMembers(elements[1..], typ, b);
      assert elements == [elements[0]] + elements[1..];
    }
  }

  /** In an ordered packet the elements of each type determine everything. */
  lemma {:induction false} OrderedUnique(a: seq<Block>, b: seq<Block>)
    requires Ordered(a) && Ordered(b)
    requires forall typ: nat :: OfType(a, typ) == OfType(b, typ)
    ensures a == b
    decreases |a|
  {
    SameEmptiness(a, b);
    SameEmptiness(b, a);
    if a != [] {
      hide OfType;
      SameFirst(a, b);
      forall typ: nat ensures OfType(a[1..], typ) == OfType(b[1..], typ) {
        OfTypeFirst(a, typ);
        OfTypeFirst(b, typ);
        assert OfType(a, typ) == OfType(b, typ);
        if typ == a[0].typ {
          assert OfType(a, typ)[1..] == OfType(a[1..], typ) && OfType(b, typ)[1..] == OfType(b[1..], typ);
        }
      }
      OrderedTail(a);
      OrderedTail(b);
      OrderedUnique(a[1..], b[1..]);
      assert a == [a[0]] + a[1..] && b == [b[0]] + b[1..];
    }
  }

  lemma SameEmptiness(a: seq<Block>, b: seq<Block>)
    requires forall typ: nat :: OfType(a, typ) == OfType(b, typ)
    ensures a != [] ==> b != []
  {
    if a != [] {
      assert OfType(a, a[0].typ) == OfType(b, a[0].typ);
    }
  }

  lemma OrderedTail(a: seq<Block>)
    requires Ordered(a) && a != []
    ensures Ordered(a[1..])
  {
  }

  lemma OfTypeFirst(a: seq<Block>, typ: nat)
    requires a != []
    ensures OfType(a, typ) == (if a[0].typ == typ then [a[0]] + OfType(a[1..], typ) else OfType(a[1..], typ))
  {
  }

  lemma FirstPrecedes(a: seq<Block>, x: Block)
    requires Ordered(a) && x in a
    ensures MayPrecede(a[0].typ, x.typ)
  {
  }

  lemma SameFirst(a: seq<Block>, b: seq<Block>)
    requires a != [] && b != [] && Ordered(a) && Ordered(b)
    requires forall typ: nat :: OfType(a, typ) == OfType(b, typ)
    ensures a[0] == b[0]
  {
    hide OfType, Ordered;
    OfTypeFirst(a, a[0].typ);
    OfTypeFirst(b, b[0].typ);
    assert OfType(a, a[0].typ) == OfType(b, a[0].typ) && OfType(b, b[0].typ) == OfType(a, b[0].typ);
    OfTypeMembers(b, a[0].typ, a[0]);
    OfTypeMembers(a, b[0].typ, b[0]);
    assert OfType(b, a[0].typ)[0] == a[0] && OfType(a, b[0].typ)[0] == b[0];
    FirstPrecedes(a, b[0]);
    FirstPrecedes(b, a[0]);
    assert a[0].typ == b[0].typ;
  }

  // ---------------------------------------------------------------------
  // What a packet holds
  // ---------------------------------------------------------------------

  /** The values of each field, as the operations were called. */
  type Fields = map<Field, seq<Value>>

  function Values(held: Fields, f: Field): seq<Value> {
    if f in held then held[f] else []
  }

  /** Only an acknowledgement is taken beside another value of its field. */
  function After(held: Fields, op: Op): Fields {
    match op
    case OpAdd(f, v) => if f == Ack || Values(held, f) == [] then held[f := Values(held, f) + [v]] else held
    case OpSet(f, v) => held[f := [v]]
    case OpRemove(f, i) =>
      var vs := Values(held, f);
      if i < |vs| then held[f := vs[..i] + vs[i + 1..]] else held
    case OpClear(f) => held[f := []]
  }

  function AfterAll(held: Fields, ops: seq<Op>): Fields
    decreases |ops|
  {
    if ops == [] then held else AfterAll(After(held, ops[0]), ops[1..])
  }

  function Encodings(f: Field, vs: seq<Value>): (r: seq<Block>)
    requires forall v <- vs :: HasType(f, v)
    ensures |r| == |vs|
  {
    seq(|vs|, i requires 0 <= i < |vs| => EncodeField(f, vs[i]))
  }

  ghost predicate HoldsField(elements: seq<Block>, f: Field, vs: seq<Value>) {
    && (forall v <- vs :: HasType(f, v))
    && OfType(elements, TlvType(f)) == Encodings(f, vs)
  }

  /** The packet holds the encodings of these values and nothing else. */
  ghost predicate Holds(elements: seq<Block>, held: Fields) {
    && (forall f: Field :: HoldsField(elements, f, Values(held, f)))
    && (forall typ: nat :: (forall f: Field :: TlvType(f) != typ) ==> OfType(elements, typ) == [])
  }

  lemma HoldsAdd(elements: seq<Block>, f: Field, v: Value, g: Field, vs: seq<Value>)
    requires HasType(f, v) && Ordered(elements) && HoldsField(elements, g, vs)
    ensures HoldsField(Insert(elements, EncodeField(f, v)), g, if g == f then vs + [v] else vs)
  {
    hide Ordered, Insert, OfType, EncodeField, HasType;
    EncodedType(f, v);
    InsertExtends(elements, EncodeField(f, v), TlvType(g));
    TypesDiffer(f, g);
    if g == f {
      assert Encodings(f, vs + [v]) == Encodings(f, vs) + [EncodeField(f, v)];
    }
  }

  lemma HoldsClear(elements: seq<Block>, f: Field, g: Field, vs: seq<Value>)
    requires HoldsField(elements, g, vs)
    ensures HoldsField(Clear(elements, f), g, if g == f then [] else vs)
  {
    hide OfType, RemoveAll, EncodeField, HasType;
    RemoveAllIs(elements, TlvType(f), TlvType(g));
    TypesDiffer(f, g);
    assert g == f ==> Encodings(g, []) == [];
  }

  lemma HoldsRemove(elements: seq<Block>, f: Field, i: nat, g: Field, vs: seq<Value>)
    requires i < Count(elements, f) && HoldsField(elements, g, vs)
    ensures HoldsField(RemoveNth(elements, TlvType(f), i), g,
                       if g == f && i < |vs| then vs[..i] + vs[i + 1..] else vs)
  {
    hide OfType, RemoveNth, EncodeField, HasType;
    RemoveNthIs(elements, TlvType(f), i, TlvType(g));
    TypesDiffer(f, g);
    if g == f {
      var left := vs[..i] + vs[i + 1..];
      assert forall v <- left :: v in vs;
      assert Encodings(f, left) == Encodings(f, vs)[..i] + Encodings(f, vs)[i + 1..];
    }
  }

  /** No operation brings in a type that is not a field's. */
  lemma NoForeign(elements: seq<Block>, op: Op, typ: nat)
    requires Ordered(elements)
    requires op.OpAdd? || op.OpSet? ==> HasType(op.field, op.value)
    requires OfType(elements, typ) == [] && TlvType(op.field) != typ
    ensures OfType(Apply(elements, op), typ) == []
  {
    hide Ordered, OfType, Insert, RemoveAll, RemoveNth, EncodeField, HasType;
    match op
    case OpAdd(f, v) =>
      EncodedType(f, v);
      InsertExtends(elements, EncodeField(f, v), typ);
    case OpSet(f, v) =>
      ClearKeeps(elements, f);
      RemoveAllIs(elements, TlvType(f), typ);
      EncodedType(f, v);
      InsertExtends(Clear(elements, f), EncodeField(f, v), typ);
    case OpRemove(f, i) =>
      if i < Count(elements, f) {
        RemoveNthIs(elements, TlvType(f), i, typ);
      }
    case OpClear(f) =>
      RemoveAllIs(elements, TlvType(f), typ);
  }

  lemma ApplyHoldsField(elements: seq<Block>, held: Fields, op: Op, g: Field)
    requires Ordered(elements) && HoldsField(elements, op.field, Values(held, op.field))
    requires HoldsField(elements, g, Values(held, g))
    requires op.OpAdd? || op.OpSet? ==> HasType(op.field, op.value)
    ensures HoldsField(Apply(elements, op), g, Values(After(held, op), g))
  {
    hide Ordered, HoldsField, Insert, RemoveAll, RemoveNth, EncodeField, HasType, OfType;
    var f, vs := op.field, Values(held, g);
    HeldCount(elements, f, Values(held, f));
    match op
    case OpAdd(_, v) =>
      HoldsAdd(elements, f, v, g, vs);
    case OpSet(_, v) =>
      ClearKeeps(elements, f);
      HoldsClear(elements, f, g, vs);
      HoldsAdd(Clear(elements, f), f, v, g, if g == f then [] else vs);
      assert [] + [v] == [v];
    case OpRemove(_, i) =>
      if i < Count(elements, f) {
        HoldsRemove(elements, f, i, g, vs);
      }
    case OpClear(_) =>
      HoldsClear(elements, f, g, vs);
  }

  lemma HeldCount(elements: seq<Block>, f: Field, vs: seq<Value>)
    requires HoldsField(elements, f, vs)
    ensures Count(elements, f) == |vs|
  {
  }

  lemma ApplyHolds(elements: seq<Block>, held: Fields, op: Op)
    requires Ordered(elements) && Holds(elements, held)
    requires op.OpAdd? || op.OpSet? ==> HasType(op.field, op.value)
    ensures Holds(Apply(elements, op), After(held, op))
  {
    hide Ordered, HoldsField, Apply, After, Values, HasType, OfType;
    forall g: Field ensures HoldsField(Apply(elements, op), g, Values(After(held, op), g)) {
      assert HoldsField(elements, op.field, Values(held, op.field)) && HoldsField(elements, g, Values(held, g));
      ApplyHoldsField(elements, held, op, g);
    }
    forall typ: nat | forall f: Field :: TlvType(f) != typ ensures OfType(Apply(elements, op), typ) == [] {
      NoForeign(elements, op, typ);
    }
  }

  lemma {:induction false} ApplyAllHolds(elements: seq<Block>, held: Fields, ops: seq<Op>)
    requires Ordered(elements) && Holds(elements, held) && WellTyped(ops)
    ensures Holds(ApplyAll(elements, ops), AfterAll(held, ops))
    decreases |ops|
  {
    hide Ordered, Holds, Apply, After, HasType;
    if ops != [] {
      assert ops[0] in ops;
      ApplyKeeps(elements, ops[0]);
      ApplyHolds(elements, held, ops[0]);
      ApplyAllHolds(Apply(elements, ops[0]), After(held, ops[0]), ops[1..]);
    }
  }

  // ---------------------------------------------------------------------
  // What add and set do to the values
  // ---------------------------------------------------------------------

  lemma {:induction false} DecodeAllAppend(f: Field, a: seq<Block>, b: Block)
    requires DecodeAll(f, a).Success?
    ensures DecodeField(f, b).Failure? ==> DecodeAll(f, a + [b]) == Failure(DecodeField(f, b).error)
    ensures DecodeField(f, b).Success? ==>
              DecodeAll(f, a + [b]) == Success(DecodeAll(f, a).value + [DecodeField(f, b).value])
    decreases |a|
  {
    hide DecodeField;
    if a == [] {
      assert a + [b] == [b] && [b][1..] == [];
      if DecodeField(f, b).Success? {
        var v := DecodeField(f, b).value;
        assert [v] + [] == [] + [v];
      }
    } else {
      DecodeAllAppend(f, a[1..], b);
      assert (a + [b])[1..] == a[1..] + [b];
      ghost var v, vs := DecodeField(f, a[0]).value, DecodeAll(f, a[1..]).value;
      if DecodeField(f, b).Success? {
        assert [v] + (vs + [DecodeField(f, b).value]) == ([v] + vs) + [DecodeField(f, b).value];
      }
    }
  }

  /** add extends the list of its field by the value and leaves every other field's list
      alone; the one exception is the empty fragment, after which listing fragments fails. */
  lemma AddExtendsList(elements: seq<Block>, f: Field, v: Value, g: Field)
    requires HasType(f, v) && Ordered(elements) && Add(elements, f, v).Success? && List(elements, f).Success?
    ensures var r := Add(elements, f, v).value;
            && (g != f ==> List(r, g) == List(elements, g))
            && (List(r, f) == Success(List(elements, f).value + [v]) <==> !(f == Fragment && v.bytes == []))
            && (f == Fragment && v.bytes == [] ==> List(r, f) == Failure(DecodeError))
  {
    hide Ordered, Insert, OfType, DecodeField, EncodeField;
    var b := EncodeField(f, v);
    EncodedType(f, v);
    InsertExtends(elements, b, TlvType(f));
    InsertExtends(elements, b, TlvType(g));
    TypesDiffer(f, g);
    FieldRoundTrip(f, v);
    DecodeAllAppend(f, OfType(elements, TlvType(f)), b);
    if f == Fragment && v.bytes == [] {
      assert List(Add(elements, f, v).value, f) == Failure(DecodeError);
    }
  }

  lemma EncodedType(f: Field, v: Value)
    requires HasType(f, v)
    ensures EncodeField(f, v).typ == TlvType(f)
  {
  }

  /** set never throws, replaces the field by the one value, and leaves the others alone. */
  lemma SetReplaces(elements: seq<Block>, f: Field, v: Value, g: Field)
    requires HasType(f, v) && Ordered(elements)
    ensures var r := Apply(elements, OpSet(f, v));
            && Add(Clear(elements, f), f, v) == Success(r)
            && OfType(r, TlvType(f)) == [EncodeField(f, v)]
            && (g != f ==> OfType(r, TlvType(g)) == OfType(elements, TlvType(g)))
  {
    hide Ordered, Insert, OfType, RemoveAll, EncodeField;
    ClearKeeps(elements, f);
    EncodedType(f, v);
    InsertExtends(Clear(elements, f), EncodeField(f, v), TlvType(f));
    InsertExtends(Clear(elements, f), EncodeField(f, v), TlvType(g));
    RemoveAllIs(elements, TlvType(f), TlvType(g));
    TypesDiffer(f, g);
  }

  /** An empty fragment is the one value that a packet takes and does not give back. */
  predicate Readable(f: Field, v: Value) {
    f == Fragment ==> v != Bytes([])
  }

  lemma {:induction false} DecodeEncodings(f: Field, vs: seq<Value>)
    requires forall v <- vs :: HasType(f, v)
    ensures DecodeAll(f, Encodings(f, vs)) ==
              if forall v <- vs :: Readable(f, v) then Success(vs) else Failure(DecodeError)
    decreases |vs|
  {
    hide DecodeField, EncodeField;
    if vs != [] {
      DecodeEncodings(f, vs[1..]);
      FieldRoundTrip(f, vs[0]);
      ReadableExactly(f, vs[0]);
      assert Encodings(f, vs)[1..] == Encodings(f, vs[1..]);
      assert vs == [vs[0]] + vs[1..];
    }
  }

  lemma ReadableExactly(f: Field, v: Value)
    requires HasType(f, v)
    ensures Readable(f, v) <==> !(f == Fragment && v.bytes == [])
  {
  }

  /** A packet built from empty gives back, field by field and in order, what the calls left
      in it. */
  lemma BuiltPacketGivesBack(ops: seq<Op>, f: Field, index: nat)
    requires WellTyped(ops)
    ensures var e, vs := ApplyAll([], ops), Values(AfterAll(map[], ops), f);
            && List(e, f) == (if forall v <- vs :: Readable(f, v) then Success(vs) else Failure(DecodeError))
            && Get(e, f, index) == (if index >= |vs| then Failure(OutOfRange)
                                    else if Readable(f, vs[index]) then Success(vs[index])
                                    else Failure(DecodeError))
  {
    hide EncodeField, DecodeField, HasType;
    NothingHeld();
    ApplyAllHolds([], map[], ops);
    var e, held := ApplyAll([], ops), AfterAll(map[], ops);
    var vs := Values(held, f);
    assert HoldsField(e, f, vs);
    DecodeEncodings(f, vs);
    if index < |vs| {
      FieldRoundTrip(f, vs[index]);
      ReadableExactly(f, vs[index]);
    }
  }

  /** Two call sequences that leave the same values in every field build the same packet. */
  lemma SameFieldsSamePacket(ops: seq<Op>, ops': seq<Op>)
    requires WellTyped(ops) && WellTyped(ops')
    requires forall f: Field :: Values(AfterAll(map[], ops), f) == Values(AfterAll(map[], ops'), f)
    ensures ApplyAll([], ops) == ApplyAll([], ops')
  {
    hide EncodeField, HasType, OfType, After, Apply;
    NothingHeld();
    ApplyAllHolds([], map[], ops);
    ApplyAllHolds([], map[], ops');
    ApplyAllKeeps([], ops);
    ApplyAllKeeps([], ops');
    var a, b := ApplyAll([], ops), ApplyAll([], ops');
    forall typ: nat ensures OfType(a, typ) == OfType(b, typ) {
      if f: Field :| TlvType(f) == typ {
        assert HoldsField(a, f, Values(AfterAll(map[], ops), f));
        assert HoldsField(b, f, Values(AfterAll(map[], ops'), f));
      }
    }
    OrderedUnique(a, b);
  }

  lemma NothingHeld()
    ensures Holds([], map[])
  {
    assert forall g: Field :: Encodings(g, []) == [];
  }

  // ---------------------------------------------------------------------
  // The packet object
  // ---------------------------------------------------------------------

  class Packet {
    /** The elements of m_wire, which is kept parsed. */
    var elements: seq<Block>

    constructor ()
      ensures elements == [] && Ordered(elements) && NoRepeats(elements)
    {
      elements := [];
    }

    method GetAt(f: Field, index: nat) returns (r: Result<Value, Error>)
      ensures r == Get(elements, f, index)
    {
      hide DecodeField;
      var count := 0;
      ghost var found: seq<Block> := [];
      assert elements[0..] == elements;
      assert [] + OfType(elements, TlvType(f)) == OfType(elements, TlvType(f));
      for k := 0 to |elements|
        invariant OfType(elements, TlvType(f)) == found + OfType(elements[k..], TlvType(f))
        invariant count == |found| <= index
      {
        OfTypeNext(elements, k, TlvType(f));
        hide OfType;
        if elements[k].typ != TlvType(f) {
          continue;
        }
        if count == index {
          return DecodeField(f, elements[k]);
        }
        Regroup(found, elements[k], OfType(elements[k + 1..], TlvType(f)));
        found := found + [elements[k]];
        count := count + 1;
      }
      return Failure(OutOfRange);
    }

    method ListAll(f: Field) returns (r: Result<seq<Value>, Error>)
      ensures r == List(elements, f)
    {
      hide DecodeField;
      var output: seq<Value> := [];
      assert elements[0..] == elements;
      BehindNothing(DecodeAll(f, OfType(elements, TlvType(f))));
      for k := 0 to |elements|
        invariant List(elements, f) == Behind(output, DecodeAll(f, OfType(elements[k..], TlvType(f))))
      {
        OfTypeNext(elements, k, TlvType(f));
        hide OfType;
        if elements[k].typ != TlvType(f) {
          continue;
        }
        var decoded := DecodeField(f, elements[k]);
        DecodeAllCons(f, elements[k], OfType(elements[k + 1..], TlvType(f)), output);
        if decoded.Failure? {
          return Failure(decoded.error);
        }
        output := output + [decoded.value];
      }
      assert output + [] == output;
      return Success(output);
    }

    /** std::upper_bound by halving. */
    method FindUpperBound(typ: nat) returns (pos: nat)
      requires Ordered(elements)
      ensures pos == UpperBound(elements, typ)
    {
      UpperBoundSplits(elements, typ);
      var count := |elements|;
      pos := 0;
      while count > 0
        invariant pos + count <= |elements|
        invariant pos <= UpperBound(elements, typ) <= pos + count
      {
        var step := count / 2;
        if CompareFieldSortOrder(typ, elements[pos + step].typ) {
          count := step;
        } else {
          pos := pos + step + 1;
          count := count - step - 1;
        }
      }
    }

    method AddField(f: Field, v: Value) returns (r: Result<(), Error>)
      requires HasType(f, v) && Ordered(elements)
      modifies this
      ensures Ordered(elements) && (old(NoRepeats(elements)) ==> NoRepeats(elements))
      ensures var a := Add(old(elements), f, v);
              if a.Success? then r == Success(()) && elements == a.value
              else r == Failure(a.error) && elements == old(elements)
    {
      hide OfType, EncodeField, Ordered, NoRepeats;
      if !IsRepeatable(f) && Count(elements, f) > 0 {
        return Failure(LengthError);
      }
      AddKeeps(elements, f, v);
      var block := EncodeField(f, v);
      EncodedType(f, v);
      var pos := FindUpperBound(TlvType(f));
      elements := InsertAt(elements, pos, block);
      return Success(());
    }

    /** The position of the index-th element of a type, if there are so many. */
    method FindNth(typ: nat, index: nat) returns (pos: nat)
      ensures pos <= |elements|
      ensures pos == |elements| <==> index >= |OfType(elements, typ)|
      ensures pos < |elements| ==> RemoveNth(elements, typ, index) == elements[..pos] + elements[pos + 1..]
    {
      hide RemoveNth, OfType;
      var count := 0;
      pos := 0;
      assert elements[0..] == elements && [] + RemoveNth(elements, typ, index) == RemoveNth(elements, typ, index);
      while pos < |elements|
        invariant pos <= |elements| && count <= index
        invariant |OfType(elements, typ)| == count + |OfType(elements[pos..], typ)|
        invariant RemoveNth(elements, typ, index) == elements[..pos] + RemoveNth(elements[pos..], typ, index - count)
      {
        OfTypeNext(elements, pos, typ);
        RemoveNthNext(elements, pos, typ, index - count);
        if elements[pos].typ == typ {
          if count == index {
            return;
          }
          count := count + 1;
        }
        pos := pos + 1;
      }
      NoneOfType(elements[pos..], typ);
    }

    method RemoveField(f: Field, index: nat) returns (r: Result<(), Error>)
      requires Ordered(elements)
      modifies this
      ensures Ordered(elements) && (old(NoRepeats(elements)) ==> NoRepeats(elements))
      ensures var a := Remove(old(elements), f, index);
              if a.Success? then r == Success(()) && elements == a.value
              else r == Failure(a.error) && elements == old(elements)
    {
      hide Ordered, NoRepeats, RemoveNth, OfType;
      var pos := FindNth(TlvType(f), index);
      if pos == |elements| {
        return Failure(OutOfRange);
      }
      RemoveKeeps(elements, f, index);
      elements := elements[..pos] + elements[pos + 1..];
      return Success(());
    }

    method ClearField(f: Field)
      requires Ordered(elements)
      modifies this
      ensures Ordered(elements) && (old(NoRepeats(elements)) ==> NoRepeats(elements))
      ensures elements == Clear(old(elements), f)
    {
      ClearKeeps(elements, f);
      elements := RemoveAll(elements, TlvType(f));
    }

    method SetField(f: Field, v: Value)
      requires HasType(f, v) && Ordered(elements)
      modifies this
      ensures Ordered(elements) && (old(NoRepeats(elements)) ==> NoRepeats(elements))
      ensures elements == Apply(old(elements), OpSet(f, v))
    {
      hide Ordered, NoRepeats;
      ClearField(f);
      var _ := AddField(f, v);
    }
  }

  function Behind(output: seq<Value>, r: Result<seq<Value>, Error>): Result<seq<Value>, Error> {
    match r
    case Success(vs) => Success(output + vs)
    case Failure(e) => Failure(e)
  }

  lemma BehindNothing(r: Result<seq<Value>, Error>)
    ensures Behind([], r) == r
  {
    if r.Success? {
      assert [] + r.value == r.value;
    }
  }

  lemma DecodeAllCons(f: Field, b: Block, rest: seq<Block>, output: seq<Value>)
    ensures DecodeField(f, b).Failure? ==> Behind(output, DecodeAll(f, [b] + rest)) == Failure(DecodeField(f, b).error)
    ensures DecodeField(f, b).Success? ==>
              Behind(output, DecodeAll(f, [b] + rest)) == Behind(output + [DecodeField(f, b).value], DecodeAll(f, rest))
  {
    hide DecodeField;
    assert ([b] + rest)[1..] == rest;
    if DecodeField(f, b).Success? && DecodeAll(f, rest).Success? {
      var v, vs := DecodeField(f, b).value, DecodeAll(f, rest).value;
      assert output + ([v] + vs) == (output + [v]) + vs;
    }
  }

  lemma Regroup(a: seq<Block>, b: Block, c: seq<Block>)
    ensures a + ([b] + c) == (a + [b]) + c
  {
  }

  lemma OfTypeNext(elements: seq<Block>, k: nat, typ: nat)
    requires k < |elements|
    ensures OfType(elements[k..], typ) == if elements[k].typ == typ then [elements[k]] + OfType(elements[k + 1..], typ)
                                          else OfType(elements[k + 1..], typ)
    ensures OfType(elements[..k + 1], typ) == if elements[k].typ == typ then OfType(elements[..k], typ) + [elements[k]]
                                              else OfType(elements[..k], typ)
  {
    assert elements[k..] == [elements[k]] + elements[k + 1..];
    OfTypeCons(elements[k], elements[k + 1..], typ);
    assert elements[..k + 1] == elements[..k] + [elements[k]];
    OfTypeAppend(elements[..k], [elements[k]], typ);
    OfTypeOne(elements[k], typ);
    assert OfType(elements[..k], typ) + [] == OfType(elements[..k], typ);
  }

  lemma RemoveNthNext(elements: seq<Block>, k: nat, typ: nat, index: nat)
    requires k < |elements|
    ensures elements[..k] + RemoveNth(elements[k..], typ, index) ==
              if elements[k].typ != typ then elements[..k + 1] + RemoveNth(elements[k + 1..], typ, index)
              else if index == 0 then elements[..k] + elements[k + 1..]
              else elements[..k + 1] + RemoveNth(elements[k + 1..], typ, index - 1)
  {
    assert elements[k..][1..] == elements[k + 1..];
    assert elements[..k + 1] == elements[..k] + [elements[k]];
  }
}
