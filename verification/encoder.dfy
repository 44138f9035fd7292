/** The two-ended encoding buffer, its size-only counterpart, and the helpers that build
    blocks with them. */
module Encoder {
  import opened Tlv
  import opened Framing

  // ---------------------------------------------------------------------
  // The encoder
  // ---------------------------------------------------------------------

  function Replaced(s: Bytes, bytes: Bytes, at: nat): Bytes
    requires at + |bytes| <= |s|
  {
    s[..at] + bytes + s[at + |bytes|..]
  }

  lemma SliceOfReplaced(s: Bytes, bytes: Bytes, at: nat, end: nat)
    requires at + |bytes| <= end <= |s|
    ensures Replaced(s, bytes, at)[at..end] == bytes + s[at + |bytes|..end]
  {
  }

  lemma SliceOfAppended(s: Bytes, bytes: Bytes, begin: nat, at: nat)
    requires begin <= at && at + |bytes| <= |s|
    ensures Replaced(s, bytes, at)[begin..at + |bytes|] == s[begin..at] + bytes
  {
  }

  class Encoder {
    var buffer: array<Byte>
    var begin: nat
    var end: nat

    ghost predicate Valid()
      reads this
    {
      begin <= end <= buffer.Length
    }

    function Contents(): Bytes
      requires Valid()
      reads this, buffer
    {
      buffer[begin..end]
    }

    /** Room is left for reserveFromBack bytes to append, the rest is for prepending. */
    constructor (totalReserve: nat, reserveFromBack: nat)
      ensures Valid() && fresh(buffer) && Contents() == []
      ensures buffer.Length == totalReserve
      ensures begin == if reserveFromBack <= totalReserve then totalReserve - reserveFromBack else 0
    {
      buffer := new Byte[totalReserve];
      begin := if reserveFromBack <= totalReserve then totalReserve - reserveFromBack else 0;
      end := if reserveFromBack <= totalReserve then totalReserve - reserveFromBack else 0;
    }

    function Size(): nat
      requires Valid()
      reads this
    {
      end - begin
    }

    /** Move the contents to a larger buffer with front free bytes before them. */
    method Reallocate(front: nat, length: nat)
      requires Valid() && front + (end - begin) <= length
      modifies this
      ensures Valid() && fresh(buffer)
      ensures Contents() == old(Contents())
      ensures begin == front && buffer.Length == length
    {
      var larger := new Byte[length];
      var size := end - begin;
      forall k | 0 <= k < size {
        larger[front + k] := buffer[begin + k];
      }
      assert larger[front..front + size] == buffer[begin..end];
      buffer, begin, end := larger, front, front + size;
    }

    method ReserveFront(size: nat)
      requires Valid()
      modifies this
      ensures Valid() && begin >= size && Contents() == old(Contents())
      ensures old(begin) >= size ==> buffer == old(buffer) && begin == old(begin)
      ensures buffer == old(buffer) || fresh(buffer)
    {
      if begin < size {
        Reallocate(begin + size, buffer.Length + size);
      }
    }

    method ReserveBack(size: nat)
      requires Valid()
      modifies this
      ensures Valid() && end + size <= buffer.Length && Contents() == old(Contents())
      ensures begin == old(begin)
      ensures buffer == old(buffer) || fresh(buffer)
    {
      if buffer.Length < end + size {
        Reallocate(begin, buffer.Length + size);
      }
    }

    method PrependRange(bytes: Bytes) returns (length: nat)
      requires Valid()
      modifies this, buffer
      ensures Valid() && Contents() == bytes + old(Contents())
      ensures length == |bytes|
      ensures old(begin) >= |bytes| ==> buffer == old(buffer) && begin == old(begin) - |bytes|
      ensures buffer == old(buffer) || fresh(buffer)
    {
      length := |bytes|;
      ReserveFront(length);
      begin := begin - length;
      ghost var s := buffer[..];
      Copy(bytes, begin);
      SliceOfReplaced(s, bytes, begin, end);
    }

    method AppendRange(bytes: Bytes) returns (length: nat)
      requires Valid()
      modifies this, buffer
      ensures Valid() && Contents() == old(Contents()) + bytes
      ensures length == |bytes|
      ensures buffer == old(buffer) || fresh(buffer)
    {
      length := |bytes|;
      ReserveBack(length);
      ghost var s := buffer[..];
      Copy(bytes, end);
      SliceOfAppended(s, bytes, begin, end);
      end := end + length;
    }

    method Copy(bytes: Bytes, at: nat)
      requires at + |bytes| <= buffer.Length
      modifies buffer
      ensures buffer[..] == Replaced(old(buffer[..]), bytes, at)
    {
      forall k | 0 <= k < |bytes| {
        buffer[at + k] := bytes[k];
      }
    }

    method PrependVarNumber(number: UInt64) returns (length: nat)
      requires Valid()
      modifies this, buffer
      ensures Valid() && Contents() == WriteVarNumber(number) + old(Contents())
      ensures length == SizeOfVarNumber(number)
      ensures old(begin) >= length ==> buffer == old(buffer) && begin == old(begin) - length
      ensures buffer == old(buffer) || fresh(buffer)
    {
      length := PrependRange(WriteVarNumber(number));
    }

    /** The block whose wire is the contents, which must be one whole element. */
    method GetBlock() returns (block: Option<Block>)
      requires Valid()
      ensures block == var b := FromBuffer(Contents()); if b.Some? && b.value.Size() == |Contents()| then b else None
    {
      block := FromBuffer(buffer[begin..end]);
      if block.Some? && block.value.Size() != end - begin {
        block := None;
      }
    }
  }

  // ---------------------------------------------------------------------
  // Blocks from bytes
  // ---------------------------------------------------------------------

  function EstimateBlock(typ: UInt32, length: nat): nat {
    length + SizeOfVarNumber(length) + SizeOfVarNumber(typ)
  }

  lemma BlockIsExact(typ: UInt32, value: Bytes)
    requires |value| <= UINT64_MAX
    ensures |EncodeBlock(typ, value)| == EstimateBlock(typ, |value|)
    ensures FromBuffer(EncodeBlock(typ, value)) == Some(Block(typ, value, EncodeBlock(typ, value)))
  {
    BlockRoundTrip(typ, value, []);
    assert EncodeBlock(typ, value) + [] == EncodeBlock(typ, value);
  }

  lemma EncodeBlockInSteps(typ: UInt32, value: Bytes)
    requires |value| <= UINT64_MAX
    ensures WriteVarNumber(typ) + (WriteVarNumber(|value|) + (value + [])) == EncodeBlock(typ, value)
  {
    hide WriteVarNumber;
  }

  /** DataBlockFast: the estimate is exact, so the encoder never grows its buffer and uses
      every byte of it. */
  method DataBlockFast(typ: UInt32, value: Bytes) returns (block: Option<Block>, capacity: nat)
    requires |value| <= UINT64_MAX
    ensures block == Some(Block(typ, value, EncodeBlock(typ, value)))
    ensures capacity == |EncodeBlock(typ, value)|
  {
    BlockIsExact(typ, value);
    EncodeBlockInSteps(typ, value);
    hide FromBuffer, WriteVarNumber, EncodeBlock, SizeOfVarNumber;
    var valueLength := |value|;
    var totalLength := valueLength;
    totalLength := totalLength + SizeOfVarNumber(valueLength);
    totalLength := totalLength + SizeOfVarNumber(typ);
    var encoder := new Encoder(totalLength, 0);
    var _ := encoder.PrependRange(value);
    var _ := encoder.PrependVarNumber(valueLength);
    var _ := encoder.PrependVarNumber(typ);
    block := encoder.GetBlock();
    capacity := encoder.buffer.Length;
  }

  /** DataBlockSlow appends first and prepends afterwards; the bytes are the same. */
  method DataBlockSlow(typ: UInt32, value: Bytes) returns (block: Option<Block>)
    requires |value| <= UINT64_MAX
    ensures block == Some(Block(typ, value, EncodeBlock(typ, value)))
  {
    BlockIsExact(typ, value);
    EncodeBlockInSteps(typ, value);
    hide FromBuffer, WriteVarNumber, EncodeBlock, SizeOfVarNumber;
    var encoder := new Encoder(4, 4);
    var valueLength := encoder.AppendRange(value);
    assert encoder.Contents() == value + [];
    var _ := encoder.PrependVarNumber(valueLength);
    var _ := encoder.PrependVarNumber(typ);
    block := encoder.GetBlock();
  }

  // ---------------------------------------------------------------------
  // Nested blocks
  // ---------------------------------------------------------------------

  /** Something that can be encoded: a value of bytes, or a sequence of such things, under a
      TLV-TYPE. */
  datatype Wire = Leaf(typ: UInt32, value: Bytes) | Nested(typ: UInt32, children: seq<Wire>)

  /** What the estimator adds up. */
  function Estimate(w: Wire): nat
    decreases w, 1
  {
    EstimateBlock(w.typ, EstimateValue(w))
  }

  function EstimateValue(w: Wire): nat
    decreases w, 0
  {
    match w
    case Leaf(_, value) => |value|
    case Nested(_, children) => EstimateAll(children)
  }

  function EstimateAll(ws: seq<Wire>): nat
    decreases ws, 0
  {
    if ws == [] then 0 else Estimate(ws[0]) + EstimateAll(ws[1..])
  }

  /** Every length fits the 64-bit size type. */
  predicate Fits(w: Wire)
    decreases w, 1
  {
    EstimateValue(w) <= UINT64_MAX && (w.Nested? ==> FitAll(w.children))
  }

  predicate FitAll(ws: seq<Wire>)
    decreases ws, 0
  {
    ws == [] || (Fits(ws[0]) && FitAll(ws[1..]))
  }

  function Encode(w: Wire): (s: Bytes)
    requires Fits(w)
    ensures |s| == Estimate(w)
    decreases w, 1
  {
    EncodeBlock(w.typ, EncodeValue(w))
  }

  function EncodeValue(w: Wire): (s: Bytes)
    requires Fits(w)
    ensures |s| == EstimateValue(w)
    decreases w, 0
  {
    match w
    case Leaf(_, value) => value
    case Nested(_, children) => EncodeAll(children)
  }

  function EncodeAll(ws: seq<Wire>): (s: Bytes)
    requires FitAll(ws)
    ensures |s| == EstimateAll(ws)
    decreases ws, 0
  {
    if ws == [] then [] else Encode(ws[0]) + EncodeAll(ws[1..])
  }

  /** The block that decoding the wire form of w yields. */
  function BlockOf(w: Wire): Block
    requires Fits(w)
  {
    Block(w.typ, EncodeValue(w), Encode(w))
  }

  function BlocksOf(ws: seq<Wire>): seq<Block>
    requires FitAll(ws)
    decreases |ws|
  {
    if ws == [] then [] else [BlockOf(ws[0])] + BlocksOf(ws[1..])
  }

  /** Decoding gives back the type and the value, whatever follows the block. */
  lemma NestedRoundTrip(w: Wire, rest: Bytes)
    requires Fits(w)
    ensures FromBuffer(Encode(w) + rest) == Some(BlockOf(w))
  {
    hide FromBuffer;
    BlockRoundTrip(w.typ, EncodeValue(w), rest);
  }

  /** Parsing the value of a nested block gives back its children, each of which round
      trips in turn, and nothing is left over. */
  lemma {:induction false} ChildrenRoundTrip(ws: seq<Wire>)
    requires FitAll(ws)
    ensures ParseAll(EncodeAll(ws)) == Parsed(BlocksOf(ws), |EncodeAll(ws)|)
    decreases |ws|
  {
    hide FromBuffer;
    var s := EncodeAll(ws);
    if ws == [] {
      EmptyHasNoBlock();
    } else {
      NestedRoundTrip(ws[0], EncodeAll(ws[1..]));
      var e := BlockOf(ws[0]);
      assert s[e.Size()..] == EncodeAll(ws[1..]);
      ChildrenRoundTrip(ws[1..]);
      hide ParseAll;
      ParseAllStep(s, e);
    }
  }

  lemma EmptyHasNoBlock()
    ensures FromBuffer([]).None?
  {
  }

  lemma {:induction false} FitAllAt(ws: seq<Wire>, k: nat)
    requires FitAll(ws) && k < |ws|
    ensures Fits(ws[k]) && FitAll(ws[k..]) && FitAll(ws[k + 1..])
    decreases |ws|
  {
    if k > 0 {
      FitAllAt(ws[1..], k - 1);
      assert ws[1..][k - 1..] == ws[k..] && ws[1..][k..] == ws[k + 1..];
    }
  }

  /** wireEncode: children are prepended last to first, then length and type. */
  method PrependWire(encoder: Encoder, w: Wire) returns (totalLength: nat)
    requires encoder.Valid() && Fits(w)
    modifies encoder, encoder.buffer
    ensures encoder.Valid() && encoder.Contents() == Encode(w) + old(encoder.Contents())
    ensures totalLength == Estimate(w)
    ensures old(encoder.begin) >= totalLength ==>
              encoder.buffer == old(encoder.buffer) && encoder.begin == old(encoder.begin) - totalLength
    ensures encoder.buffer == old(encoder.buffer) || fresh(encoder.buffer)
    decreases w, 1
  {
    ghost var before := encoder.Contents();
    var valueLength := PrependValue(encoder, w);
    totalLength := valueLength;
    var typeLength, lengthLength;
    lengthLength := encoder.PrependVarNumber(valueLength);
    typeLength := encoder.PrependVarNumber(w.typ);
    totalLength := totalLength + lengthLength + typeLength;
    Associate(WriteVarNumber(w.typ), WriteVarNumber(valueLength), EncodeValue(w), before);
  }

  lemma Associate(a: Bytes, b: Bytes, c: Bytes, d: Bytes)
    ensures a + (b + (c + d)) == (a + b + c) + d
  {
  }

  method PrependValue(encoder: Encoder, w: Wire) returns (length: nat)
    requires encoder.Valid() && Fits(w)
    modifies encoder, encoder.buffer
    ensures encoder.Valid() && encoder.Contents() == EncodeValue(w) + old(encoder.Contents())
    ensures length == EstimateValue(w)
    ensures old(encoder.begin) >= length ==>
              encoder.buffer == old(encoder.buffer) && encoder.begin == old(encoder.begin) - length
    ensures encoder.buffer == old(encoder.buffer) || fresh(encoder.buffer)
    decreases w, 0
  {
    if w.Leaf? {
      length := encoder.PrependRange(w.value);
      return;
    }
    hide Encode, Estimate, Fits;
    var children := w.children;
    length := 0;
    var k := |children|;
    ghost var before, start := encoder.Contents(), encoder.begin;
    assert [] + before == before;
    while k > 0
      invariant 0 <= k <= |children| && FitAll(children[k..])
      invariant encoder.Valid() && encoder.Contents() == EncodeAll(children[k..]) + before
      invariant length == EstimateAll(children[k..])
      invariant start >= length ==> encoder.buffer == old(encoder.buffer) && encoder.begin == start - length
      invariant encoder.buffer == old(encoder.buffer) || fresh(encoder.buffer)
    {
      k := k - 1;
      FitAllAt(children, k);
      EncodeAllStep(children, k, before);
      var childLength := PrependWire(encoder, children[k]);
      length := length + childLength;
    }
    assert children[0..] == children;
  }

  lemma EncodeAllStep(ws: seq<Wire>, k: nat, before: Bytes)
    requires k < |ws| && FitAll(ws[k..])
    ensures Fits(ws[k]) && FitAll(ws[k + 1..])
    ensures Encode(ws[k]) + (EncodeAll(ws[k + 1..]) + before) == EncodeAll(ws[k..]) + before
    ensures EstimateAll(ws[k..]) == Estimate(ws[k]) + EstimateAll(ws[k + 1..])
  {
    assert ws[k..][1..] == ws[k + 1..];
    hide Encode, Estimate;
  }

  /** makeNestedBlock: the estimator run sizes the buffer exactly. */
  method MakeNestedBlock(typ: UInt32, value: seq<Wire>) returns (block: Option<Block>, capacity: nat)
    requires Fits(Nested(typ, value))
    ensures block == Some(BlockOf(Nested(typ, value)))
    ensures capacity == |Encode(Nested(typ, value))|
  {
    var w := Nested(typ, value);
    NestedRoundTrip(w, []);
    hide FromBuffer;
    assert Encode(w) + [] == Encode(w);
    var encoder := new Encoder(Estimate(w), 0);
    var _ := PrependWire(encoder, w);
    assert encoder.Contents() == Encode(w);
    block := encoder.GetBlock();
    capacity := encoder.buffer.Length;
  }
}
