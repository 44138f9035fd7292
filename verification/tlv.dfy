/** The TLV codec of ndn-cxx: VAR-NUMBER, nonNegativeInteger, and the Block framing
    built on them. Bytes are numbers below 256 and multi-octet numbers are big-endian. */
module Tlv {

  datatype Option<+T> = None | Some(value: T)

  type Byte = b: int | 0 <= b < 256
  type Bytes = seq<Byte>

  const UINT16_MAX := 0xFFFF
  const UINT32_MAX := 0xFFFF_FFFF
  const UINT64_MAX := 0xFFFF_FFFF_FFFF_FFFF

  type UInt32 = n: int | 0 <= n <= UINT32_MAX
  type UInt64 = n: int | 0 <= n <= UINT64_MAX

  const MAX_NDN_PACKET_SIZE := 8800

  // ---------------------------------------------------------------------
  // Big-endian numbers
  // ---------------------------------------------------------------------

  function Pow256(k: nat): (p: nat)
    ensures p > 0
  {
    if k == 0 then 1 else 256 * Pow256(k - 1)
  }

  function FromBigEndian(s: Bytes): nat {
    if s == [] then 0 else 256 * FromBigEndian(s[..|s| - 1]) + s[|s| - 1]
  }

  function ToBigEndian(n: nat, k: nat): (s: Bytes)
    ensures |s| == k
  {
    if k == 0 then [] else ToBigEndian(n / 256, k - 1) + [n % 256]
  }

  lemma Pow256Values()
    ensures Pow256(1) == 0x100 && Pow256(2) == UINT16_MAX + 1
    ensures Pow256(4) == UINT32_MAX + 1 && Pow256(8) == UINT64_MAX + 1
  {
    assert Pow256(3) == 0x100_0000;
    assert Pow256(5) == 0x100_0000_0000;
    assert Pow256(6) == 0x1_0000_0000_0000;
    assert Pow256(7) == 0x100_0000_0000_0000;
  }

  lemma Pow256Grows(j: nat, k: nat)
    requires j <= k
    ensures Pow256(j) <= Pow256(k)
  {
  }

  lemma {:induction false} FromBigEndianBound(s: Bytes)
    ensures FromBigEndian(s) < Pow256(|s|)
  {
    if s != [] {
      FromBigEndianBound(s[..|s| - 1]);
    }
  }

  lemma {:induction false} BigEndianRoundTrip(n: nat, k: nat)
    requires n < Pow256(k)
    ensures FromBigEndian(ToBigEndian(n, k)) == n
  {
    if k > 0 {
      BigEndianRoundTrip(n / 256, k - 1);
      assert ToBigEndian(n, k)[..k - 1] == ToBigEndian(n / 256, k - 1);
    }
  }

  lemma {:induction false} BigEndianUnique(s: Bytes)
    ensures ToBigEndian(FromBigEndian(s), |s|) == s
  {
    if s != [] {
      BigEndianUnique(s[..|s| - 1]);
      assert s == s[..|s| - 1] + [s[|s| - 1]];
    }
  }

  // ---------------------------------------------------------------------
  // VAR-NUMBER
  // ---------------------------------------------------------------------

  /** How many octets follow the first octet of a VAR-NUMBER. */
  function FollowingOctets(first: Byte): nat {
    if first < 253 then 0 else if first == 253 then 2 else if first == 254 then 4 else 8
  }

  /** What a successful read returns: the number and how far the iterator moved. */
  datatype NumberRead = NumberRead(number: UInt64, consumed: nat)

  /** The pointer form of readVarNumber on the bytes between begin and end. */
  function ReadVarNumber(s: Bytes): (r: Option<NumberRead>)
    ensures r.Some? ==> 1 <= r.value.consumed <= |s|
  {
    if s == [] then None
    else
      var k := FollowingOctets(s[0]);
      if k == 0 then Some(NumberRead(s[0], 1))
      else if |s| - 1 < k then None
      else
        FromBigEndianBound(s[1..1 + k]);
        Pow256Values();
        Some(NumberRead(FromBigEndian(s[1..1 + k]), 1 + k))
  }

  function ReadType(s: Bytes): (r: Option<NumberRead>)
    ensures r.Some? ==> 1 <= r.value.consumed <= |s| && r.value.number <= UINT32_MAX
  {
    var r := ReadVarNumber(s);
    if r.None? || r.value.number > UINT32_MAX then None else r
  }

  function SizeOfVarNumber(n: nat): nat {
    if n < 253 then 1 else if n <= UINT16_MAX then 3 else if n <= UINT32_MAX then 5 else 9
  }

  function WriteVarNumber(n: UInt64): (s: Bytes)
    ensures |s| == SizeOfVarNumber(n)
  {
    if n < 253 then [n]
    else if n <= UINT16_MAX then [253] + ToBigEndian(n, 2)
    else if n <= UINT32_MAX then [254] + ToBigEndian(n, 4)
    else [255] + ToBigEndian(n, 8)
  }

  /** Reading back what was written, whatever follows it. */
  lemma VarNumberRoundTrip(n: UInt64, rest: Bytes)
    ensures ReadVarNumber(WriteVarNumber(n) + rest) == Some(NumberRead(n, SizeOfVarNumber(n)))
  {
    var s := WriteVarNumber(n) + rest;
    var k := FollowingOctets(s[0]);
    Pow256Values();
    if n >= 253 {
      BigEndianRoundTrip(n, k);
      assert s[1..1 + k] == ToBigEndian(n, k);
    }
  }

  /** No encoding is a prefix of the encoding of another number. */
  lemma VarNumberPrefixFree(a: UInt64, b: UInt64)
    requires WriteVarNumber(a) <= WriteVarNumber(b)
    ensures a == b
  {
    var rest := WriteVarNumber(b)[|WriteVarNumber(a)|..];
    assert WriteVarNumber(b) == WriteVarNumber(a) + rest;
    assert WriteVarNumber(b) == WriteVarNumber(b) + [];
    VarNumberRoundTrip(a, rest);
    VarNumberRoundTrip(b, []);
  }

  /** The reader also accepts longer encodings of a number, never shorter ones, and the
      only encoding as short as the written one is the written one. */
  lemma VarNumberShortest(s: Bytes)
    requires ReadVarNumber(s).Some?
    ensures var r := ReadVarNumber(s).value;
            && r.consumed >= SizeOfVarNumber(r.number)
            && (r.consumed == SizeOfVarNumber(r.number) <==> s[..r.consumed] == WriteVarNumber(r.number))
  {
    var r := ReadVarNumber(s).value;
    var k := FollowingOctets(s[0]);
    Pow256Values();
    if k > 0 {
      FromBigEndianBound(s[1..1 + k]);
      BigEndianUnique(s[1..1 + k]);
      assert s[..1 + k] == [s[0]] + s[1..1 + k];
    }
  }

  /** A successful read does not change when more bytes arrive, and a read that becomes
      possible with more bytes needs some of them. */
  lemma ReadVarNumberStable(s: Bytes, more: Bytes)
    ensures ReadVarNumber(s).Some? ==> ReadVarNumber(s + more) == ReadVarNumber(s)
    ensures ReadVarNumber(s).None? && ReadVarNumber(s + more).Some? ==>
              ReadVarNumber(s + more).value.consumed > |s|
  {
    if s != [] {
      var k := FollowingOctets(s[0]);
      if |s| - 1 >= k {
        assert (s + more)[1..1 + k] == s[1..1 + k];
      }
    }
  }

  // ---------------------------------------------------------------------
  // nonNegativeInteger
  // ---------------------------------------------------------------------

  datatype TlvError = InsufficientData | InvalidLength

  datatype Result<+T, +E> = Success(value: T) | Failure(error: E)

  predicate IsNniLength(size: nat) {
    size == 1 || size == 2 || size == 4 || size == 8
  }

  /** The pointer form of readNonNegativeInteger. */
  function ReadNonNegativeInteger(size: nat, s: Bytes): (r: Result<NumberRead, TlvError>)
    ensures r.Success? ==> r.value.consumed == size <= |s|
  {
    if !IsNniLength(size) then Failure(InvalidLength)
    else if |s| < size then Failure(InsufficientData)
    else
      FromBigEndianBound(s[..size]);
      Pow256Values();
      Success(NumberRead(FromBigEndian(s[..size]), size))
  }

  function SizeOfNonNegativeInteger(n: UInt64): (k: nat)
    ensures IsNniLength(k)
  {
    if n < 253 then 1 else if n <= UINT16_MAX then 2 else if n <= UINT32_MAX then 4 else 8
  }

  function WriteNonNegativeInteger(n: UInt64): (s: Bytes)
    ensures |s| == SizeOfNonNegativeInteger(n)
  {
    if n < 253 then [n]
    else if n <= UINT16_MAX then ToBigEndian(n, 2)
    else if n <= UINT32_MAX then ToBigEndian(n, 4)
    else ToBigEndian(n, 8)
  }

  lemma NonNegativeIntegerRoundTrip(n: UInt64, rest: Bytes)
    ensures ReadNonNegativeInteger(SizeOfNonNegativeInteger(n), WriteNonNegativeInteger(n) + rest)
            == Success(NumberRead(n, SizeOfNonNegativeInteger(n)))
  {
    var k := SizeOfNonNegativeInteger(n);
    Pow256Values();
    assert (WriteNonNegativeInteger(n) + rest)[..k] == WriteNonNegativeInteger(n);
    if n >= 253 {
      BigEndianRoundTrip(n, k);
    } else {
      assert FromBigEndian([n]) == 256 * FromBigEndian([]) + n;
    }
  }

  /** sizeOfNonNegativeInteger is documented as the number of bytes necessary to hold the
      value. It borrows the VAR-NUMBER threshold 253, so it is the least legal length that
      holds the value exactly when the value is not 253, 254 or 255. */
  lemma NonNegativeIntegerShortest(n: UInt64)
    ensures (forall k: nat :: IsNniLength(k) && n < Pow256(k) ==> SizeOfNonNegativeInteger(n) <= k)
            <==> !(253 <= n <= 255)
  {
    Pow256Values();
    if 253 <= n <= 255 {
      assert IsNniLength(1) && n < Pow256(1) && SizeOfNonNegativeInteger(n) == 2;
    }
  }

  // ---------------------------------------------------------------------
  // The istream forms: shift-and-or loops
  // ---------------------------------------------------------------------

  /** Bitwise or, defined bit by bit. */
  function BitOr(a: nat, b: nat): nat {
    if a == 0 && b == 0 then 0
    else 2 * BitOr(a / 2, b / 2) + (if a % 2 == 1 || b % 2 == 1 then 1 else 0)
  }

  function ShiftLeft8(v: UInt64): UInt64 {
    (v * 256) % (UINT64_MAX + 1)
  }

  function Pow2(k: nat): (p: nat)
    ensures p > 0
  {
    if k == 0 then 1 else 2 * Pow2(k - 1)
  }

  lemma {:induction false} BitOrZero(b: nat)
    ensures BitOr(b, 0) == b && BitOr(0, b) == b
  {
    if b > 0 {
      BitOrZero(b / 2);
    }
  }

  lemma {:induction false} BitOrDisjoint(a: nat, b: nat, k: nat)
    requires b < Pow2(k)
    ensures BitOr(a * Pow2(k), b) == a * Pow2(k) + b
  {
    if k == 0 {
      BitOrZero(a);
    } else {
      var high := a * Pow2(k);
      assert high == 2 * (a * Pow2(k - 1)) by {
        assert Pow2(k) == 2 * Pow2(k - 1);
      }
      assert high / 2 == a * Pow2(k - 1);
      BitOrDisjoint(a, b / 2, k - 1);
    }
  }

  /** While the top octet of value is clear, shifting in one octet appends a digit. */
  lemma ShiftInOctet(v: UInt64, b: Byte)
    requires v < Pow256(7)
    ensures BitOr(ShiftLeft8(v), b) == 256 * v + b
  {
    Pow256Values();
    assert Pow256(8) == 256 * Pow256(7);
    assert ShiftLeft8(v) == v * 256;
    assert Pow2(4) == 16;
    assert Pow2(8) == 256;
    BitOrDisjoint(v, b, 8);
  }

  /** The loop of the istream forms: shift in up to count octets that begin at offset. */
  method ShiftInOctets(s: Bytes, offset: nat, wanted: nat) returns (value: UInt64, count: nat)
    requires offset <= |s| && wanted <= 8
    ensures count == if |s| - offset < wanted then |s| - offset else wanted
    ensures value == FromBigEndian(s[offset..offset + count])
  {
    value, count := 0, 0;
    while offset + count < |s| && count < wanted
      invariant offset + count <= |s| && count <= wanted
      invariant value == FromBigEndian(s[offset..offset + count])
    {
      ghost var digits := s[offset..offset + count + 1];
      assert digits[..count] == s[offset..offset + count];
      FromBigEndianBound(s[offset..offset + count]);
      Pow256Grows(count, 7);
      ShiftInOctet(value, s[offset + count]);
      FromBigEndianBound(digits);
      Pow256Grows(count + 1, 8);
      Pow256Values();
      value := BitOr(ShiftLeft8(value), s[offset + count]);
      count := count + 1;
    }
  }

  /** The istream form of readVarNumber accepts the same inputs, returns the same number
      and stops at the same byte as the pointer form. A failed read eats the whole input. */
  method ReadVarNumberFromStream(s: Bytes) returns (isOk: bool, value: UInt64, consumed: nat)
    ensures isOk <==> ReadVarNumber(s).Some?
    ensures isOk ==> ReadVarNumber(s) == Some(NumberRead(value, consumed))
    ensures !isOk ==> consumed == |s|
  {
    if s == [] {
      return false, 0, 0;
    }
    var first := s[0];
    if first < 253 {
      return true, first, 1;
    }
    var wanted := if first == 253 then 2 else if first == 254 then 4 else 8;
    var count;
    value, count := ShiftInOctets(s, 1, wanted);
    return count == wanted, value, 1 + count;
  }

  /** The istream form of readNonNegativeInteger refines the pointer form, errors included. */
  method ReadNonNegativeIntegerFromStream(size: nat, s: Bytes)
    returns (r: Result<NumberRead, TlvError>)
    ensures r == ReadNonNegativeInteger(size, s)
  {
    if size == 1 {
      if s == [] {
        return Failure(InsufficientData);
      }
      assert s[..1] == [s[0]] && FromBigEndian([s[0]]) == 256 * FromBigEndian([]) + s[0];
      return Success(NumberRead(s[0], 1));
    }
    if size == 2 || size == 4 || size == 8 {
      var value, count := ShiftInOctets(s, 0, size);
      if count != size {
        return Failure(InsufficientData);
      }
      return Success(NumberRead(value, count));
    }
    return Failure(InvalidLength);
  }

  // ---------------------------------------------------------------------
  // Blocks
  // ---------------------------------------------------------------------

  /** A decoded TLV element: its type, its value, and the exact bytes it came from. */
  datatype Block = Block(typ: UInt32, value: Bytes, wire: Bytes) {
    function Size(): nat { |wire| }
  }

  /** Block::fromBuffer: readType, readVarNumber, and the value must fit. */
  function FromBuffer(s: Bytes): (r: Option<Block>)
    ensures r.Some? ==> 2 <= |r.value.wire| <= |s| && r.value.wire == s[..|r.value.wire|]
  {
    var t := ReadType(s);
    if t.None? then None
    else
      var l := ReadVarNumber(s[t.value.consumed..]);
      if l.None? then None
      else
        var header := t.value.consumed + l.value.consumed;
        var length := l.value.number;
        if length > |s| - header then None
        else Some(Block(t.value.number, s[header..header + length], s[..header + length]))
  }

  /** The wire form of an element whose type and length are written by writeVarNumber. */
  function EncodeBlock(typ: UInt32, value: Bytes): Bytes
    requires |value| <= UINT64_MAX
  {
    WriteVarNumber(typ) + WriteVarNumber(|value|) + value
  }

  lemma BlockRoundTrip(typ: UInt32, value: Bytes, rest: Bytes)
    requires |value| <= UINT64_MAX
    ensures FromBuffer(EncodeBlock(typ, value) + rest)
            == Some(Block(typ, value, EncodeBlock(typ, value)))
  {
    var t, l := WriteVarNumber(typ), WriteVarNumber(|value|);
    var s := EncodeBlock(typ, value) + rest;
    assert s == t + (l + value + rest);
    VarNumberRoundTrip(typ, l + value + rest);
    assert s[|t|..] == l + (value + rest);
    VarNumberRoundTrip(|value|, value + rest);
    assert s[|t| + |l|..|t| + |l| + |value|] == value;
    assert s[..|t| + |l| + |value|] == EncodeBlock(typ, value);
  }

  /** Decoding a buffer that already holds a whole element gives the same element when
      more bytes follow; decoding that starts to succeed used some of the new bytes. */
  lemma FromBufferStable(s: Bytes, more: Bytes)
    ensures FromBuffer(s).Some? ==> FromBuffer(s + more) == FromBuffer(s)
    ensures FromBuffer(s).None? && FromBuffer(s + more).Some? ==>
              |FromBuffer(s + more).value.wire| > |s|
  {
    ReadVarNumberStable(s, more);
    var t := ReadType(s);
    if t.Some? {
      var after := s[t.value.consumed..];
      assert (s + more)[t.value.consumed..] == after + more;
      ReadVarNumberStable(after, more);
      var l := ReadVarNumber(after);
      if l.Some? {
        var header := t.value.consumed + l.value.consumed;
        if l.value.number <= |s| - header {
          var end := header + l.value.number;
          assert (s + more)[header..end] == s[header..end];
          assert (s + more)[..end] == s[..end];
        }
      }
    }
  }
}
