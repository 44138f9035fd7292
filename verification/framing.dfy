/** Reassembly of TLV elements from a byte stream that arrives in arbitrary pieces: the
    bytes of one receive are appended to the unparsed rest, whole elements are delivered,
    and what is left moves to the front of the 8800-byte buffer. */
module Framing {
  import opened Tlv

  // ---------------------------------------------------------------------
  // The maximal parse of a byte string
  // ---------------------------------------------------------------------

  datatype Parsed = Parsed(elements: seq<Block>, consumed: nat)

  function ParseAll(s: Bytes): (p: Parsed)
    ensures p.consumed <= |s|
    ensures p.elements == [] <==> p.consumed == 0
    decreases |s|
  {
    match FromBuffer(s)
    case None => Parsed([], 0)
    case Some(e) =>
      var p := ParseAll(s[e.Size()..]);
      Parsed([e] + p.elements, e.Size() + p.consumed)
  }

  lemma DropDrop(s: Bytes, a: nat, b: nat)
    requires a + b <= |s|
    ensures s[a..][b..] == s[a + b..]
  {
  }

  lemma TakeDrop(s: Bytes, a: nat)
    requires a <= |s|
    ensures s == s[..a] + s[a..]
  {
  }

  lemma ConcatAssociative(a: Bytes, b: Bytes, c: Bytes)
    ensures (a + b) + c == a + (b + c)
  {
  }

  lemma SliceOfDrop(s: Bytes, a: nat, b: nat, c: nat)
    requires b <= c && a + c <= |s|
    ensures s[a..][b..c] == s[a + b..a + c]
  {
  }

  lemma ConsAppend(e: Block, x: seq<Block>, y: seq<Block>)
    ensures [e] + (x + y) == ([e] + x) + y
  {
  }

  lemma DropOfConcat(s: Bytes, more: Bytes, a: nat)
    requires a <= |s|
    ensures (s + more)[a..] == s[a..] + more
  {
  }

  function Wires(elements: seq<Block>): Bytes {
    if elements == [] then [] else elements[0].wire + Wires(elements[1..])
  }

  /** Nothing is lost or invented: the wires of the elements, then the rest, are the input,
      and the rest does not start with another element. */
  lemma {:induction false} ParseAllConserves(s: Bytes)
    ensures var p := ParseAll(s);
            && Wires(p.elements) + s[p.consumed..] == s
            && FromBuffer(s[p.consumed..]).None?
    decreases |s|
  {
    match FromBuffer(s)
    case None => assert s[0..] == s;
    case Some(e) =>
      var tail := s[e.Size()..];
      ParseAllConserves(tail);
      var p, q := ParseAll(s), ParseAll(tail);
      DropDrop(s, e.Size(), q.consumed);
      TakeDrop(s, e.Size());
      assert p.elements[1..] == q.elements;
      ConcatAssociative(e.wire, Wires(q.elements), tail[q.consumed..]);
  }

  lemma ParseAllStep(s: Bytes, e: Block)
    requires FromBuffer(s) == Some(e)
    ensures var p := ParseAll(s[e.Size()..]);
            ParseAll(s) == Parsed([e] + p.elements, e.Size() + p.consumed)
  {
  }

  /** Parsing some bytes and then the unparsed rest with more bytes behind it delivers what
      parsing everything at once delivers. */
  lemma {:induction false} ParseAllResumes(s: Bytes, more: Bytes)
    ensures var p, q := ParseAll(s), ParseAll(s[ParseAll(s).consumed..] + more);
            ParseAll(s + more) == Parsed(p.elements + q.elements, p.consumed + q.consumed)
    decreases |s|
  {
    hide FromBuffer;
    FromBufferStable(s, more);
    match FromBuffer(s)
    case None =>
      assert s[0..] == s;
    case Some(e) =>
      hide ParseAll;
      var tail := s[e.Size()..];
      ParseAllStep(s, e);
      ParseAllStep(s + more, e);
      DropOfConcat(s, more, e.Size());
      ParseAllResumes(tail, more);
      var p := ParseAll(tail);
      DropDrop(s, e.Size(), p.consumed);
      ConsAppend(e, p.elements, ParseAll(tail[p.consumed..] + more).elements);
  }

  // ---------------------------------------------------------------------
  // The receive path
  // ---------------------------------------------------------------------

  /** The unparsed bytes in the buffer, everything delivered so far, and whether the
      transport gave up on a full buffer. */
  datatype Rx = Rx(buffer: Bytes, delivered: seq<Block>, failed: bool)

  const RX_INITIAL := Rx([], [], false)

  /** One receive completion with the bytes of chunk. */
  function OnBytes(rx: Rx, chunk: Bytes): Rx {
    if rx.failed then rx
    else
      var data := rx.buffer + chunk;
      var p := ParseAll(data);
      if p.consumed == 0 && |data| == MAX_NDN_PACKET_SIZE then Rx(data, rx.delivered, true)
      else Rx(data[p.consumed..], rx.delivered + p.elements, false)
  }

  function Feed(rx: Rx, chunks: seq<Bytes>): Rx
    decreases |chunks|
  {
    if chunks == [] then rx else Feed(OnBytes(rx, chunks[0]), chunks[1..])
  }

  /** Every read gets at most the room asyncReceive offers. */
  ghost predicate FitsRoom(rx: Rx, chunks: seq<Bytes>)
    decreases |chunks|
  {
    chunks != [] ==>
      && (!rx.failed ==> |rx.buffer| + |chunks[0]| <= MAX_NDN_PACKET_SIZE)
      && FitsRoom(OnBytes(rx, chunks[0]), chunks[1..])
  }

  function Concat(chunks: seq<Bytes>): Bytes {
    if chunks == [] then [] else chunks[0] + Concat(chunks[1..])
  }

  function DeliverFirst(e: Block, rx: Rx): Rx {
    Rx(rx.buffer, [e] + rx.delivered, rx.failed)
  }

  function Window(s: Bytes): (w: Bytes)
    ensures w <= s
  {
    if |s| <= MAX_NDN_PACKET_SIZE then s else s[..MAX_NDN_PACKET_SIZE]
  }

  /** The reference: look at a whole byte stream through an 8800-byte window that starts at
      an element boundary. It knows nothing of chunks. */
  function Frame(s: Bytes): Rx
    decreases |s|
  {
    var window := Window(s);
    match FromBuffer(window)
    case None => Rx(window, [], |window| == MAX_NDN_PACKET_SIZE)
    case Some(e) =>
      DeliverFirst(e, Frame(s[e.Size()..]))
  }

  /** A stream that fits the buffer is framed by its maximal parse. */
  lemma {:induction false} FrameSmall(s: Bytes)
    requires |s| <= MAX_NDN_PACKET_SIZE
    ensures var p := ParseAll(s);
            Frame(s) == Rx(s[p.consumed..], p.elements, p.consumed == 0 && |s| == MAX_NDN_PACKET_SIZE)
    decreases |s|
  {
    match FromBuffer(s)
    case None =>
    case Some(e) =>
      var tail := s[e.Size()..];
      FrameSmall(tail);
      assert s[ParseAll(s).consumed..] == tail[ParseAll(tail).consumed..];
  }

  /** Before every read there is room: the bytes kept are fewer than the buffer holds. */
  lemma {:induction false} FrameLeavesRoom(s: Bytes)
    ensures |Frame(s).buffer| <= MAX_NDN_PACKET_SIZE
    ensures |Frame(s).buffer| == MAX_NDN_PACKET_SIZE <==> Frame(s).failed
    decreases |s|
  {
    match FromBuffer(Window(s))
    case None =>
    case Some(e) => FrameLeavesRoom(s[e.Size()..]);
  }

  /** Go on from a frame with more bytes behind its rest. */
  function Continue(rx: Rx, more: Bytes): Rx {
    if rx.failed then rx
    else
      var r := Frame(rx.buffer + more);
      Rx(r.buffer, rx.delivered + r.delivered, r.failed)
  }

  lemma DeliverFirstContinues(e: Block, rx: Rx, more: Bytes)
    ensures DeliverFirst(e, Continue(rx, more)) == Continue(DeliverFirst(e, rx), more)
  {
    hide Frame;
    ConsAppend(e, rx.delivered, Frame(rx.buffer + more).delivered);
  }

  lemma FrameStep(s: Bytes, e: Block)
    requires FromBuffer(Window(s)) == Some(e)
    ensures Frame(s) == DeliverFirst(e, Frame(s[e.Size()..]))
  {
  }

  lemma WindowGrows(s: Bytes, more: Bytes) returns (extra: Bytes)
    ensures Window(s + more) == Window(s) + extra
    ensures |s| >= MAX_NDN_PACKET_SIZE ==> extra == []
  {
    extra := Window(s + more)[|Window(s)|..];
  }

  lemma FrameIncomplete(s: Bytes, more: Bytes)
    requires FromBuffer(Window(s)).None?
    ensures Frame(s + more) == Continue(Frame(s), more)
  {
    hide FromBuffer, Frame, Window, Continue;
    FrameStuck(s);
    if |s| >= MAX_NDN_PACKET_SIZE {
      WindowFull(s, more);
      FrameStuck(s + more);
      ContinueFailed(Frame(s), more);
    } else {
      WindowWhole(s);
      ContinueFrom(s, more);
    }
  }

  lemma FrameStuck(s: Bytes)
    requires FromBuffer(Window(s)).None?
    ensures Frame(s) == Rx(Window(s), [], |Window(s)| == MAX_NDN_PACKET_SIZE)
  {
    hide FromBuffer, Window;
  }

  lemma WindowFull(s: Bytes, more: Bytes)
    requires |s| >= MAX_NDN_PACKET_SIZE
    ensures Window(s + more) == Window(s) && |Window(s)| == MAX_NDN_PACKET_SIZE
  {
  }

  lemma WindowWhole(s: Bytes)
    requires |s| < MAX_NDN_PACKET_SIZE
    ensures Window(s) == s
  {
  }

  lemma ContinueFailed(rx: Rx, more: Bytes)
    requires rx.failed
    ensures Continue(rx, more) == rx
  {
  }

  lemma ContinueFrom(s: Bytes, more: Bytes)
    ensures Continue(Rx(s, [], false), more) == Frame(s + more)
  {
    hide Frame;
    var r := Frame(s + more);
    assert [] + r.delivered == r.delivered;
  }

  /** The reference continues from its own rest: later bytes do not change what was
      delivered, and once it has failed it stays failed. */
  lemma {:induction false} FrameResumes(s: Bytes, more: Bytes)
    ensures Frame(s + more) == Continue(Frame(s), more)
    decreases |s|
  {
    hide FromBuffer, Frame, Window, DeliverFirst, Continue;
    var extra := WindowGrows(s, more);
    FromBufferStable(Window(s), extra);
    match FromBuffer(Window(s))
    case None =>
      FrameIncomplete(s, more);
    case Some(e) =>
      var tail := s[e.Size()..];
      FrameStep(s, e);
      FrameStep(s + more, e);
      DropOfConcat(s, more, e.Size());
      FrameResumes(tail, more);
      DeliverFirstContinues(e, Frame(tail), more);
  }

  /** One receive completion moves the transport from the frame of the bytes so far to the
      frame of the bytes including the new ones. */
  lemma OnBytesFollowsFrame(s: Bytes, chunk: Bytes)
    requires !Frame(s).failed ==> |Frame(s).buffer| + |chunk| <= MAX_NDN_PACKET_SIZE
    ensures OnBytes(Frame(s), chunk) == Frame(s + chunk)
  {
    FrameResumes(s, chunk);
    if !Frame(s).failed {
      FrameSmall(Frame(s).buffer + chunk);
    }
  }

  lemma {:induction false} FeedFollowsFrame(s: Bytes, chunks: seq<Bytes>)
    requires FitsRoom(Frame(s), chunks)
    ensures Feed(Frame(s), chunks) == Frame(s + Concat(chunks))
    decreases |chunks|
  {
    hide FromBuffer, Frame, OnBytes;
    if chunks == [] {
      assert s + [] == s;
    } else {
      OnBytesFollowsFrame(s, chunks[0]);
      FeedFollowsFrame(s + chunks[0], chunks[1..]);
      assert s + chunks[0] + Concat(chunks[1..]) == s + Concat(chunks);
    }
  }

  /** Chunking independence: whatever the sizes of the reads, what has been delivered, what
      is left in the buffer and whether the transport failed depend only on the bytes. */
  lemma ChunkingIndependence(chunks: seq<Bytes>)
    requires FitsRoom(RX_INITIAL, chunks)
    ensures Feed(RX_INITIAL, chunks) == Frame(Concat(chunks))
  {
    assert Frame([]) == RX_INITIAL;
    FeedFollowsFrame([], chunks);
    assert [] + Concat(chunks) == Concat(chunks);
  }

  function DeliverBefore(delivered: seq<Block>, rx: Rx): Rx {
    Rx(rx.buffer, delivered + rx.delivered, rx.failed)
  }

  lemma OnBytesAfter(d: seq<Block>, rx: Rx, chunk: Bytes)
    ensures OnBytes(DeliverBefore(d, rx), chunk) == DeliverBefore(d, OnBytes(rx, chunk))
  {
    hide ParseAll;
    var p := ParseAll(rx.buffer + chunk);
    assert (d + rx.delivered) + p.elements == d + (rx.delivered + p.elements);
  }

  /** What was delivered before has no influence on what follows. */
  lemma {:induction false} FeedAfter(d: seq<Block>, rx: Rx, chunks: seq<Bytes>)
    ensures FitsRoom(DeliverBefore(d, rx), chunks) <==> FitsRoom(rx, chunks)
    ensures Feed(DeliverBefore(d, rx), chunks) == DeliverBefore(d, Feed(rx, chunks))
    decreases |chunks|
  {
    hide OnBytes;
    if chunks != [] {
      OnBytesAfter(d, rx, chunks[0]);
      FeedAfter(d, OnBytes(rx, chunks[0]), chunks[1..]);
    }
  }

  /** resume empties the buffer and keeps what was delivered: from then on everything is as
      from the start, with the new bytes alone. */
  lemma ResumedStream(d: seq<Block>, chunks: seq<Bytes>)
    requires FitsRoom(Rx([], d, false), chunks)
    ensures var rx, s := Feed(Rx([], d, false), chunks), Concat(chunks);
            && rx == DeliverBefore(d, Frame(s))
            && (rx.failed <==> exists b: nat :: Boundary(s, b) && Stuck(s, b))
            && (!rx.failed ==> rx == Rx(s[ParseAll(s).consumed..], d + ParseAll(s).elements, false))
  {
    hide Frame, Feed, FitsRoom, ParseAll, Boundary, Stuck, OnBytes;
    assert DeliverBefore(d, RX_INITIAL) == Rx([], d, false) by {
      assert d + [] == d;
    }
    FeedAfter(d, RX_INITIAL, chunks);
    ChunkingIndependence(chunks);
    FailsExactlyWhenStuck(chunks);
    if !Frame(Concat(chunks)).failed {
      FrameIsMaximalParse(Concat(chunks));
    }
  }

  /** While the transport has not failed, the reference is the maximal parse of everything
      received, and the buffer holds exactly the unparsed rest. */
  lemma {:induction false} FrameIsMaximalParse(s: Bytes)
    requires !Frame(s).failed
    ensures Frame(s).delivered == ParseAll(s).elements
    ensures Frame(s).buffer == s[ParseAll(s).consumed..]
    decreases |s|
  {
    hide FromBuffer;
    var max := MAX_NDN_PACKET_SIZE;
    if |s| > max {
      assert s == s[..max] + s[max..];
      FromBufferStable(s[..max], s[max..]);
    }
    var window := Window(s);
    match FromBuffer(window)
    case None =>
    case Some(e) =>
      assert FromBuffer(s) == Some(e);
      var tail := s[e.Size()..];
      FrameIsMaximalParse(tail);
      assert s[ParseAll(s).consumed..] == tail[ParseAll(tail).consumed..];
  }

  // ---------------------------------------------------------------------
  // When it fails
  // ---------------------------------------------------------------------

  /** b is the offset of an element boundary of s: 0, or the end of a run of elements. */
  ghost predicate Boundary(s: Bytes, b: nat)
    decreases |s|
  {
    b == 0 ||
    match FromBuffer(s)
    case None => false
    case Some(e) => e.Size() <= b && Boundary(s[e.Size()..], b - e.Size())
  }

  /** The 8800 bytes after the boundary b have arrived and hold no complete element. */
  ghost predicate Stuck(s: Bytes, b: nat) {
    b + MAX_NDN_PACKET_SIZE <= |s| && FromBuffer(s[b..b + MAX_NDN_PACKET_SIZE]).None?
  }

  lemma {:induction false} FailureHasStuckBoundary(s: Bytes) returns (b: nat)
    requires Frame(s).failed
    ensures Boundary(s, b) && Stuck(s, b)
    ensures s[b..b + MAX_NDN_PACKET_SIZE] == Frame(s).buffer
    decreases |s|
  {
    hide FromBuffer;
    var max := MAX_NDN_PACKET_SIZE;
    match FromBuffer(Window(s))
    case None =>
      b := 0;
      assert s[0..max] == Window(s);
    case Some(e) =>
      TakeDrop(s, |Window(s)|);
      FromBufferStable(Window(s), s[|Window(s)|..]);
      FrameStep(s, e);
      hide Frame, Window;
      var c := FailureHasStuckBoundary(s[e.Size()..]);
      b := e.Size() + c;
      SliceOfDrop(s, e.Size(), c, c + max);
  }

  lemma {:induction false} StuckBoundaryFails(s: Bytes, b: nat)
    requires Boundary(s, b) && Stuck(s, b)
    ensures Frame(s).failed
    decreases |s|
  {
    hide FromBuffer;
    var max := MAX_NDN_PACKET_SIZE;
    match FromBuffer(Window(s))
    case None =>
    case Some(e) =>
      TakeDrop(s, |Window(s)|);
      FromBufferStable(Window(s), s[|Window(s)|..]);
      assert s[0..max] == Window(s);
      assert b > 0;
      SliceOfDrop(s, e.Size(), b - e.Size(), b - e.Size() + max);
      StuckBoundaryFails(s[e.Size()..], b - e.Size());
      FrameStep(s, e);
  }

  /** The transport fails exactly when the 8800 bytes after some element boundary hold no
      complete element. */
  lemma FailsExactlyWhenStuck(chunks: seq<Bytes>)
    requires FitsRoom(RX_INITIAL, chunks)
    ensures Feed(RX_INITIAL, chunks).failed
            <==> exists b: nat :: Boundary(Concat(chunks), b) && Stuck(Concat(chunks), b)
  {
    ChunkingIndependence(chunks);
    var s := Concat(chunks);
    if Frame(s).failed {
      var b := FailureHasStuckBoundary(s);
      assert Boundary(s, b) && Stuck(s, b);
    }
    if b: nat :| Boundary(s, b) && Stuck(s, b) {
      StuckBoundaryFails(s, b);
    }
  }

  /** Between failures the receive path delivers the maximal parse and keeps the rest. */
  lemma DeliversMaximalParse(chunks: seq<Bytes>)
    requires FitsRoom(RX_INITIAL, chunks)
    requires !Feed(RX_INITIAL, chunks).failed
    ensures var rx, s := Feed(RX_INITIAL, chunks), Concat(chunks);
            && rx.delivered == ParseAll(s).elements
            && rx.buffer == s[ParseAll(s).consumed..]
            && Wires(rx.delivered) + rx.buffer == s
            && |rx.buffer| < MAX_NDN_PACKET_SIZE
  {
    var s := Concat(chunks);
    ChunkingIndependence(chunks);
    FrameIsMaximalParse(s);
    FrameLeavesRoom(s);
    ParseAllConserves(s);
  }

  /** A sender that writes well-formed elements of at most 8800 bytes never makes the
      receiver fail, and the receiver gets back what was sent, however it was cut up. */
  lemma SentElementsArrive(sent: seq<Block>, chunks: seq<Bytes>)
    requires forall i :: 0 <= i < |sent| ==> FromBuffer(sent[i].wire) == Some(sent[i])
    requires forall i :: 0 <= i < |sent| ==> sent[i].Size() <= MAX_NDN_PACKET_SIZE
    requires FitsRoom(RX_INITIAL, chunks) && Concat(chunks) == Wires(sent)
    ensures Feed(RX_INITIAL, chunks) == Rx([], sent, false)
  {
    ChunkingIndependence(chunks);
    FrameOfWires(sent);
  }

  lemma {:induction false} FrameOfWires(sent: seq<Block>)
    requires forall i :: 0 <= i < |sent| ==> FromBuffer(sent[i].wire) == Some(sent[i])
    requires forall i :: 0 <= i < |sent| ==> sent[i].Size() <= MAX_NDN_PACKET_SIZE
    ensures Frame(Wires(sent)) == Rx([], sent, false)
  {
    hide FromBuffer;
    if sent != [] {
      var e, tail := sent[0], Wires(sent[1..]);
      var s := e.wire + tail;
      var window := Window(s);
      assert window == e.wire + window[e.Size()..];
      FromBufferStable(e.wire, window[e.Size()..]);
      FrameOfWires(sent[1..]);
      assert s[e.Size()..] == tail;
    }
  }
}
