/** StreamTransportImpl: the link state of TransportLink and the 8800-byte receive buffer of
    Framing, updated in place. */
module StreamTransport {
  import opened Tlv
  import opened Framing
  import opened TransportLink

  datatype Outcome = Done | Thrown(message: string)

  function ConnectEvent(late: bool, ok: bool): Event {
    if late then EvLateConnected(ok) else EvConnected(ok)
  }

  function WriteEvent(late: bool, outcome: WriteOutcome): Event {
    if late then EvLateWritten(outcome) else EvWritten(outcome)
  }

  function ReadEvent(late: bool, outcome: ReadOutcome): Event {
    if late then EvLateRead(outcome) else EvReceived(outcome.ReadFatal?)
  }

  /** The link while the handler of a read, or of a connect, runs: that operation is no longer
      outstanding. */
  function Reported(l: Link, wasCut: bool): Link
    requires if wasCut then l.late.reading > 0 else l.pendingReads > 0
  {
    if wasCut then l.(late := l.late.(reading := l.late.reading - 1)) else l.(pendingReads := l.pendingReads - 1)
  }

  function Answered(l: Link, wasCut: bool): Link
    requires if wasCut then l.late.connecting > 0 else l.attempts > 0
  {
    if wasCut then l.(late := l.late.(connecting := l.late.connecting - 1)) else l.(attempts := l.attempts - 1)
  }

  lemma ConnectSteps(l: Link, wasCut: bool, ok: bool)
    requires if wasCut then l.late.connecting > 0 else l.attempts > 0
    ensures Step(l, ConnectEvent(wasCut, ok)) == TransportLink.ConnectHandler(Answered(l, wasCut), ok)
  {
    hide Close, AsyncWrite, Resume;
  }

  lemma ReadSteps(l: Link, wasCut: bool, outcome: ReadOutcome)
    requires if wasCut then l.late.reading > 0 else l.pendingReads > 0 && !outcome.ReadCanceled?
    ensures Step(l, ReadEvent(wasCut, outcome)) == HandleAsyncReceive(Reported(l, wasCut), outcome)
  {
    hide Close, AsyncReceive;
  }

  /** The elements before offset have been parsed, and they are done. */
  ghost predicate ParsedUpTo(data: Bytes, offset: nat, done: seq<Block>) {
    && offset <= |data|
    && var rest := ParseAll(data[offset..]);
       ParseAll(data) == Parsed(done + rest.elements, offset + rest.consumed)
  }

  lemma NothingParsed(data: Bytes)
    ensures ParsedUpTo(data, 0, [])
  {
    hide FromBuffer, ParseAll;
    assert data[0..] == data;
    assert [] + ParseAll(data).elements == ParseAll(data).elements;
  }

  lemma ParsedOneMore(data: Bytes, offset: nat, done: seq<Block>, e: Block)
    requires ParsedUpTo(data, offset, done) && FromBuffer(data[offset..]) == Some(e)
    ensures ParsedUpTo(data, offset + e.Size(), done + [e])
  {
    hide FromBuffer, ParseAll;
    ParseAllStep(data[offset..], e);
    DropDrop(data, offset, e.Size());
    var p := ParseAll(data[offset + e.Size()..]);
    assert (done + [e]) + p.elements == done + ([e] + p.elements);
  }

  /** Nothing is parsed where there is no element, so parsing ends there. */
  lemma ParsingStops(data: Bytes, offset: nat, done: seq<Block>)
    requires ParsedUpTo(data, offset, done) && (offset == |data| || FromBuffer(data[offset..]).None?)
    ensures ParseAll(data) == Parsed(done, offset)
  {
    hide FromBuffer;
    var rest := data[offset..];
    if offset == |data| {
      assert rest == [];
      NothingInNothing();
    }
    assert ParseAll(rest) == Parsed([], 0);
    assert done + [] == done;
  }

  lemma NothingInNothing()
    ensures FromBuffer([]).None?
  {
  }

  class Transport {
    var isConnecting: bool
    var isConnected: bool
    var isReceiving: bool
    var transmissionQueue: seq<Item>
    const inputBuffer: array<Byte>
    var inputBufferSize: nat

    // What the socket has outstanding, and what has happened so far.
    var write: Write
    var attempts: nat
    var pendingReads: nat
    var late: Late
    var accepted: seq<Item>
    var completed: seq<Item>
    var faults: nat
    var delivered: seq<Block>

    // How often the handler of a read went out of the bounds of the buffer.
    var overruns: nat

    predicate Shape()
      reads `inputBufferSize
    {
      inputBuffer.Length == MAX_NDN_PACKET_SIZE && inputBufferSize <= MAX_NDN_PACKET_SIZE
    }

    /** There is room in the buffer for the outstanding read. */
    predicate Room()
      reads this
    {
      isReceiving ==> inputBufferSize < MAX_NDN_PACKET_SIZE
    }

    /** What holds as long as nothing disturbs the link: every method below makes the step of
        the link that its contract names, and StepKeepsInv says which of these steps do. */
    ghost predicate Valid()
      reads this
    {
      Shape() && Room() && Inv(State())
    }

    /** The bytes a read has put behind the ones in use. */
    function NewBytes(nBytes: nat): Bytes
      reads `inputBufferSize, inputBuffer
      requires inputBufferSize + nBytes <= inputBuffer.Length
    {
      inputBuffer[inputBufferSize..inputBufferSize + nBytes]
    }

    function State(): Link
      reads this
    {
      Link(isConnecting, isConnected, isReceiving, transmissionQueue, write, attempts, pendingReads, late,
           accepted, completed, faults)
    }

    /** The receive path while it has not failed. */
    function Receiver(): Rx
      reads `inputBufferSize, `delivered, inputBuffer
      requires inputBufferSize <= inputBuffer.Length
    {
      Rx(inputBuffer[..inputBufferSize], delivered, false)
    }

    constructor ()
      ensures Valid() && State() == LINK_INITIAL && Receiver() == RX_INITIAL
      ensures fresh(inputBuffer)
    {
      isConnecting, isConnected, isReceiving := false, false, false;
      transmissionQueue, accepted, completed, delivered := [], [], [], [];
      inputBuffer := new Byte[MAX_NDN_PACKET_SIZE];
      inputBufferSize := 0;
      write, attempts, pendingReads, late, faults, overruns := Idle, 0, 0, Late(0, 0, 0), 0, 0;
    }

    method Connect() returns (r: Outcome)
      modifies this
      ensures State() == Step(old(State()), EvConnect)
      ensures r.Thrown? <==> old(isConnected && !isConnecting)
      ensures inputBufferSize == old(inputBufferSize) && delivered == old(delivered)
    {
      if !isConnecting {
        isConnecting := true;
        if isConnected {
          return Thrown("already open");
        }
        attempts := attempts + 1;
      }
      return Done;
    }

    /** Closing the socket: whatever is outstanding is cancelled and still to report. */
    method CancelAll()
      modifies this`late, this`write, this`attempts, this`pendingReads
      ensures late == AllLate(old(State())) && write == Idle && attempts == 0 && pendingReads == 0
    {
      late := AllLate(State());
      write, attempts, pendingReads := Idle, 0, 0;
    }

    method Close()
      modifies `isConnecting, `isConnected, `isReceiving, `transmissionQueue, `write, `attempts, `pendingReads, `late
      modifies `accepted, `completed
      ensures State() == TransportLink.Close(old(State()))
    {
      isConnecting := false;
      CancelAll();
      isConnected := false;
      isReceiving := false;
      transmissionQueue := [];
      accepted, completed := [], [];
    }

    method Pause()
      modifies this
      ensures State() == TransportLink.Pause(old(State()))
      ensures isReceiving ==> old(isReceiving)
      ensures inputBufferSize == old(inputBufferSize) && delivered == old(delivered)
    {
      if isConnecting {
        return;
      }
      if isReceiving {
        isReceiving := false;
        late := late.(reading := late.reading + pendingReads);
        pendingReads := 0;
        if write.Writing? {
          write := Cancelled(write.slot);
        }
      }
    }

    /** Resuming forgets a partly received element. */
    method Resume()
      requires Shape()
      modifies this
      ensures Shape() && State() == TransportLink.Resume(old(State()))
      ensures old(Room()) ==> Room()
      ensures delivered == old(delivered)
      ensures inputBufferSize == if State() == old(State()) then old(inputBufferSize) else 0
    {
      if isConnecting {
        return;
      }
      if !isReceiving {
        isReceiving := true;
        inputBufferSize := 0;
        AsyncReceive();
      }
    }

    /** asyncReceive. No other read may be filling the buffer. */
    method AsyncReceive()
      modifies this`pendingReads, this`faults
      ensures State() == TransportLink.AsyncReceive(old(State()))
    {
      if pendingReads > 0 {
        faults := faults + 1;
      }
      pendingReads := pendingReads + 1;
    }

    /** asyncWrite. No other write may be outstanding on the socket. */
    method AsyncWrite()
      requires transmissionQueue != []
      modifies this`write, this`faults
      ensures State() == TransportLink.AsyncWrite(old(State()))
    {
      if !write.Idle? {
        faults := faults + 1;
      }
      write := Writing(transmissionQueue[0].slot);
    }

    method Send(blocks: seq<Block>)
      modifies this
      ensures State() == TransportLink.Send(old(State()), blocks)
      ensures isReceiving ==> old(isReceiving)
      ensures inputBufferSize == old(inputBufferSize) && delivered == old(delivered)
    {
      var item := Item(|accepted|, blocks);
      transmissionQueue := transmissionQueue + [item];
      accepted := accepted + [item];
      if isConnected && |transmissionQueue| == 1 {
        AsyncWrite();
      }
    }

    method AnswerConnect(wasCut: bool)
      requires if wasCut then late.connecting > 0 else attempts > 0
      modifies this`late, this`attempts
      ensures State() == Answered(old(State()), wasCut)
    {
      if wasCut {
        late := late.(connecting := late.connecting - 1);
      } else {
        attempts := attempts - 1;
      }
    }

    /** wasCut: the connect is from before the last close. */
    method ConnectHandler(wasCut: bool, ok: bool) returns (r: Outcome)
      requires Shape() && Enabled(State(), ConnectEvent(wasCut, ok))
      modifies this
      ensures Shape() && State() == Step(old(State()), ConnectEvent(wasCut, ok))
      ensures r.Thrown? <==> !ok
      ensures old(Room()) ==> Room()
      ensures delivered == old(delivered)
    {
      hide Step;
      ConnectSteps(State(), wasCut, ok);
      AnswerConnect(wasCut);
      isConnecting := false;
      if !ok {
        isConnected := false;
        Close();
        return Thrown("error while connecting to the forwarder");
      }
      isConnected := true;
      if transmissionQueue != [] {
        Resume();
        AsyncWrite();
      }
      return Done;
    }

    method ConnectTimeoutHandler(cancelled: bool) returns (r: Outcome)
      modifies this
      ensures State() == if cancelled then old(State()) else Step(old(State()), EvConnectTimeout)
      ensures r.Thrown? <==> !cancelled
      ensures isReceiving ==> old(isReceiving)
      ensures inputBufferSize == old(inputBufferSize) && delivered == old(delivered)
    {
      if cancelled {
        return Done;
      }
      Close();
      return Thrown("error while connecting to the forwarder");
    }

    /** wasCut: the write is from before the last close, and so is the queue item. */
    method HandleAsyncWrite(wasCut: bool, outcome: WriteOutcome, queueItem: nat) returns (r: Outcome)
      requires Enabled(State(), WriteEvent(wasCut, outcome)) && (wasCut || queueItem == write.slot)
      modifies this
      ensures State() == Step(old(State()), WriteEvent(wasCut, outcome))
      ensures r.Thrown? <==> outcome.WriteFailed?
      ensures isReceiving ==> old(isReceiving)
      ensures inputBufferSize == old(inputBufferSize) && delivered == old(delivered)
    {
      if wasCut {
        late := late.(writing := late.writing - 1);
      } else {
        write := Idle;
      }
      if !outcome.WriteOk? {
        if outcome.WriteCanceled? {
          return Done;
        }
        Close();
        return Thrown("error while sending data to socket");
      }
      if !isConnected {
        return Done;
      }
      if wasCut {
        faults := faults + 1;
        return Done;
      }
      completed := completed + Erased(transmissionQueue, queueItem);
      transmissionQueue := Erase(transmissionQueue, queueItem);
      if transmissionQueue != [] {
        AsyncWrite();
      }
      return Done;
    }

    /** Decode and deliver elements until the bytes run out or do not hold a whole one. */
    method ProcessAllReceived(nBytesAvailable: nat) returns (isOk: bool, offset: nat)
      requires nBytesAvailable <= inputBuffer.Length
      modifies this`delivered
      ensures var p := ParseAll(inputBuffer[..nBytesAvailable]);
              && offset == p.consumed
              && delivered == old(delivered) + p.elements
              && (isOk <==> p.consumed == nBytesAvailable)
    {
      hide FromBuffer, ParseAll;
      offset := 0;
      ghost var data := inputBuffer[..nBytesAvailable];
      ghost var done: seq<Block> := [];
      NothingParsed(data);
      while offset < nBytesAvailable
        invariant offset <= nBytesAvailable
        invariant delivered == old(delivered) + done
        invariant data == inputBuffer[..nBytesAvailable]
        invariant ParsedUpTo(data, offset, done)
        decreases nBytesAvailable - offset
      {
        assert inputBuffer[offset..nBytesAvailable] == data[offset..];
        var element := FromBuffer(inputBuffer[offset..nBytesAvailable]);
        if element.None? {
          ParsingStops(data, offset, done);
          return false, offset;
        }
        ParsedOneMore(data, offset, done, element.value);
        delivered := delivered + [element.value];
        done := done + [element.value];
        offset := offset + element.value.Size();
      }
      ParsingStops(data, offset, done);
      return true, offset;
    }

    /** The overlapping forward copy of the unparsed tail to the front of the buffer. */
    method MoveToFront(offset: nat)
      requires 0 < offset <= inputBufferSize <= inputBuffer.Length
      modifies inputBuffer
      ensures inputBuffer[..inputBufferSize - offset] == old(inputBuffer[offset..inputBufferSize])
    {
      var i := 0;
      while offset + i < inputBufferSize
        invariant offset + i <= inputBufferSize
        invariant forall k :: 0 <= k < i ==> inputBuffer[k] == old(inputBuffer[offset + k])
        invariant forall k :: i <= k < inputBuffer.Length ==> inputBuffer[k] == old(inputBuffer[k])
      {
        inputBuffer[i] := inputBuffer[offset + i];
        i := i + 1;
      }
    }

    /** Keep only the bytes from offset on. */
    method DropProcessed(offset: nat)
      requires offset <= inputBufferSize <= inputBuffer.Length
      modifies this`inputBufferSize, inputBuffer
      ensures inputBufferSize == old(inputBufferSize) - offset
      ensures inputBuffer[..inputBufferSize] == old(inputBuffer[offset..inputBufferSize])
    {
      if offset > 0 {
        if offset != inputBufferSize {
          MoveToFront(offset);
          inputBufferSize := inputBufferSize - offset;
        } else {
          inputBufferSize := 0;
        }
      }
    }

    /** The socket stores the bytes of one read behind the ones in use. */
    method Store(chunk: Bytes)
      requires inputBufferSize + |chunk| <= inputBuffer.Length
      modifies inputBuffer
      ensures inputBuffer[..inputBufferSize + |chunk|] == old(inputBuffer[..inputBufferSize]) + chunk
    {
      var i := 0;
      while i < |chunk|
        invariant i <= |chunk|
        invariant forall k :: 0 <= k < inputBufferSize ==> inputBuffer[k] == old(inputBuffer[k])
        invariant forall k :: 0 <= k < i ==> inputBuffer[inputBufferSize + k] == chunk[k]
      {
        inputBuffer[inputBufferSize + i] := chunk[i];
        i := i + 1;
      }
    }

    /** When the handler of a read is undefined: it counts bytes beyond the end of the buffer,
        or a callback resumes the transport. Then the buffer counts as empty while elements at
        its front have been processed, and what is copied and subtracted is out of bounds. */
    ghost predicate Overruns(nBytesRecvd: nat, callbackResumes: bool)
      reads `inputBufferSize, `isReceiving, `isConnecting, inputBuffer
      requires inputBuffer.Length == MAX_NDN_PACKET_SIZE
    {
      || inputBufferSize + nBytesRecvd > MAX_NDN_PACKET_SIZE
      || (callbackResumes && !isReceiving && !isConnecting
          && ParseAll(inputBuffer[..inputBufferSize + nBytesRecvd]).consumed > 0)
    }

    /** The part of the read handler that is about the buffer: count the new bytes, deliver
        what is complete, keep the rest, or say that a full buffer holds no element. */
    method TakeIn(nBytesRecvd: nat, callbackResumes: bool) returns (stuck: bool)
      requires Shape()
      modifies this`inputBufferSize, this`delivered, this`overruns, inputBuffer
      ensures overruns == old(overruns) + if old(Overruns(nBytesRecvd, callbackResumes)) then 1 else 0
      ensures old(Overruns(nBytesRecvd, callbackResumes)) ==> !stuck
      ensures !old(Overruns(nBytesRecvd, callbackResumes)) ==>
                var rx := OnBytes(old(Receiver()), old(NewBytes(nBytesRecvd)));
                && Shape()
                && stuck == rx.failed
                && Receiver() == Rx(rx.buffer, rx.delivered, false)
                && (!stuck ==> inputBufferSize < MAX_NDN_PACKET_SIZE)
    {
      hide FromBuffer, ParseAll;
      if inputBufferSize + nBytesRecvd > MAX_NDN_PACKET_SIZE {
        overruns := overruns + 1;
        return false;
      }
      ghost var used, chunk := inputBuffer[..inputBufferSize], NewBytes(nBytesRecvd);
      inputBufferSize := inputBufferSize + nBytesRecvd;
      ghost var data := inputBuffer[..inputBufferSize];
      assert data == used + chunk;
      var hasProcessedSome, offset := ProcessAllReceived(inputBufferSize);
      if offset > 0 && callbackResumes && !isReceiving && !isConnecting {
        overruns := overruns + 1;
        return false;
      }
      if !hasProcessedSome && inputBufferSize == MAX_NDN_PACKET_SIZE && offset == 0 {
        return true;
      }
      assert inputBuffer[offset..inputBufferSize] == data[offset..];
      DropProcessed(offset);
      return false;
    }

    method AnswerRead(wasCut: bool)
      requires if wasCut then late.reading > 0 else pendingReads > 0
      modifies this`late, this`pendingReads
      ensures State() == Reported(old(State()), wasCut)
    {
      if wasCut {
        late := late.(reading := late.reading - 1);
      } else {
        pendingReads := pendingReads - 1;
      }
    }

    /** A read reports; wasCut: it was cancelled by a pause or a close. callbackResumes: a
        receive callback asks the transport to resume, which does nothing while the transport
        is receiving. Callbacks do not pause or close. The bytes counted lie behind the ones in
        use, wherever the socket has put them. */
    method HandleAsyncReceive(wasCut: bool, error: ReadOutcome, nBytesRecvd: nat, callbackResumes: bool)
      returns (r: Outcome)
      requires Shape() && (if wasCut then late.reading > 0 else pendingReads > 0 && !error.ReadCanceled?)
      modifies this, inputBuffer
      ensures !error.ReadOk? ==>
                && Shape()
                && (r.Thrown? <==> error.ReadFatal?)
                && State() == Step(old(State()), ReadEvent(wasCut, error))
                && Receiver() == old(Receiver())
      ensures overruns == old(overruns)
                          + if error.ReadOk? && old(Overruns(nBytesRecvd, callbackResumes)) then 1 else 0
      ensures error.ReadOk? && !old(Overruns(nBytesRecvd, callbackResumes)) ==>
                var rx := OnBytes(old(Receiver()), old(NewBytes(nBytesRecvd)));
                && Shape()
                && Receiver() == Rx(rx.buffer, rx.delivered, false)
                && (r.Thrown? <==> rx.failed)
                && (!rx.failed ==> inputBufferSize < MAX_NDN_PACKET_SIZE)
                && State() == Step(old(State()), ReadEvent(wasCut, if rx.failed then ReadFatal else ReadOk))
    {
      hide OnBytes, Step, Reported, TransportLink.HandleAsyncReceive, Overruns, Receiver, NewBytes;
      ghost var before := State();
      AnswerRead(wasCut);
      if !error.ReadOk? {
        ReadSteps(before, wasCut, error);
        r := FinishRead(error, "error while receiving data from socket");
        return;
      }
      r := BytesReceived(nBytesRecvd, callbackResumes);
      ReadSteps(before, wasCut, if r.Thrown? then ReadFatal else ReadOk);
    }

    /** What the handler does with bytes. */
    method BytesReceived(nBytesRecvd: nat, callbackResumes: bool) returns (r: Outcome)
      requires Shape()
      modifies this, inputBuffer
      ensures overruns == old(overruns) + if old(Overruns(nBytesRecvd, callbackResumes)) then 1 else 0
      ensures !old(Overruns(nBytesRecvd, callbackResumes)) ==>
                var rx := OnBytes(old(Receiver()), old(NewBytes(nBytesRecvd)));
                && Shape()
                && Receiver() == Rx(rx.buffer, rx.delivered, false)
                && (r.Thrown? <==> rx.failed)
                && (!rx.failed ==> inputBufferSize < MAX_NDN_PACKET_SIZE)
                && State() == TransportLink.HandleAsyncReceive(old(State()), if rx.failed then ReadFatal else ReadOk)
    {
      hide OnBytes, TransportLink.HandleAsyncReceive, Overruns, Receiver, NewBytes;
      var n := overruns;
      var stuck := TakeIn(nBytesRecvd, callbackResumes);
      if overruns > n {
        return Done;
      }
      r := FinishRead(if stuck then ReadFatal else ReadOk, "input buffer full, but a valid TLV cannot be decoded");
    }

    /** The part of the read handler that is about the link: do nothing, close and throw, or
        start the next read. */
    method FinishRead(outcome: ReadOutcome, message: string) returns (r: Outcome)
      modifies `isConnecting, `isConnected, `isReceiving, `transmissionQueue, `write, `attempts, `pendingReads, `late
      modifies `accepted, `completed, `faults
      ensures State() == TransportLink.HandleAsyncReceive(old(State()), outcome)
      ensures r.Thrown? <==> outcome.ReadFatal?
    {
      match outcome
      case ReadCanceled =>
        return Done;
      case ReadFatal =>
        Close();
        return Thrown(message);
      case ReadOk =>
        AsyncReceive();
        return Done;
    }

    /** A read that was not cancelled: the socket fills the room it was given, then the handler
        runs. Undisturbed, the transport stays valid, whether or not a callback resumes it. */
    method Receive(chunk: Bytes, callbackResumes: bool) returns (r: Outcome)
      requires Valid() && pendingReads > 0 && |chunk| <= MAX_NDN_PACKET_SIZE - inputBufferSize
      modifies this, inputBuffer
      ensures Valid() && overruns == old(overruns)
      ensures var rx := OnBytes(old(Receiver()), chunk);
              && Receiver() == Rx(rx.buffer, rx.delivered, false)
              && (r.Thrown? <==> rx.failed)
              && State() == Step(old(State()), EvReceived(rx.failed))
    {
      hide ParseAll, OnBytes;
      ghost var before := State();
      Store(chunk);
      assert inputBuffer[..inputBufferSize] == inputBuffer[..inputBufferSize + |chunk|][..inputBufferSize];
      assert NewBytes(|chunk|) == inputBuffer[..inputBufferSize + |chunk|][inputBufferSize..];
      r := HandleAsyncReceive(false, ReadOk, |chunk|, callbackResumes);
      StepKeepsInv(before, EvReceived(r.Thrown?));
    }
  }
}
