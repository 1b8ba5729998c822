// The stream object, written as the poll methods are: any call may find the inner stream stalled, partly
// accepting, partly filled or failing, and the jitter timer running. `Valid` ties the object to the
// history of what it accepted and delivered, so it holds after every schedule of calls.
module ScrambleStream {
  import opened Wrappers
  import opened Words
  import opened Keystream
  import opened ScrambleFrames

  datatype IoError = UnexpectedEof | WriteZero | Inner
  datatype Poll<T> = Pending | Ready(result: Result<T, IoError>)

  /** An answer to a write that takes something. */
  predicate Took(answer: Poll<nat>) {
    answer.Ready? && answer.result.Success? && answer.result.value > 0
  }

  /** The answer that `answers` has in addition to `before`, when it is the last one given. */
  ghost predicate EndsWith<T(!new)>(before: seq<T>, answers: seq<T>, last: T) {
    |before| < |answers| && before <= answers && answers[|answers| - 1] == last
  }

  /** The stream underneath. `coming` is what will arrive before its end, `accepted` what it has taken. Its
      answers are kept, so that a caller's answer can be traced to one of them. */
  class InnerStream {
    var coming: bytes
    var accepted: bytes

    ghost var readAnswers: seq<Poll<bytes>>
    ghost var writes: seq<Poll<nat>>
    ghost var finishes: seq<Poll<()>>

    constructor (wire: bytes)
      ensures coming == wire && accepted == []
    {
      coming, accepted := wire, [];
      readAnswers, writes, finishes := [], [], [];
    }

    /** Reads any number of bytes up to `max`; no bytes means end of stream. */
    method PollRead(max: nat) returns (r: Poll<bytes>)
      modifies this`coming, this`readAnswers
      ensures readAnswers == old(readAnswers) + [r]
      ensures match r
              case Ready(Success(chunk)) =>
                |chunk| <= max && old(coming) == chunk + coming && (chunk == [] ==> max == 0 || coming == [])
              case Ready(Failure(e)) => e == Inner && coming == old(coming)
              case Pending => coming == old(coming)
    {
      if * {
        r := Pending;
      } else if * {
        r := Ready(Failure(Inner));
      } else if max == 0 || coming == [] {
        r := Ready(Success([]));
      } else {
        var n :| 1 <= n <= max && n <= |coming|;
        r := Ready(Success(coming[..n]));
        coming := coming[n..];
      }
      readAnswers := readAnswers + [r];
    }

    /** Takes any prefix of `data`, perhaps none of it. */
    method PollWrite(data: bytes) returns (r: Poll<nat>)
      modifies this`accepted, this`writes
      ensures writes == old(writes) + [r]
      ensures match r
              case Ready(Success(n)) => n <= |data| && accepted == old(accepted) + data[..n]
              case Ready(Failure(e)) => e == Inner && accepted == old(accepted)
              case Pending => accepted == old(accepted)
    {
      if * {
        r := Pending;
      } else if * {
        r := Ready(Failure(Inner));
      } else {
        var n :| 0 <= n <= |data|;
        accepted := accepted + data[..n];
        r := Ready(Success(n));
      }
      writes := writes + [r];
    }

    /** `poll_flush` and `poll_close`: they take no bytes. */
    method PollFinish() returns (r: Poll<()>)
      modifies this`finishes
      ensures finishes == old(finishes) + [r]
    {
      if * {
        r := Pending;
      } else if * {
        r := Ready(Failure(Inner));
      } else {
        r := Ready(Success(()));
      }
      finishes := finishes + [r];
    }
  }

  class ScrambleStream {
    const inner: InnerStream
    const outStream: Stream
    const inStream: Stream
    const jitterMaxMs: Option<nat>
    var outPos: nat
    var inPos: nat
    var pending: bytes
    var readState: ReadState
    var pendingSleep: bool

    // The history: payloads accepted from the caller, whether a write error lost part of a frame, the raw
    // bytes read so far, and the bytes delivered.
    ghost var payloads: seq<Payload>
    ghost var broken: bool
    ghost var wireRead: bytes
    ghost var delivered: bytes

    /** All the bytes the inner stream will ever bring. */
    ghost const source: bytes

    /** Everything accepted is on the wire or parked, in order, masked once. */
    ghost predicate ValidOut()
      reads this`pending, this`payloads, this`broken, this`outPos, inner`accepted
    {
      && |pending| <= MAX_PENDING_BYTES
      && (forall p | p in payloads :: 0 < |p| <= MAX_PAYLOAD_PER_FRAME)
      && (!broken ==> outPos == |Wire(payloads)| && inner.accepted + pending == Mask(outStream, 0, Wire(payloads)))
    }

    /** What has been delivered is what the frame reader makes of the bytes read. */
    ghost predicate ValidIn()
      reads this`inPos, this`wireRead, this`readState, this`delivered, inner`coming
    {
      && wireRead + inner.coming == source
      && (readState.NeedHeader? ==> |readState.partial| < 2)
      && inPos == |wireRead|
      && (Settled(readState), delivered) == Feed(START, Mask(inStream, 0, wireRead))
    }

    ghost predicate Valid()
      reads this, inner
    {
      ValidOut() && ValidIn()
    }

    constructor WithSplitKeys(inner: InnerStream, outStream: Stream, inStream: Stream, jitterMaxMs: Option<nat>)
      requires inner.accepted == []
      ensures Valid() && !broken && payloads == [] && wireRead == [] && delivered == []
      ensures this.inner == inner && this.outStream == outStream && this.inStream == inStream
      ensures this.jitterMaxMs == jitterMaxMs && !pendingSleep
    {
      this.inner, this.outStream, this.inStream, this.jitterMaxMs := inner, outStream, inStream, jitterMaxMs;
      outPos, inPos, pending, readState, pendingSleep := 0, 0, [], START, false;
      payloads, broken, wireRead, delivered, source := [], false, [], [], inner.coming;
    }

    /** One inner read of at most `max` bytes through the keystream. */
    method PollPlain(max: nat) returns (r: Poll<bytes>)
      requires |wireRead| == inPos && 0 < max
      modifies this`inPos, this`wireRead, inner`coming, inner`readAnswers
      ensures |wireRead| == inPos
      ensures match r
              case Ready(Success(plain)) =>
                && |plain| <= max
                && (plain == [] ==> inner.coming == [])
                && |wireRead| == |old(wireRead)| + |plain|
                && wireRead + inner.coming == old(wireRead + inner.coming)
                && (plain == [] ==> wireRead == old(wireRead))
                && Mask(inStream, 0, wireRead) == Mask(inStream, 0, old(wireRead)) + plain
              case Ready(Failure(e)) =>
                && e == Inner && wireRead == old(wireRead) && inner.coming == old(inner.coming)
                && EndsWith(old(inner.readAnswers), inner.readAnswers, r)
              case Pending =>
                && wireRead == old(wireRead) && inner.coming == old(inner.coming)
                && EndsWith(old(inner.readAnswers), inner.readAnswers, r)
      ensures old(inner.readAnswers) <= inner.readAnswers
    {
      var got := inner.PollRead(max);
      if got.Ready? && got.result.Success? {
        var chunk := got.result.value;
        var plain := Mask(inStream, inPos, chunk);
        MaskSplits(inStream, 0, wireRead, chunk);
        inPos := inPos + |chunk|;
        wireRead := wireRead + chunk;
        return Ready(Success(plain));
      }
      r := got;
    }

    /** Reads header bytes; the second one decides how long the body is. */
    method PollHeader() returns (r: Poll<bytes>)
      requires ValidIn() && readState.NeedHeader?
      modifies this`inPos, this`wireRead, this`readState, inner`coming, inner`readAnswers
      ensures ValidIn() && |old(wireRead)| <= |wireRead|
      ensures match r
              case Ready(Success(plain)) =>
                if plain == [] then inner.coming == [] && readState == old(readState) else |wireRead| > |old(wireRead)|
              case _ => (r == Pending || r == Ready(Failure(Inner))) && EndsWith(old(inner.readAnswers), inner.readAnswers, r)
      ensures old(inner.readAnswers) <= inner.readAnswers
    {
      ghost var before := wireRead;
      var partial := readState.partial;
      r := PollPlain(2 - |partial|);
      if r.Ready? && r.result.Success? && r.result.value != [] {
        var plain := r.result.value;
        var filled := partial + plain;
        if |filled| == 2 {
          var payloadLen := PayloadLen(filled[0], filled[1]);
          readState := InBody(payloadLen, PadLen(payloadLen));
        } else {
          readState := NeedHeader(filled);
        }
        FeedSplits(START, Mask(inStream, 0, before), plain);
        FeedHeaderBytes(partial, plain);
        assert delivered + [] == delivered;
      }
    }

    /** Reads payload bytes for the caller. */
    method PollPayload(room: nat) returns (r: Poll<bytes>)
      requires ValidIn() && readState.InBody? && readState.payload > 0 && room > 0
      modifies this`inPos, this`wireRead, this`readState, this`delivered, inner`coming, inner`readAnswers
      ensures ValidIn() && |old(wireRead)| <= |wireRead|
      ensures match r
              case Ready(Success(out)) =>
                && |out| <= room && delivered == old(delivered) + out
                && (out == [] ==> inner.coming == [] && readState == old(readState))
              case _ =>
                && (r == Pending || r == Ready(Failure(Inner))) && delivered == old(delivered)
                && EndsWith(old(inner.readAnswers), inner.readAnswers, r)
      ensures old(inner.readAnswers) <= inner.readAnswers
    {
      ghost var before := wireRead;
      var InBody(payload, pad) := readState;
      r := PollPlain(if room < payload then room else payload);
      if r.Ready? && r.result.Success? {
        var plain := r.result.value;
        readState := InBody(payload - |plain|, pad);
        delivered := delivered + plain;
        FeedSplits(START, Mask(inStream, 0, before), plain);
        FeedPayload(payload, pad, plain);
      }
    }

    /** Reads pad bytes and drops them. */
    method PollPad() returns (r: Poll<bytes>)
      requires ValidIn() && readState.InBody? && readState.payload == 0 && readState.pad > 0
      modifies this`inPos, this`wireRead, this`readState, inner`coming, inner`readAnswers
      ensures ValidIn() && |old(wireRead)| <= |wireRead|
      ensures match r
              case Ready(Success(plain)) =>
                if plain == [] then inner.coming == [] && readState == old(readState) else |wireRead| > |old(wireRead)|
              case _ => (r == Pending || r == Ready(Failure(Inner))) && EndsWith(old(inner.readAnswers), inner.readAnswers, r)
      ensures old(inner.readAnswers) <= inner.readAnswers
    {
      ghost var before := wireRead;
      var pad := readState.pad;
      r := PollPlain(if pad < 512 then pad else 512);
      if r.Ready? && r.result.Success? {
        var plain := r.result.value;
        readState := InBody(0, pad - |plain|);
        FeedSplits(START, Mask(inStream, 0, before), plain);
        FeedPad(pad, plain);
        assert delivered + [] == delivered;
      }
    }

    /** Delivers at most `room` bytes. An empty success is end of stream, and comes only at a frame boundary;
        the end of the wire anywhere else is UnexpectedEof. Anything else is the inner stream's own answer. */
    method PollRead(room: nat) returns (r: Poll<bytes>)
      requires ValidIn()
      modifies this`inPos, this`wireRead, this`readState, this`delivered, inner`coming, inner`readAnswers
      ensures ValidIn() && |old(wireRead)| <= |wireRead|
      ensures match r
              case Ready(Success(out)) =>
                && |out| <= room && delivered == old(delivered) + out
                && (out == [] ==> room == 0 || (inner.coming == [] && Settled(readState) == START))
              case Ready(Failure(UnexpectedEof)) =>
                inner.coming == [] && Settled(readState) != START && delivered == old(delivered)
              case _ => delivered == old(delivered) && EndsWith(old(inner.readAnswers), inner.readAnswers, r)
    {
      if room == 0 {
        return Ready(Success([]));
      }
      while true
        invariant ValidIn() && |old(wireRead)| <= |wireRead| && delivered == old(delivered)
        invariant old(inner.readAnswers) <= inner.readAnswers
        decreases |inner.coming|, readState.InBody?
      {
        var got: Poll<bytes>;
        if readState.NeedHeader? {
          var atBoundary := readState.partial == [];
          got := PollHeader();
          if got == Ready(Success([])) {
            return if atBoundary then got else Ready(Failure(UnexpectedEof));
          }
        } else if readState.payload > 0 {
          got := PollPayload(room);
          return if got == Ready(Success([])) then Ready(Failure(UnexpectedEof)) else got;
        } else if readState.pad > 0 {
          got := PollPad();
          if got == Ready(Success([])) {
            return Ready(Failure(UnexpectedEof));
          }
        } else {
          readState := START;
          continue;
        }
        if got.Pending? || got.result.Failure? {
          return got;
        }
      }
    }

    /** Offers the parked bytes until none is left or the inner stream stops taking them. It gives up only on
        an answer of the inner stream: as long as bytes are taken, it goes on until nothing is parked. */
    method DrainPending() returns (r: Poll<()>)
      modifies this`pending, inner`accepted, inner`writes
      ensures inner.accepted + pending == old(inner.accepted + pending) && |pending| <= |old(pending)|
      ensures r.Ready? && r.result.Success? <==> pending == []
      ensures old(inner.writes) <= inner.writes
      ensures match r
              case Ready(Success(_)) => forall i | |old(inner.writes)| <= i < |inner.writes| :: Took(inner.writes[i])
              case Ready(Failure(WriteZero)) => EndsWith(old(inner.writes), inner.writes, Ready(Success(0)))
              case Ready(Failure(e)) => EndsWith(old(inner.writes), inner.writes, Ready(Failure(e)))
              case Pending => EndsWith(old(inner.writes), inner.writes, Pending)
      ensures old(pending) == [] ==> inner.writes == old(inner.writes)
    {
      while pending != []
        invariant inner.accepted + pending == old(inner.accepted + pending) && |pending| <= |old(pending)|
        invariant old(inner.writes) <= inner.writes
        invariant forall i | |old(inner.writes)| <= i < |inner.writes| :: Took(inner.writes[i])
        invariant old(pending) == [] ==> inner.writes == old(inner.writes)
        decreases |pending|
      {
        var took := inner.PollWrite(pending);
        match took {
          case Pending => return Pending;
          case Ready(Failure(e)) => return Ready(Failure(e));
          case Ready(Success(n)) =>
            if n == 0 {
              return Ready(Failure(WriteZero));
            }
            assert pending == pending[..n] + pending[n..];
            pending := pending[n..];
        }
      }
      r := Ready(Success(()));
    }

    /** Whether a new frame may go out: no delay is configured or drawn, or its timer has fired. */
    predicate Clears(roll: nat, elapsed: bool)
      reads this`pendingSleep
    {
      elapsed || (!pendingSleep && (jitterMaxMs.None? || jitterMaxMs.value == 0 || roll == 0))
    }

    /** Holds a new frame back while a jitter sleep is running or has just been rolled: `roll` is the delay
        drawn, `elapsed` whether the timer has fired when it is asked. */
    method JitterClears(roll: nat, elapsed: bool) returns (clear: bool)
      requires jitterMaxMs.Some? ==> roll <= jitterMaxMs.value
      modifies this`pendingSleep
      ensures clear == old(Clears(roll, elapsed)) && pendingSleep == !clear
    {
      if pendingSleep {
        if !elapsed {
          return false;
        }
        pendingSleep := false;
      } else if jitterMaxMs.Some? && jitterMaxMs.value > 0 && roll > 0 {
        if !elapsed {
          pendingSleep := true;
          return false;
        }
      }
      clear := true;
    }

    /** Accepts the first bytes of `data` as one frame, once nothing is parked. A success for `n` bytes
        means exactly those have joined the history; nothing else joins it. It fails or stalls only on an
        answer of the inner stream, or stalls for the jitter timer once nothing is parked. */
    method PollWrite(data: bytes, roll: nat, elapsed: bool) returns (r: Poll<nat>)
      requires Valid() && (jitterMaxMs.Some? ==> roll <= jitterMaxMs.value)
      modifies this`outPos, this`pending, this`pendingSleep, this`payloads, this`broken, inner`accepted, inner`writes
      ensures Valid() && (old(broken) ==> broken)
      ensures match r
              case Ready(Success(_)) => true
              case Ready(Failure(WriteZero)) => EndsWith(old(inner.writes), inner.writes, Ready(Success(0)))
              case Ready(Failure(e)) => EndsWith(old(inner.writes), inner.writes, Ready(Failure(e)))
              case Pending =>
                EndsWith(old(inner.writes), inner.writes, Pending) || (!old(Clears(roll, elapsed)) && pending == [] && pendingSleep)
      ensures match r
              case Ready(Success(n)) =>
                && n == (if |data| < MAX_PAYLOAD_PER_FRAME then |data| else MAX_PAYLOAD_PER_FRAME)
                && payloads == (if n == 0 then old(payloads) else old(payloads) + [data[..n]])
                && broken == old(broken)
              case Ready(Failure(_)) => payloads == old(payloads)
              case Pending => payloads == old(payloads) && broken == old(broken)
    {
      hide Frame, Mask, Wire, Feed, Settled;
      if data == [] {
        return Ready(Success(0));
      }
      var drained := DrainPending();
      match drained {
        case Pending => return Pending;
        case Ready(Failure(e)) => return Ready(Failure(e));
        case Ready(Success(_)) =>
      }
      var clear := JitterClears(roll, elapsed);
      if !clear {
        return Pending;
      }
      var n := if |data| < MAX_PAYLOAD_PER_FRAME then |data| else MAX_PAYLOAD_PER_FRAME;
      var sent := EmitFrame(data[..n]);
      r := if sent then Ready(Success(n)) else Ready(Failure(Inner));
    }

    /** Builds, masks and offers one frame, parking what is not taken. False means that the inner stream
        failed and the frame is lost. */
    method EmitFrame(payload: Payload) returns (sent: bool)
      requires ValidOut() && pending == [] && 0 < |payload| <= MAX_PAYLOAD_PER_FRAME
      modifies this`outPos, this`pending, this`payloads, this`broken, inner`accepted, inner`writes
      ensures old(inner.writes) <= inner.writes && (!sent ==> EndsWith(old(inner.writes), inner.writes, Ready(Failure(Inner))))
      ensures ValidOut() && (sent ==> broken == old(broken)) && (!sent ==> broken)
      ensures payloads == if sent then old(payloads) + [payload] else old(payloads)
    {
      hide Frame, Mask, Wire;
      var frame := Mask(outStream, outPos, Frame(payload));
      ghost var next := payloads + [payload];
      WireGrows(outStream, payloads, payload);
      assert !broken ==> inner.accepted == Mask(outStream, 0, Wire(payloads));
      outPos := outPos + |frame|;
      var took := inner.PollWrite(frame);
      match took {
        case Ready(Failure(e)) =>
          broken := true;
          return false;
        case Ready(Success(k)) =>
          pending := frame[k..];
          assert frame == frame[..k] + frame[k..];
        case Pending =>
          pending := frame;
      }
      assert inner.accepted + pending == old(inner.accepted) + frame;
      payloads := next;
      sent := true;
    }

    /** `poll_flush`, and likewise `poll_close`: nothing is parked any more, and the inner stream has answered
        in its turn; or the parked bytes were not all taken. */
    method PollFinish() returns (r: Poll<()>)
      requires Valid()
      modifies this`pending, inner`accepted, inner`writes, inner`finishes
      ensures Valid()
      ensures if pending == [] then EndsWith(old(inner.finishes), inner.finishes, r)
              else match r
                   case Ready(Success(_)) => false
                   case Ready(Failure(WriteZero)) => EndsWith(old(inner.writes), inner.writes, Ready(Success(0)))
                   case Ready(Failure(e)) => EndsWith(old(inner.writes), inner.writes, Ready(Failure(e)))
                   case Pending => EndsWith(old(inner.writes), inner.writes, Pending)
    {
      var drained := DrainPending();
      match drained {
        case Pending => return Pending;
        case Ready(Failure(e)) => return Ready(Failure(e));
        case Ready(Success(_)) =>
      }
      r := inner.PollFinish();
    }
  }

  lemma WireGrows(ks: Stream, payloads: seq<Payload>, payload: Payload)
    requires 0 < |payload| <= MAX_PAYLOAD_PER_FRAME
    ensures var wire, frame := Wire(payloads), Frame(payload);
            && |Wire(payloads + [payload])| == |wire| + |frame| && |frame| <= MAX_PENDING_BYTES
            && Mask(ks, 0, Wire(payloads + [payload])) == Mask(ks, 0, wire) + Mask(ks, |wire|, frame)
  {
    FrameSizes(payload);
    assert (payloads + [payload])[..|payloads|] == payloads;
    MaskSplits(ks, 0, Wire(payloads), Frame(payload));
  }

  lemma FeedHeaderBytes(partial: bytes, more: bytes)
    requires |partial| < 2 && 0 < |more| <= 2 - |partial|
    ensures var filled := partial + more;
            Feed(NeedHeader(partial), more) ==
              (if |filled| == 2 then Settled(InBody(PayloadLen(filled[0], filled[1]), PadLen(PayloadLen(filled[0], filled[1]))))
               else NeedHeader(filled), [])
  {
    var none: bytes := [];
    assert none + none == none;
    if |more| == 1 {
      assert more == [more[0]] && (partial == [] ==> partial + more == more);
      assert more[..0] == [] && Feed(NeedHeader(partial), more) == (HeaderByte(partial, more[0]), none + none);
    } else {
      assert partial == [] && more == [more[0], more[1]];
      FeedHeader(more[0], more[1]);
    }
  }

  /** The pipe. A writer whose history is `payloads` feeds a reader with the mirrored keystream through a
      transport that keeps order. Whatever part of the wire has been read, the bytes delivered are a prefix
      of the bytes written; once nothing is parked and all is read they are all of them, and the reader is
      where end of stream is clean. */
  lemma PipeIsFifo(ks: Stream, payloads: seq<Payload>, accepted: bytes, pending: bytes, wireRead: bytes)
    requires accepted + pending == Mask(ks, 0, Wire(payloads)) && wireRead <= accepted
    ensures var (rs, delivered) := Feed(START, Mask(ks, 0, wireRead));
            && delivered <= Flat(payloads)
            && (rs == START <==> Boundary(payloads, |wireRead|))
            && (pending == [] && wireRead == accepted ==> delivered == Flat(payloads) && rs == START)
  {
    var wire, n := Wire(payloads), |wireRead|;
    assert wireRead == Mask(ks, 0, wire)[..n];
    MaskPrefix(ks, 0, wire, n);
    MaskTwice(ks, 0, wire[..n]);
    FeedCut(payloads, n);
    if pending == [] && wireRead == accepted {
      assert wire[..n] == wire;
      FeedWire(payloads);
    }
  }

  /** The same for two stream objects at the two ends of a connection, in whatever states their polls have
      left them. */
  lemma StreamsAreAPipe(writer: ScrambleStream, reader: ScrambleStream)
    requires writer.Valid() && !writer.broken && reader.Valid() && writer.outStream == reader.inStream
    requires reader.wireRead <= writer.inner.accepted
    ensures reader.delivered <= Flat(writer.payloads)
    ensures Settled(reader.readState) == START <==> Boundary(writer.payloads, |reader.wireRead|)
    ensures writer.pending == [] && reader.wireRead == writer.inner.accepted ==> reader.delivered == Flat(writer.payloads)
  {
    PipeIsFifo(writer.outStream, writer.payloads, writer.inner.accepted, writer.pending, reader.wireRead);
  }

  /** What is on the wire or parked is the frames' own bytes exactly where the keystream is zero. */
  lemma WireShowsFrames(writer: ScrambleStream, i: nat)
    requires writer.Valid() && !writer.broken && i < |Wire(writer.payloads)|
    ensures |writer.inner.accepted + writer.pending| == |Wire(writer.payloads)|
    ensures (writer.inner.accepted + writer.pending)[i] == Wire(writer.payloads)[i] <==> writer.outStream(i) == 0
  {
    MaskShowsData(writer.outStream, 0, Wire(writer.payloads), i);
  }

  /** A reader keyed in whatever way sees the frames exactly where its keystream is the writer's. */
  lemma KeystreamReads(writer: ScrambleStream, reader: ScrambleStream, i: nat)
    requires writer.Valid() && !writer.broken && reader.wireRead <= writer.inner.accepted && i < |reader.wireRead|
    ensures i < |Wire(writer.payloads)|
    ensures Mask(reader.inStream, 0, reader.wireRead)[i] == Wire(writer.payloads)[i] <==> reader.inStream(i) == writer.outStream(i)
  {
    var wire := Wire(writer.payloads);
    assert (writer.inner.accepted + writer.pending)[i] == Mask(writer.outStream, 0, wire)[i];
    OtherKeystreamReads(writer.outStream, reader.inStream, 0, wire, i);
  }
}
