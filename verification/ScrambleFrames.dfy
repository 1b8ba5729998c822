// The frame layer below the keystream: what a writer puts on the wire for a sequence of payloads, and
// what the reader's state machine makes of any wire, one byte at a time.
module ScrambleFrames {
  import opened Words

  const FRAME_QUANTUM: nat := 256
  const MAX_PENDING_BYTES: nat := 4 * FRAME_QUANTUM
  const MAX_PAYLOAD_PER_FRAME: nat := MAX_PENDING_BYTES - 2

  function PaddedFrameSize(total: nat): (r: nat)
    ensures total <= r < total + FRAME_QUANTUM && r % FRAME_QUANTUM == 0
  {
    RoundsUp(total);
    (total + FRAME_QUANTUM - 1) / FRAME_QUANTUM * FRAME_QUANTUM
  }

  lemma RoundsUp(n: nat)
    ensures var r := (n + 255) / 256 * 256; n <= r < n + 256 && r % 256 == 0
  {
  }

  function Zeros(n: nat): (r: bytes)
    ensures |r| == n
  {
    seq(n, i => 0)
  }

  type Payload = p: bytes | |p| < 0x1_0000

  function Frame(payload: Payload): (f: bytes)
    ensures |f| == PaddedFrameSize(2 + |payload|)
  {
    [|payload| / 256, |payload| % 256] + payload + Zeros(PaddedFrameSize(2 + |payload|) - 2 - |payload|)
  }

  function Wire(payloads: seq<Payload>): bytes {
    if payloads == [] then [] else Wire(payloads[..|payloads| - 1]) + Frame(payloads[|payloads| - 1])
  }

  function Flat(payloads: seq<Payload>): bytes {
    if payloads == [] then [] else Flat(payloads[..|payloads| - 1]) + payloads[|payloads| - 1]
  }

  // ----- the reader, byte by byte -----

  type u16 = x: int | 0 <= x < 0x1_0000

  datatype ReadState = NeedHeader(partial: bytes) | InBody(payload: u16, pad: u16)

  const START := NeedHeader([])

  /** A body with nothing left is where the next frame starts. */
  function Settled(rs: ReadState): ReadState {
    if rs == InBody(0, 0) then START else rs
  }

  function PayloadLen(hi: byte, lo: byte): u16 {
    hi * 256 + lo
  }

  function PadLen(payload: u16): u16 {
    PaddedFrameSize(2 + payload) - (2 + payload)
  }

  function HeaderByte(partial: bytes, b: byte): ReadState {
    if partial == [] then NeedHeader([b])
    else Settled(InBody(PayloadLen(partial[0], b), PadLen(PayloadLen(partial[0], b))))
  }

  function Take(rs: ReadState, b: byte): (ReadState, bytes) {
    match rs
    case NeedHeader(partial) => (HeaderByte(partial, b), [])
    case InBody(payload, pad) =>
      if payload > 0 then (Settled(InBody(payload - 1, pad)), [b])
      else if pad > 0 then (Settled(InBody(0, pad - 1)), [])
      else (HeaderByte([], b), [])
  }

  /** The reader after `wire`, and the bytes it has delivered. */
  function Feed(rs: ReadState, wire: bytes): (ReadState, bytes) {
    if wire == [] then (rs, [])
    else
      var (before, out) := Feed(rs, wire[..|wire| - 1]);
      var (after, more) := Take(before, wire[|wire| - 1]);
      (after, out + more)
  }

  // ----- chunk independence -----

  /** Reading a wire in two pieces is reading it in one. */
  lemma {:induction false} FeedSplits(rs: ReadState, a: bytes, b: bytes)
    ensures var (mid, out) := Feed(rs, a);
            Feed(rs, a + b) == (Feed(mid, b).0, out + Feed(mid, b).1)
  {
    if b == [] {
      assert a + b == a && Feed(rs, a).1 + [] == Feed(rs, a).1;
    } else {
      var (mid, out) := Feed(rs, a);
      var n := |b| - 1;
      FeedSplits(rs, a, b[..n]);
      assert (a + b)[..|a + b| - 1] == a + b[..n];
      var more := Take(Feed(mid, b[..n]).0, b[n]).1;
      assert out + Feed(mid, b[..n]).1 + more == out + (Feed(mid, b[..n]).1 + more);
    }
  }

  /** However the wire is cut into pieces. */
  function FeedAll(rs: ReadState, pieces: seq<bytes>): (ReadState, bytes) {
    if pieces == [] then (rs, [])
    else
      var (before, out) := FeedAll(rs, pieces[..|pieces| - 1]);
      var (after, more) := Feed(before, pieces[|pieces| - 1]);
      (after, out + more)
  }

  function Joined(pieces: seq<bytes>): bytes {
    if pieces == [] then [] else Joined(pieces[..|pieces| - 1]) + pieces[|pieces| - 1]
  }

  lemma {:induction false} ChunksDoNotMatter(rs: ReadState, pieces: seq<bytes>)
    ensures FeedAll(rs, pieces) == Feed(rs, Joined(pieces))
  {
    if pieces != [] {
      var n := |pieces| - 1;
      ChunksDoNotMatter(rs, pieces[..n]);
      FeedSplits(rs, Joined(pieces[..n]), pieces[n]);
    }
  }

  // ----- runs of payload and of padding -----

  lemma {:induction false} FeedPayload(payload: u16, pad: u16, data: bytes)
    requires |data| <= payload
    ensures Feed(Settled(InBody(payload, pad)), data) == (Settled(InBody(payload - |data|, pad)), data)
  {
    if data != [] {
      FeedPayload(payload, pad, data[..|data| - 1]);
      assert data == data[..|data| - 1] + [data[|data| - 1]];
    }
  }

  lemma {:induction false} FeedPad(pad: u16, data: bytes)
    requires |data| <= pad
    ensures Feed(Settled(InBody(0, pad)), data) == (Settled(InBody(0, pad - |data|)), [])
  {
    if data != [] {
      FeedPad(pad, data[..|data| - 1]);
      var none: bytes := [];
      assert none + none == none;
    }
  }

  lemma FeedHeader(hi: byte, lo: byte)
    ensures Feed(START, [hi]) == (NeedHeader([hi]), [])
    ensures Feed(START, [hi, lo]) == (Settled(InBody(PayloadLen(hi, lo), PadLen(PayloadLen(hi, lo)))), [])
  {
    assert [hi][..0] == [] && [hi, lo][..1] == [hi];
    var none: bytes := [];
    assert none + none == none;
  }

  lemma FrameHead(payload: Payload)
    ensures var head := Frame(payload)[..2];
            Feed(START, head) == (Settled(InBody(|payload|, PadLen(|payload|))), [])
    ensures Frame(payload)[2..2 + |payload|] == payload
    ensures |Frame(payload)| == 2 + |payload| + PadLen(|payload|)
  {
    var len := |payload|;
    FeedHeader(len / 256, len % 256);
    assert Frame(payload)[..2] == [len / 256, len % 256];
  }

  /** A frame is its length, its payload and zeros: the pad carries nothing. */
  lemma PadIsZero(payload: Payload, i: nat)
    requires i < |Frame(payload)|
    ensures Frame(payload)[i] ==
              if i < 2 then (if i == 0 then |payload| / 256 else |payload| % 256)
              else if i < 2 + |payload| then payload[i - 2] else 0
  {
  }

  lemma FeedFrameHead(payload: Payload, n: nat)
    requires n < 2 <= |Frame(payload)|
    ensures Feed(START, Frame(payload)[..n]) == (if n == 0 then START else NeedHeader([Frame(payload)[0]]), [])
  {
    var f := Frame(payload);
    FeedHeader(f[0], f[1]);
    assert f[..n] == if n == 0 then [] else [f[0]];
  }

  lemma FeedFramePayload(payload: Payload, k: nat)
    requires k <= |payload|
    ensures Feed(START, Frame(payload)[..2 + k]) == (Settled(InBody(|payload| - k, PadLen(|payload|))), payload[..k])
  {
    var f := Frame(payload);
    FrameHead(payload);
    hide Frame, PaddedFrameSize, PadLen, Feed;
    FeedPayload(|payload|, PadLen(|payload|), payload[..k]);
    FeedSplits(START, f[..2], payload[..k]);
    assert f[..2 + k] == f[..2] + payload[..k] && [] + payload[..k] == payload[..k];
  }

  lemma FeedFramePad(payload: Payload, k: nat)
    requires k <= PadLen(|payload|)
    ensures 2 + |payload| + k <= |Frame(payload)|
    ensures Feed(START, Frame(payload)[..2 + |payload| + k]) == (Settled(InBody(0, PadLen(|payload|) - k)), payload)
  {
    var f, len := Frame(payload), |payload|;
    FrameHead(payload);
    FeedFramePayload(payload, len);
    hide Frame, PaddedFrameSize, PadLen, Feed;
    var pad := f[2 + len..2 + len + k];
    FeedPad(PadLen(len), pad);
    FeedSplits(START, f[..2 + len], pad);
    assert f[..2 + len + k] == f[..2 + len] + pad;
    assert payload[..len] == payload && payload + [] == payload;
  }

  /** Every prefix of a frame: what has come out, and whether the reader is back at a boundary. */
  lemma FeedFrame(payload: Payload, n: nat)
    requires n <= |Frame(payload)|
    ensures var (rs, out) := Feed(START, Frame(payload)[..n]);
            && out == payload[..if n < 2 then 0 else if n - 2 < |payload| then n - 2 else |payload|]
            && (rs == START <==> n == 0 || n == |Frame(payload)|)
  {
    FrameHead(payload);
    hide Frame, PaddedFrameSize, PadLen, Feed;
    if n < 2 {
      FeedFrameHead(payload, n);
    } else if n <= 2 + |payload| {
      FeedFramePayload(payload, n - 2);
    } else {
      FeedFramePad(payload, n - 2 - |payload|);
    }
  }

  /** Reading all the frames of a writer gives its payloads back and ends at a boundary. */
  lemma {:induction false} FeedWire(payloads: seq<Payload>)
    ensures Feed(START, Wire(payloads)) == (START, Flat(payloads))
  {
    if payloads != [] {
      var n := |payloads| - 1;
      FeedWire(payloads[..n]);
      FeedSplits(START, Wire(payloads[..n]), Frame(payloads[n]));
      FeedFrame(payloads[n], |Frame(payloads[n])|);
      assert Frame(payloads[n])[..|Frame(payloads[n])|] == Frame(payloads[n]);
      assert payloads[n][..|payloads[n]|] == payloads[n];
    }
  }

  /** Where a wire may end without cutting a frame. */
  ghost predicate Boundary(payloads: seq<Payload>, cut: nat) {
    exists k: nat :: k <= |payloads| && cut == |Wire(payloads[..k])|
  }

  lemma {:induction false} WirePrefix(payloads: seq<Payload>, k: nat)
    requires k <= |payloads|
    ensures |Wire(payloads[..k])| <= |Wire(payloads)| && Wire(payloads)[..|Wire(payloads[..k])|] == Wire(payloads[..k])
  {
    if k == |payloads| {
      assert payloads[..k] == payloads;
    } else {
      var n := |payloads| - 1;
      assert payloads[..n][..k] == payloads[..k];
      WirePrefix(payloads[..n], k);
    }
  }

  /** A wire cut anywhere: the bytes delivered are a prefix of what was written, and the reader is at a
      frame boundary, where end of stream is clean, exactly when the cut is one; at every cut inside a
      header, a payload or a pad it is not, and end of stream is UnexpectedEof. */
  lemma {:induction false} FeedCut(payloads: seq<Payload>, cut: nat)
    requires cut <= |Wire(payloads)|
    ensures var (rs, out) := Feed(START, Wire(payloads)[..cut]);
            out <= Flat(payloads) && (rs == START <==> Boundary(payloads, cut))
  {
    hide Frame;
    if payloads == [] {
      assert cut == |Wire(payloads[..0])|;
    } else {
      var n := |payloads| - 1;
      var front := Wire(payloads[..n]);
      if cut <= |front| {
        FeedCut(payloads[..n], cut);
        assert Wire(payloads)[..cut] == front[..cut];
        BoundaryOfFront(payloads, cut);
      } else {
        FeedCutLast(payloads, cut);
        BoundaryPastFront(payloads, cut);
      }
    }
  }

  lemma FeedCutLast(payloads: seq<Payload>, cut: nat)
    requires payloads != [] && |Wire(payloads[..|payloads| - 1])| < cut <= |Wire(payloads)|
    ensures var (rs, out) := Feed(START, Wire(payloads)[..cut]);
            out <= Flat(payloads) && (rs == START <==> cut == |Wire(payloads)|)
  {
    var n := |payloads| - 1;
    var front, last := Wire(payloads[..n]), Frame(payloads[n]);
    assert Wire(payloads) == front + last && Flat(payloads) == Flat(payloads[..n]) + payloads[n];
    hide *;
    var part := last[..cut - |front|];
    FeedWire(payloads[..n]);
    FeedSplits(START, front, part);
    FeedFrame(payloads[n], cut - |front|);
    CutPast(front, last, cut);
    PrefixAfter(Flat(payloads[..n]), Feed(START, part).1, payloads[n]);
  }

  lemma CutPast(front: bytes, last: bytes, cut: nat)
    requires |front| <= cut <= |front + last|
    ensures (front + last)[..cut] == front + last[..cut - |front|]
  {
  }

  lemma PrefixAfter(front: bytes, part: bytes, whole: bytes)
    requires part <= whole
    ensures front + part <= front + whole
  {
  }

  lemma BoundaryOfFront(payloads: seq<Payload>, cut: nat)
    requires payloads != [] && cut <= |Wire(payloads[..|payloads| - 1])|
    ensures Boundary(payloads, cut) <==> Boundary(payloads[..|payloads| - 1], cut)
  {
    var n := |payloads| - 1;
    forall k: nat | k <= n ensures payloads[..n][..k] == payloads[..k] {}
    assert payloads[..n + 1] == payloads && |Wire(payloads)| > |Wire(payloads[..n])|;
    if Boundary(payloads, cut) {
      var k: nat :| k <= |payloads| && cut == |Wire(payloads[..k])|;
      assert k <= n && cut == |Wire(payloads[..n][..k])|;
    }
    if Boundary(payloads[..n], cut) {
      var k: nat :| k <= n && cut == |Wire(payloads[..n][..k])|;
      assert cut == |Wire(payloads[..k])|;
    }
  }

  lemma BoundaryPastFront(payloads: seq<Payload>, cut: nat)
    requires payloads != [] && |Wire(payloads[..|payloads| - 1])| < cut <= |Wire(payloads)|
    ensures Boundary(payloads, cut) <==> cut == |Wire(payloads)|
  {
    var n := |payloads| - 1;
    assert payloads[..n + 1] == payloads;
    if Boundary(payloads, cut) {
      var k: nat :| k <= |payloads| && cut == |Wire(payloads[..k])|;
      if k <= n {
        assert payloads[..n][..k] == payloads[..k];
        WirePrefix(payloads[..n], k);
      }
    }
  }

  // ----- sizes -----

  /** The payloads `write_all` produces: each `poll_write` accepts the first MAX_PAYLOAD_PER_FRAME bytes of
      what is left. */
  function Chunks(data: bytes): seq<Payload>
    decreases |data|
  {
    if data == [] then []
    else if |data| <= MAX_PAYLOAD_PER_FRAME then [data]
    else [data[..MAX_PAYLOAD_PER_FRAME]] + Chunks(data[MAX_PAYLOAD_PER_FRAME..])
  }

  lemma FrameSizes(payload: Payload)
    requires 0 < |payload| <= MAX_PAYLOAD_PER_FRAME
    ensures |Frame(payload)| in {256, 512, 768, 1024}
  {
  }

  lemma Associates(a: bytes, b: bytes, c: bytes)
    ensures (a + b) + c == a + (b + c)
  {
  }

  lemma {:induction false} WireOfCons(p: Payload, rest: seq<Payload>)
    ensures Wire([p] + rest) == Frame(p) + Wire(rest) && Flat([p] + rest) == p + Flat(rest)
  {
    hide Frame;
    var all := [p] + rest;
    if rest == [] {
      assert all == [p] && all[..0] == [];
    } else {
      var n := |rest| - 1;
      WireOfCons(p, rest[..n]);
      assert all[..n + 1] == [p] + rest[..n] && all[n + 1] == rest[n];
      assert Wire(all) == (Frame(p) + Wire(rest[..n])) + Frame(rest[n]);
      assert Flat(all) == (p + Flat(rest[..n])) + rest[n];
      Associates(Frame(p), Wire(rest[..n]), Frame(rest[n]));
      Associates(p, Flat(rest[..n]), rest[n]);
    }
  }

  lemma WireOfNone()
    ensures Wire([]) == [] && Flat([]) == []
  {
  }

  lemma CostOfLast(n: nat)
    requires 0 < n <= 1022
    ensures PaddedFrameSize(2 + n) == 1024 * (n / 1022) + (if n % 1022 == 0 then 0 else PaddedFrameSize(2 + n % 1022))
  {
  }

  lemma CostOfFull(n: nat)
    requires n > 1022
    ensures PaddedFrameSize(1024) == 1024 && n / 1022 == (n - 1022) / 1022 + 1 && n % 1022 == (n - 1022) % 1022
  {
  }

  /** Writing L bytes to completion costs 1024 bytes for each full 1022 and one padded frame for the rest. */
  lemma {:induction false} WireCost(data: bytes)
    ensures Flat(Chunks(data)) == data
    ensures var L := |data|;
            |Wire(Chunks(data))| == 1024 * (L / 1022) + (if L % 1022 == 0 then 0 else PaddedFrameSize(2 + L % 1022))
    decreases |data|
  {
    hide Frame, PaddedFrameSize, Wire, Flat;
    if data == [] {
      WireOfNone();
    } else if |data| <= MAX_PAYLOAD_PER_FRAME {
      WireOfNone();
      var one: seq<Payload> := [data];
      assert one == one + [];
      WireOfCons(data, []);
      CostOfLast(|data|);
    } else {
      var head, tail := data[..MAX_PAYLOAD_PER_FRAME], data[MAX_PAYLOAD_PER_FRAME..];
      WireCost(tail);
      WireOfCons(head, Chunks(tail));
      assert data == head + tail;
      CostOfFull(|data|);
    }
  }
}
