// Payloads: what a node makes of the texts for one peer, and what the node there makes of the payloads.
module Posting {
  import opened Wrappers
  import opened Words
  import opened Symbolic
  import opened RatchetSpec
  import opened Handshake
  import Delivery
  import Signing

  const KIND_TEXT: byte := 0

  /** An encrypted payload as it travels; the three optional fields belong to a first message. */
  datatype Payload = Payload(msg: RatchetMessage, kind: byte, eph: Option<Pub>, otpkId: Option<int>, kemCt: Option<EncodedCt>)

  function Wrapped(msg: RatchetMessage, kind: byte, hello: Option<Hello>): Payload {
    match hello
    case None => Payload(msg, kind, None, None, None)
    case Some(h) => Payload(msg, kind, Some(h.eph), h.otpkId, h.kemCt)
  }

  /** The plaintext inside a ciphertext. */
  function Inside(p: Payload): bytes {
    if p.msg.ciphertext.Sealed? then p.msg.ciphertext.plaintext else []
  }

  // ----- sending -----

  /** What is at hand for a first message: the peer's prekey, and a one-time prekey and KEM key if cached. */
  datatype Prekeys = Prekeys(prekey: Pub, otpk: Option<OtpkBundle>, ek: Option<EncodedEk>)

  /** The next text for `peer`: under the session when there is one, else as the first of a new session. */
  function SendsOne(me: Peer, spk: PrivId, peer: Peer, keys: Option<Prekeys>, d: Draws, session: Option<State>, text: bytes): (r: (State, Payload))
    requires if session.Some? then session.value.cks.Some? else keys.Some?
    ensures r.0.cks.Some? && r.1.kind == KIND_TEXT && Inside(r.1) == text
    ensures session.Some? <==> r.1.eph.None?
    ensures session.Some? ==> r.1.otpkId.None? && r.1.kemCt.None?
  {
    match session
    case Some(st) =>
      var (next, sent) := Encrypted(st, text, Signing.RatchetAd(me, peer));
      (next, Wrapped(sent.value, KIND_TEXT, None))
    case None =>
      var (hello, st) := BuildHello(spk, keys.value.prekey, keys.value.otpk, keys.value.ek, d);
      var (next, sent) := Encrypted(st, text, Signing.RatchetAd(me, peer));
      (next, Wrapped(sent.value, KIND_TEXT, Some(hello)))
  }

  /** Several texts, in order. */
  function SendsAll(me: Peer, spk: PrivId, peer: Peer, keys: Option<Prekeys>, d: Draws, session: Option<State>,
                 texts: seq<bytes>): (r: (Option<State>, seq<Payload>))
    requires (session.Some? ==> session.value.cks.Some?) && (session.Some? || keys.Some? || texts == [])
    ensures |r.1| == |texts| && (r.0.Some? ==> r.0.value.cks.Some?) && (r.0.Some? <==> session.Some? || texts != [])
    ensures forall i | 0 <= i < |texts| :: r.1[i].kind == KIND_TEXT && Inside(r.1[i]) == texts[i]
    ensures forall i | 0 <= i < |texts| :: r.1[i].eph.None? <==> session.Some? || i > 0
  {
    if texts == [] then (session, [])
    else
      var (before, payloads) := SendsAll(me, spk, peer, keys, d, session, texts[..|texts| - 1]);
      var (st, p) := SendsOne(me, spk, peer, keys, d, before, texts[|texts| - 1]);
      (Some(st), payloads + [p])
  }

  // ----- receiving -----

  /** What a first message leads to at the responder: a session and the text, when it derives and opens. */
  function Answered(spk: PrivId, dk: nat, otpks: map<int, PrivId>, prekey: Pub, hello: Hello, drawn: PrivId, msg: RatchetMessage,
                    ad: bytes): Option<(State, bytes)> {
    match ResponderSecret(spk, dk, otpks, prekey, hello)
    case Failure(_) => None
    case Success(sk) =>
      match Decrypted(NewResponder(sk, spk), drawn, msg, ad)
      case (_, Failure(_)) => None
      case (st, Success(text)) => Some((st, text))
  }

  /** What a node has for one peer: the session in memory and the one stored, its own one-time prekeys, and the
      inbox. */
  datatype Desk = Desk(memory: Option<State>, stored: Option<State>, otpks: map<int, PrivId>, inbox: seq<(Peer, byte, bytes)>) {
    function Session(): Option<State> { if memory.Some? then memory else stored }
  }

  datatype Own = Own(me: Peer, spk: PrivId, dk: nat)

  /** A payload from `peer`, whose prekey is known: under the session when there is one, else by its hello. */
  function Taken(own: Own, peer: Peer, prekey: Pub, desk: Desk, p: Payload, drawn: PrivId): Desk {
    var ad := Signing.RatchetAd(peer, own.me);
    match desk.Session()
    case Some(st) =>
      (match Decrypted(st, drawn, p.msg, ad)
       case (next, Failure(_)) => desk.(memory := Some(next))
       case (next, Success(text)) => Desk(Some(next), Some(next), desk.otpks, desk.inbox + [(peer, p.kind, text)]))
    case None =>
      if p.eph.None? then desk
      else
        match Answered(own.spk, own.dk, desk.otpks, prekey, Hello(p.eph.value, p.otpkId, p.kemCt), drawn, p.msg, ad)
        case None => desk
        case Some((st, text)) =>
          Desk(Some(st), Some(st), if p.otpkId.Some? then desk.otpks - {p.otpkId.value} else desk.otpks,
               desk.inbox + [(peer, p.kind, text)])
  }

  function TakenAll(own: Own, peer: Peer, prekey: Pub, desk: Desk, payloads: seq<Payload>, draw: nat -> PrivId): Desk {
    if payloads == [] then desk
    else
      var n := |payloads| - 1;
      Taken(own, peer, prekey, TakenAll(own, peer, prekey, desk, payloads[..n], draw), payloads[n], draw(n))
  }

  lemma NothingTaken(own: Own, peer: Peer, prekey: Pub, desk: Desk, draw: nat -> PrivId)
    ensures TakenAll(own, peer, prekey, desk, [], draw) == desk
  {
  }

  // ----- sessions that can encrypt -----

  /** Receiving never loses the sending chain, whether or not the message opens. */
  lemma ReceivingKeepsSending(st: State, drawn: PrivId, msg: RatchetMessage, ad: bytes)
    requires st.cks.Some?
    ensures Decrypted(st, drawn, msg, ad).0.cks.Some?
  {
  }

  /** A responder can send as soon as its first message has opened. */
  lemma FirstMessageGivesSending(sk: Key, spk: PrivId, drawn: PrivId, msg: RatchetMessage, ad: bytes)
    requires Decrypted(NewResponder(sk, spk), drawn, msg, ad).1.Success?
    ensures Decrypted(NewResponder(sk, spk), drawn, msg, ad).0.cks.Some?
  {
  }

  predicate DeskReady(desk: Desk) {
    (desk.memory.Some? ==> desk.memory.value.cks.Some?) && (desk.stored.Some? ==> desk.stored.value.cks.Some?)
  }

  lemma TakingKeepsReady(own: Own, peer: Peer, prekey: Pub, desk: Desk, p: Payload, drawn: PrivId)
    requires DeskReady(desk)
    ensures DeskReady(Taken(own, peer, prekey, desk, p, drawn))
  {
    var ad := Signing.RatchetAd(peer, own.me);
    if desk.Session().Some? {
      ReceivingKeepsSending(desk.Session().value, drawn, p.msg, ad);
    } else if p.eph.Some? {
      var sk := ResponderSecret(own.spk, own.dk, desk.otpks, prekey, Hello(p.eph.value, p.otpkId, p.kemCt));
      if sk.Success? && Decrypted(NewResponder(sk.value, own.spk), drawn, p.msg, ad).1.Success? {
        FirstMessageGivesSending(sk.value, own.spk, drawn, p.msg, ad);
      }
    }
  }

  lemma {:induction false} TakingAllKeepsReady(own: Own, peer: Peer, prekey: Pub, desk: Desk, payloads: seq<Payload>, draw: nat -> PrivId)
    requires DeskReady(desk)
    ensures DeskReady(TakenAll(own, peer, prekey, desk, payloads, draw))
  {
    if payloads != [] {
      var n := |payloads| - 1;
      TakingAllKeepsReady(own, peer, prekey, desk, payloads[..n], draw);
      TakingKeepsReady(own, peer, prekey, TakenAll(own, peer, prekey, desk, payloads[..n], draw), payloads[n], draw(n));
    }
  }

  // ----- a conversation -----

  /** The sender and the reader are the two ends of one honest run, in which all that was sent was opened. */
  ghost predicate Talking(run: Delivery.Run) {
    && Delivery.Paired(run) && run.alice.st.cks.Some? && run.alice.st.ns == |run.alice.log|
    && forall i: nat :: i in run.bob.received <==> i < |run.alice.log|
  }

  lemma {:induction false} AllDelivered(received: set<nat>, k: nat)
    requires forall i: nat | i < k :: i in received
    ensures Delivery.Undelivered(received, k) == 0
  {
    if k > 0 {
      AllDelivered(received, k - 1);
    }
  }

  /** One more text is sent and read. */
  lemma TalkOn(run: Delivery.Run, text: bytes, ad: bytes, drawn: PrivId) returns (next: Delivery.Run)
    requires Talking(run) && run.alice.st.ns + 1 < U32_LIMIT && drawn !in run.used
    ensures var (st, sent) := Encrypted(run.alice.st, text, ad);
            && sent.Success? && next.alice.st == st && |next.alice.log| == |run.alice.log| + 1
            && Decrypted(run.bob.st, drawn, sent.value, ad) == (next.bob.st, Success(text))
    ensures Talking(next) && next.used == run.used + {drawn}
  {
    var k := |run.alice.log|;
    hide Encrypted, Decrypted, Delivery.Genuine, Delivery.Leads, Delivery.Paired;
    var mid := SendsOn(run, text, ad);
    AllDelivered(mid.bob.received, k);
    ReadsOn(mid, k, drawn);
    next := Delivery.After(mid, Delivery.Deliver(Delivery.Bob, k, drawn));
    Delivery.StepStaysPaired(mid, Delivery.Deliver(Delivery.Bob, k, drawn));
  }

  lemma SendsOn(run: Delivery.Run, text: bytes, ad: bytes) returns (mid: Delivery.Run)
    requires Delivery.Paired(run) && run.alice.st.cks.Some? && run.alice.st.ns + 1 < U32_LIMIT
    ensures var (st, sent) := Encrypted(run.alice.st, text, ad);
            && sent.Success? && st.cks.Some? && st.ns == run.alice.st.ns + 1
            && mid == Delivery.Run(run.alice.(st := st, log := run.alice.log + [Delivery.Sent(sent.value, text, ad)]), run.bob, run.used)
    ensures Delivery.Paired(mid)
  {
    mid := Delivery.After(run, Delivery.Send(Delivery.Alice, text, ad));
    assert run.used + {} == run.used;
    hide Delivery.Paired;
    Delivery.StepStaysPaired(run, Delivery.Send(Delivery.Alice, text, ad));
  }

  /** With nothing missing before it, the last message opens. */
  lemma ReadsOn(run: Delivery.Run, k: nat, drawn: PrivId)
    requires Delivery.Paired(run) && k < |run.alice.log| && k !in run.bob.received && drawn !in run.used
    requires Delivery.Undelivered(run.bob.received, k) == 0
    ensures var m := run.alice.log[k]; Decrypted(run.bob.st, drawn, m.msg, m.ad).1 == Success(m.plaintext)
  {
    hide Decrypted, Delivery.Genuine, Delivery.Leads;
    Delivery.DeliversPaired(run.alice, run.bob, run.used, k, drawn);
  }

  lemma StartTalks(sk: Key, a: PrivId, b: PrivId)
    requires a != b
    ensures Talking(Delivery.Handshaken(sk, a, b))
  {
    Delivery.HandshakePairs(sk, a, b);
  }

  /** The first payload one node makes for another is what the other needs: from its fields alone the reader
      derives the secret and opens the text, and the two sessions are then the ends of one honest run. */
  lemma FirstPayloadOpens(a: Peer, spkA: PrivId, b: Peer, spkB: PrivId, dkB: nat, otpksB: map<int, PrivId>, otpk: Option<OtpkBundle>,
                          ek: Option<EncodedEk>, d: Draws, text: bytes, drawn: PrivId) returns (run: Delivery.Run)
    requires Published(spkB, dkB, otpksB, otpk, ek) && d.ratchet != spkB && drawn !in {d.ratchet, spkB}
    ensures var (st, p) := SendsOne(a, spkA, b, Some(Prekeys(Pub(spkB), otpk, ek)), d, None, text);
            && p.eph.Some? && run.alice.st == st
            && Answered(spkB, dkB, otpksB, Pub(spkA), Hello(p.eph.value, p.otpkId, p.kemCt), drawn, p.msg, Signing.RatchetAd(a, b)) ==
                 Some((run.bob.st, text))
    ensures Talking(run) && run.used == {d.ratchet, spkB, drawn} && |run.alice.log| == 1
  {
    EndsAgree(spkA, spkB, dkB, otpksB, otpk, ek, d);
    var (hello, session) := BuildHello(spkA, Pub(spkB), otpk, ek, d);
    var sk := ResponderSecret(spkB, dkB, otpksB, Pub(spkA), hello).value;
    var start := Delivery.Handshaken(sk, d.ratchet, spkB);
    StartTalks(sk, d.ratchet, spkB);
    assert start.alice.st == session && start.bob.st == NewResponder(sk, spkB) && start.alice.st.ns == 0 && start.alice.log == [];
    hide Encrypted, Decrypted, BuildHello, ResponderSecret, NewInitiator, NewResponder, Signing.RatchetAd;
    run := TalkOn(start, text, Signing.RatchetAd(a, b), drawn);
  }

  // ----- texts that were held -----

  /** The texts as they stand in an inbox. */
  function Entries(peer: Peer, texts: seq<bytes>): seq<(Peer, byte, bytes)> {
    seq(|texts|, i requires 0 <= i < |texts| => (peer, KIND_TEXT, texts[i]))
  }

  /** A reader draws keys of its own, each once. */
  ghost predicate FreshDraws(draw: nat -> PrivId, used: set<PrivId>) {
    (forall i: nat :: draw(i) !in used) && forall i: nat, j: nat | i != j :: draw(i) != draw(j)
  }

  ghost predicate Drawn(used: set<PrivId>, before: set<PrivId>, draw: nat -> PrivId, n: nat) {
    forall x | x in used :: x in before || exists i: nat :: i < n && x == draw(i)
  }

  /** One text more, under the session there is, is one entry more. */
  lemma NextPayloadOpens(a: Peer, spkA: PrivId, own: Own, keys: Option<Prekeys>, d: Draws, prekey: Pub, desk: Desk, run: Delivery.Run, text: bytes,
                         drawn: PrivId) returns (next: Delivery.Run)
    requires Talking(run) && run.alice.st.ns + 1 < U32_LIMIT && drawn !in run.used && desk.Session() == Some(run.bob.st)
    ensures Talking(next) && next.used == run.used + {drawn} && |next.alice.log| == |run.alice.log| + 1
    ensures var (st, p) := SendsOne(a, spkA, own.me, keys, d, Some(run.alice.st), text);
            && st == next.alice.st
            && Taken(own, a, prekey, desk, p, drawn) ==
                 Desk(Some(next.bob.st), Some(next.bob.st), desk.otpks, desk.inbox + [(a, KIND_TEXT, text)])
  {
    hide Encrypted, Decrypted, Signing.RatchetAd;
    next := TalkOn(run, text, Signing.RatchetAd(a, own.me), drawn);
  }

  /** The first text, with its hello, is the first entry, and the one-time prekey it names is gone. */
  lemma FirstPayloadTaken(a: Peer, spkA: PrivId, own: Own, otpk: Option<OtpkBundle>, ek: Option<EncodedEk>, d: Draws, desk: Desk, text: bytes,
                          drawn: PrivId) returns (run: Delivery.Run)
    requires Published(own.spk, own.dk, desk.otpks, otpk, ek) && d.ratchet != own.spk && drawn !in {d.ratchet, own.spk}
    requires desk.Session().None?
    ensures Talking(run) && run.used == {d.ratchet, own.spk, drawn} && |run.alice.log| == 1
    ensures var (st, p) := SendsOne(a, spkA, own.me, Some(Prekeys(Pub(own.spk), otpk, ek)), d, None, text);
            && st == run.alice.st
            && Taken(own, a, Pub(spkA), desk, p, drawn) ==
                 Desk(Some(run.bob.st), Some(run.bob.st), if otpk.Some? then desk.otpks - {otpk.value.id} else desk.otpks,
                      desk.inbox + [(a, KIND_TEXT, text)])
  {
    run := FirstPayloadOpens(a, spkA, own.me, own.spk, own.dk, desk.otpks, otpk, ek, d, text, drawn);
    HelloNames(a, spkA, own.me, Prekeys(Pub(own.spk), otpk, ek), d, text);
    hide Encrypted, Decrypted, Signing.RatchetAd, Answered, BuildHello, SendsOne;
  }

  lemma HelloNames(me: Peer, spk: PrivId, peer: Peer, keys: Prekeys, d: Draws, text: bytes)
    ensures var p := SendsOne(me, spk, peer, Some(keys), d, None, text).1;
            p.otpkId == if keys.otpk.Some? then Some(keys.otpk.value.id) else None
  {
  }

  /** All `texts`, written to a node with this desk before anything was heard from it and taken in there in
      order, are in the inbox as they were written, and the two sessions are the ends of `run`. */
  ghost predicate Conversed(a: Peer, spkA: PrivId, own: Own, otpk: Option<OtpkBundle>, ek: Option<EncodedEk>, d: Draws, desk: Desk,
                            texts: seq<bytes>, draw: nat -> PrivId, run: Delivery.Run) {
    var (st, payloads) := SendsAll(a, spkA, own.me, Some(Prekeys(Pub(own.spk), otpk, ek)), d, None, texts);
    && st == Some(run.alice.st)
    && TakenAll(own, a, Pub(spkA), desk, payloads, draw) ==
         Desk(Some(run.bob.st), Some(run.bob.st), if otpk.Some? then desk.otpks - {otpk.value.id} else desk.otpks,
              desk.inbox + Entries(a, texts))
    && Talking(run) && |run.alice.log| == |texts| && Drawn(run.used, {d.ratchet, own.spk}, draw, |texts|)
  }

  lemma FirstConversed(a: Peer, spkA: PrivId, own: Own, otpk: Option<OtpkBundle>, ek: Option<EncodedEk>, d: Draws, desk: Desk,
                       text: bytes, draw: nat -> PrivId) returns (run: Delivery.Run)
    requires Published(own.spk, own.dk, desk.otpks, otpk, ek) && d.ratchet != own.spk && draw(0) !in {d.ratchet, own.spk}
    requires desk.Session().None?
    ensures Conversed(a, spkA, own, otpk, ek, d, desk, [text], draw, run)
  {
    var keys := Some(Prekeys(Pub(own.spk), otpk, ek));
    hide SendsOne, SendsAll, Taken, TakenAll, Talking, Drawn, Entries, Published;
    SendsLast(a, spkA, own.me, keys, d, None, [], text);
    NothingSent(a, spkA, own, keys, d, desk, draw);
    TakenLast(own, a, Pub(spkA), desk, [], SendsOne(a, spkA, own.me, keys, d, None, text).1, draw);
    run := FirstPayloadTaken(a, spkA, own, otpk, ek, d, desk, text, draw(0));
    OneDrawn({d.ratchet, own.spk}, draw);
    OneEntry(a, text);
    var p := SendsOne(a, spkA, own.me, keys, d, None, text).1;
    assert [] + [text] == [text] && [] + [p] == [p];
    assert run.used == {d.ratchet, own.spk} + {draw(0)};
  }

  lemma NextConversed(a: Peer, spkA: PrivId, own: Own, otpk: Option<OtpkBundle>, ek: Option<EncodedEk>, d: Draws, desk: Desk,
                      texts: seq<bytes>, text: bytes, draw: nat -> PrivId, before: Delivery.Run) returns (run: Delivery.Run)
    requires Conversed(a, spkA, own, otpk, ek, d, desk, texts, draw, before) && |texts| + 1 < U32_LIMIT
    requires FreshDraws(draw, {d.ratchet, own.spk})
    ensures Conversed(a, spkA, own, otpk, ek, d, desk, texts + [text], draw, run)
  {
    hide SendsOne, SendsAll, Taken, TakenAll, Talking, Drawn, FreshDraws, Entries;
    var keys, n := Some(Prekeys(Pub(own.spk), otpk, ek)), |texts|;
    var (st, payloads) := SendsAll(a, spkA, own.me, keys, d, None, texts);
    var sofar := TakenAll(own, a, Pub(spkA), desk, payloads, draw);
    NotDrawnYet(before.used, {d.ratchet, own.spk}, draw, n);
    TalkingCounts(before);
    run := NextPayloadOpens(a, spkA, own, keys, d, Pub(spkA), sofar, before, text, draw(n));
    SendsLast(a, spkA, own.me, keys, d, None, texts, text);
    TakenLast(own, a, Pub(spkA), desk, payloads, SendsOne(a, spkA, own.me, keys, d, st, text).1, draw);
    DrawnGrows(before.used, {d.ratchet, own.spk}, draw, n);
    EntryAppends(a, texts, text);
    assert desk.inbox + Entries(a, texts) + [(a, KIND_TEXT, text)] == desk.inbox + Entries(a, texts + [text]);
  }

  /** End to end, for any number of texts. All that one node writes to another before it hears from it, taken in
      by the other in order once it knows the writer's prekey, comes out as it was written. */
  lemma {:induction false} HeldTextsOpen(a: Peer, spkA: PrivId, own: Own, otpk: Option<OtpkBundle>, ek: Option<EncodedEk>, d: Draws,
                                         desk: Desk, texts: seq<bytes>, draw: nat -> PrivId) returns (run: Delivery.Run)
    requires Published(own.spk, own.dk, desk.otpks, otpk, ek) && d.ratchet != own.spk && FreshDraws(draw, {d.ratchet, own.spk})
    requires desk.Session().None? && 0 < |texts| < U32_LIMIT
    ensures Conversed(a, spkA, own, otpk, ek, d, desk, texts, draw, run)
  {
    var n := |texts| - 1;
    assert texts == texts[..n] + [texts[n]];
    hide Conversed, Published, FreshDraws;
    if n == 0 {
      DrawIsNew(draw, {d.ratchet, own.spk}, 0);
      assert texts == [texts[0]];
      run := FirstConversed(a, spkA, own, otpk, ek, d, desk, texts[0], draw);
    } else {
      var before := HeldTextsOpen(a, spkA, own, otpk, ek, d, desk, texts[..n], draw);
      run := NextConversed(a, spkA, own, otpk, ek, d, desk, texts[..n], texts[n], draw, before);
    }
  }

  lemma SendsLast(me: Peer, spk: PrivId, peer: Peer, keys: Option<Prekeys>, d: Draws, session: Option<State>, front: seq<bytes>, text: bytes)
    requires if session.Some? then session.value.cks.Some? else keys.Some?
    ensures var (before, payloads) := SendsAll(me, spk, peer, keys, d, session, front);
            var (st, p) := SendsOne(me, spk, peer, keys, d, before, text);
            SendsAll(me, spk, peer, keys, d, session, front + [text]) == (Some(st), payloads + [p])
  {
    assert (front + [text])[..|front|] == front;
  }

  lemma TakenLast(own: Own, peer: Peer, prekey: Pub, desk: Desk, front: seq<Payload>, p: Payload, draw: nat -> PrivId)
    ensures TakenAll(own, peer, prekey, desk, front + [p], draw) ==
              Taken(own, peer, prekey, TakenAll(own, peer, prekey, desk, front, draw), p, draw(|front|))
  {
    assert (front + [p])[..|front|] == front;
  }

  lemma NothingSent(me: Peer, spk: PrivId, own: Own, keys: Option<Prekeys>, d: Draws, desk: Desk, draw: nat -> PrivId)
    ensures SendsAll(me, spk, own.me, keys, d, None, []) == (None, []) && TakenAll(own, me, Pub(spk), desk, [], draw) == desk
  {
  }

  lemma OneEntry(peer: Peer, text: bytes)
    ensures Entries(peer, [text]) == [(peer, KIND_TEXT, text)]
  {
  }

  lemma EntryAppends(peer: Peer, front: seq<bytes>, text: bytes)
    ensures Entries(peer, front + [text]) == Entries(peer, front) + [(peer, KIND_TEXT, text)]
  {
  }

  lemma OneDrawn(before: set<PrivId>, draw: nat -> PrivId)
    ensures Drawn(before + {draw(0)}, before, draw, 1)
  {
  }

  lemma DrawIsNew(draw: nat -> PrivId, used: set<PrivId>, n: nat)
    requires FreshDraws(draw, used)
    ensures draw(n) !in used
  {
  }

  lemma TalkingCounts(run: Delivery.Run)
    requires Talking(run)
    ensures run.alice.st.ns == |run.alice.log| && run.alice.st.cks.Some?
  {
  }

  lemma NotDrawnYet(used: set<PrivId>, before: set<PrivId>, draw: nat -> PrivId, n: nat)
    requires FreshDraws(draw, before) && Drawn(used, before, draw, n)
    ensures draw(n) !in used
  {
  }

  lemma DrawnGrows(used: set<PrivId>, before: set<PrivId>, draw: nat -> PrivId, n: nat)
    requires Drawn(used, before, draw, n)
    ensures Drawn(used + {draw(n)}, before, draw, n + 1)
  {
    forall x | x in used + {draw(n)} && x !in before ensures exists i: nat :: i < n + 1 && x == draw(i) {
      if x == draw(n) {
        assert n < n + 1 && x == draw(n);
      } else {
        var i: nat :| i < n && x == draw(i);
        assert i < n + 1;
      }
    }
  }

  // ----- what taking in does, whatever arrives -----

  /** A payload either adds one entry to the inbox, and then both sessions are the new one; or it adds none, and
      then what is stored, the one-time prekeys and, without a session, everything stays as it was. A first
      message adds its text exactly when it can be answered; under a session the hello counts for nothing. */
  lemma TakingAddsOneOrNone(own: Own, peer: Peer, prekey: Pub, desk: Desk, p: Payload, drawn: PrivId)
    ensures var after := Taken(own, peer, prekey, desk, p, drawn);
            var ad := Signing.RatchetAd(peer, own.me);
            if after.inbox == desk.inbox then
              && after.stored == desk.stored && after.otpks == desk.otpks && (desk.Session().None? ==> after == desk)
              && (desk.Session().Some? ==> after.memory == Some(Decrypted(desk.Session().value, drawn, p.msg, ad).0))
            else
              && |after.inbox| == |desk.inbox| + 1 && after.inbox[..|desk.inbox|] == desk.inbox
              && p.msg.ciphertext.Sealed? && after.inbox[|desk.inbox|] == (peer, p.kind, p.msg.ciphertext.plaintext)
              && p.msg.ciphertext.aad == Aad(ad, p.msg.header) && after.memory.Some? && after.stored == after.memory
    ensures desk.Session().None? ==>
              (Taken(own, peer, prekey, desk, p, drawn).inbox != desk.inbox <==>
                 p.eph.Some? &&
                 Answered(own.spk, own.dk, desk.otpks, prekey, Hello(p.eph.value, p.otpkId, p.kemCt), drawn, p.msg,
                          Signing.RatchetAd(peer, own.me)).Some?)
    ensures forall eph, otpkId, kemCt | desk.Session().Some? ::
              Taken(own, peer, prekey, desk, p.(eph := eph, otpkId := otpkId, kemCt := kemCt), drawn) == Taken(own, peer, prekey, desk, p, drawn)
  {
    hide Signing.RatchetAd, ResponderSecret;
    var after := Taken(own, peer, prekey, desk, p, drawn);
    assert |after.inbox| > |desk.inbox| ==> after.inbox[..|desk.inbox|] == desk.inbox;
  }
}
