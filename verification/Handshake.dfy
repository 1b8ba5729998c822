// Starting a session: the initiator's hello, the responder's branch on what it finds in the first
// payload, and why the two ends agree exactly when nothing was altered on the way.
module Handshake {
  import opened Wrappers
  import opened Words
  import opened Symbolic
  import opened RatchetSpec
  import opened X3dh
  import Delivery

  const ML_KEM_EK_LEN := 1184
  const ML_KEM_CT_LEN := 1088

  /** Encoded ML-KEM values as they travel: a byte length and, for one of the right length, a meaning. */
  datatype EncodedEk = EncodedEk(len: nat, ek: nat)
  datatype EncodedCt = EncodedCt(len: nat, ct: KemCt)

  function PqEncapsulate(ek: EncodedEk, coins: nat): Option<(EncodedCt, KemSecret)> {
    if ek.len != ML_KEM_EK_LEN then None
    else Some((EncodedCt(ML_KEM_CT_LEN, KemCt(ek.ek, coins)), Encapsulated(ek.ek, coins)))
  }

  function PqDecapsulate(dk: nat, ct: EncodedCt): Option<KemSecret> {
    if ct.len != ML_KEM_CT_LEN then None else Some(Decapsulate(dk, ct.ct))
  }

  datatype OtpkBundle = OtpkBundle(id: int, pub: Pub)

  /** The handshake part of a first message. */
  datatype Hello = Hello(eph: Pub, otpkId: Option<int>, kemCt: Option<EncodedCt>)

  /** What the initiator draws: the X3DH ephemeral, the KEM coins, the first ratchet key. */
  datatype Draws = Draws(eph: PrivId, coins: nat, ratchet: PrivId)

  function InitiatorSecret(me: PrivId, spk: Pub, otpk: Option<OtpkBundle>, pq: Option<KemSecret>, eph: PrivId): (Pub,
                        Key) {
    match (otpk, pq)
    case (Some(o), Some(ss)) => InitiatorDeriveWithOtpkHybrid(me, spk, o.pub, ss, eph)
    case (Some(o), None) => InitiatorDeriveWithOtpk(me, spk, o.pub, eph)
    case (None, Some(ss)) => InitiatorDeriveHybrid(me, spk, ss, eph)
    case (None, None) => InitiatorDerive(me, spk, eph)
  }

  /** A KEM key that does not encapsulate downgrades the session to the classical variant. */
  function BuildHello(me: PrivId, spk: Pub, otpk: Option<OtpkBundle>, ek: Option<EncodedEk>, d: Draws): (Hello, State) {
    var pair := if ek.Some? then PqEncapsulate(ek.value, d.coins) else None;
    var pq := if pair.Some? then Some(pair.value.1) else None;
    var (eph, sk) := InitiatorSecret(me, spk, otpk, pq, d.eph);
    (Hello(eph,
           if otpk.Some? then Some(otpk.value.id) else None,
           if pair.Some? then Some(pair.value.0) else None),
     NewInitiator(sk, spk, d.ratchet))
  }

  datatype BootstrapError = DecapsulationFailed | OtpkNotFound

  /** `otpks` maps each id whose private half still loads to that half. A hello that names a one-time
      prekey never falls back to the two-DH variant. */
  function ResponderSecret(spk: PrivId, dk: nat, otpks: map<int, PrivId>, initiator: Pub, hello: Hello)
    : Result<Key, BootstrapError>
  {
    var pq := if hello.kemCt.Some? then PqDecapsulate(dk, hello.kemCt.value) else None;
    if hello.kemCt.Some? && pq.None? then Failure(DecapsulationFailed)
    else match (hello.otpkId, pq)
      case (Some(id), _) =>
        if id !in otpks then Failure(OtpkNotFound)
        else if pq.Some? then Success(ResponderDeriveWithOtpkHybrid(spk, otpks[id], hello.eph, initiator, pq.value))
        else Success(ResponderDeriveWithOtpk(spk, otpks[id], hello.eph, initiator))
      case (None, Some(ss)) => Success(ResponderDeriveHybrid(spk, hello.eph, initiator, ss))
      case (None, None) => Success(ResponderDerive(spk, hello.eph, initiator))
  }

  // ----- agreement -----

  /** The responder's published keys: every bundle names a stored private half. */
  predicate Published(spk: PrivId, dk: nat, otpks: map<int, PrivId>, otpk: Option<OtpkBundle>, ek: Option<EncodedEk>) {
    && (otpk.Some? ==> otpk.value.id in otpks && otpk.value.pub == Pub(otpks[otpk.value.id]))
    && (ek.Some? ==> ek.value.ek == dk)
  }

  /** In all four variants the responder, given the hello, ends up with the initiator's secret: the two
      sessions are the two ends of one handshake. */
  lemma EndsAgree(me: PrivId, spk: PrivId, dk: nat, otpks: map<int, PrivId>, otpk: Option<OtpkBundle>,
                  ek: Option<EncodedEk>, d: Draws)
    requires Published(spk, dk, otpks, otpk, ek)
    ensures var (hello, session) := BuildHello(me, Pub(spk), otpk, ek, d);
            var sk := ResponderSecret(spk, dk, otpks, Pub(me), hello);
            sk.Success? &&
            Delivery.Handshaken(sk.value, d.ratchet, spk).alice.st == session &&
            Delivery.Handshaken(sk.value, d.ratchet, spk).bob.st == NewResponder(sk.value, spk)
  {
    DiffieHellmanAgrees(d.eph, spk, spk, d.eph);
    DiffieHellmanAgrees(me, spk, spk, me);
    if otpk.Some? {
      DiffieHellmanAgrees(d.eph, otpks[otpk.value.id], otpks[otpk.value.id], d.eph);
    }
  }

  /** End to end: the first message after the handshake opens to what was sent. */
  lemma FirstMessageOpens(me: PrivId, spk: PrivId, dk: nat, otpks: map<int, PrivId>, otpk: Option<OtpkBundle>,
                        ek: Option<EncodedEk>,
                          d: Draws, plaintext: bytes, ad: bytes, drawn: PrivId)
    requires Published(spk, dk, otpks, otpk, ek)
    requires d.ratchet != spk && drawn !in {d.ratchet, spk}
    ensures var (hello, session) := BuildHello(me, Pub(spk), otpk, ek, d);
            var sk := ResponderSecret(spk, dk, otpks, Pub(me), hello);
            var sent := Encrypted(session, plaintext, ad).1;
            sk.Success? && sent.Success? &&
            Decrypted(NewResponder(sk.value, spk), drawn, sent.value, ad).1 == Success(plaintext)
  {
    EndsAgree(me, spk, dk, otpks, otpk, ek, d);
    var (hello, session) := BuildHello(me, Pub(spk), otpk, ek, d);
    var sk := ResponderSecret(spk, dk, otpks, Pub(me), hello).value;
    var start := Delivery.Handshaken(sk, d.ratchet, spk);
    var send := Delivery.Send(Delivery.Alice, plaintext, ad);
    var then_ := Delivery.After(start, send);
    assert Delivery.Possible(then_, []);
    assert Delivery.Possible(start, [send]) && Delivery.AfterAll(start, [send]) == Delivery.AfterAll(then_, []);
    assert then_.used == {d.ratchet, spk};
    Delivery.HonestDelivery(sk, d.ratchet, spk, [send], Delivery.Bob, 0, drawn);
  }

  // ----- the variants never meet -----

  /** Two initiator secrets are equal exactly when they come from the same variant over the same DH
      outputs and the same KEM secret. */
  lemma SecretsDistinct(me: PrivId, spk: Pub, otpk: Option<OtpkBundle>, pq: Option<KemSecret>, eph: PrivId,
                        me': PrivId, spk': Pub, otpk': Option<OtpkBundle>, pq': Option<KemSecret>, eph': PrivId)
    ensures InitiatorSecret(me, spk, otpk, pq, eph).1 == InitiatorSecret(me', spk', otpk', pq', eph').1 <==>
              && otpk.Some? == otpk'.Some? && pq == pq'
              && DiffieHellman(eph, spk) == DiffieHellman(eph', spk')
              && DiffieHellman(me, spk) == DiffieHellman(me', spk')
              && (otpk.Some? && otpk'.Some? ==> DiffieHellman(eph, otpk.value.pub) == DiffieHellman(eph', otpk'.value.pub))
  {
    var sk, sk' := InitiatorSecret(me, spk, otpk, pq, eph).1, InitiatorSecret(me', spk', otpk', pq', eph').1;
    if otpk.Some? != otpk'.Some? || pq.Some? != pq'.Some? {
      InfosDiffer(sk.info, sk'.info);
    } else if sk == sk' {
      assert sk.ikm[0] == sk'.ikm[0] && sk.ikm[1] == sk'.ikm[1];
      if otpk.Some? { assert sk.ikm[2] == sk'.ikm[2]; }
      if pq.Some? { assert sk.ikm[|sk.ikm| - 1] == sk'.ikm[|sk.ikm| - 1]; }
    }
  }

  /** The four info strings have four different lengths. */
  lemma InfosDiffer(s: string, t: string)
    requires s in {X3DH_INFO, X3DH_INFO_OTPK, X3DH_INFO_PQ, X3DH_INFO_OTPK_PQ}
    requires t in {X3DH_INFO, X3DH_INFO_OTPK, X3DH_INFO_PQ, X3DH_INFO_OTPK_PQ}
    ensures s == t <==> |s| == |t|
  {
  }

  /** A responder holding any other secret cannot open the first message, so it keeps no session: the
      message opens if and only if the secrets agree. */
  lemma OnlyTheRightSecretOpens(sk: Key, other: Key, spk: PrivId, ratchet: PrivId, plaintext: bytes, ad: bytes,
                        drawn: PrivId)
    ensures var sent := Encrypted(NewInitiator(sk, Pub(spk), ratchet), plaintext, ad).1;
            sent.Success? &&
            Decrypted(NewResponder(other, spk), drawn, sent.value, ad).1 ==
              if other == sk then Success(plaintext) else Failure(BadAead)
  {
    DiffieHellmanAgrees(ratchet, spk, spk, ratchet);
  }

  /** The hello is bound to the session. Whatever hello reaches the responder (stripped of its one-time
      prekey id or KEM ciphertext, with them added, or otherwise altered), the first message opens if and
      only if it is the hello that was sent. */
  lemma HelloBound(me: PrivId, spk: PrivId, dk: nat, otpks: map<int, PrivId>, otpk: Option<OtpkBundle>,
                   ek: Option<EncodedEk>,
                   d: Draws, arrived: Hello, plaintext: bytes, ad: bytes, drawn: PrivId)
    requires Published(spk, dk, otpks, otpk, ek)
    requires forall i, j | i in otpks && j in otpks && i != j :: otpks[i] != otpks[j]
    ensures var (hello, session) := BuildHello(me, Pub(spk), otpk, ek, d);
            var sk := ResponderSecret(spk, dk, otpks, Pub(me), arrived);
            var sent := Encrypted(session, plaintext, ad).1;
            sent.Success? &&
            ((sk.Success? && Decrypted(NewResponder(sk.value, spk), drawn, sent.value, ad).1 == Success(plaintext))
             <==> arrived == hello)
  {
    EndsAgree(me, spk, dk, otpks, otpk, ek, d);
    var pair := if ek.Some? then PqEncapsulate(ek.value, d.coins) else None;
    var pq := if pair.Some? then Some(pair.value.1) else None;
    var mine := InitiatorSecret(me, Pub(spk), otpk, pq, d.eph).1;
    var theirs := ResponderSecret(spk, dk, otpks, Pub(me), arrived);
    if theirs.Success? {
      OnlyTheRightSecretOpens(mine, theirs.value, spk, d.ratchet, plaintext, ad, drawn);
      if theirs.value == mine {
        InfosDiffer(mine.info, theirs.value.info);
        assert mine.ikm[0] == theirs.value.ikm[0];
        DiffieHellmanAgrees(d.eph, spk, spk, arrived.eph.id);
        if otpk.Some? {
          assert mine.ikm[2] == theirs.value.ikm[2];
          DiffieHellmanAgrees(d.eph, otpk.value.pub.id, otpks[arrived.otpkId.value], arrived.eph.id);
        }
        if pq.Some? {
          assert mine.ikm[|mine.ikm| - 1] == theirs.value.ikm[|mine.ikm| - 1];
        }
      }
    }
  }

  /** Which variant is used, exactly: a KEM ciphertext goes along if and only if there is a KEM key of the right
      length, an id if and only if there is a one-time prekey; and the info string of the secret says which
      of the four it is. */
  lemma VariantUsed(me: PrivId, spk: Pub, otpk: Option<OtpkBundle>, ek: Option<EncodedEk>, d: Draws)
    ensures var (hello, session) := BuildHello(me, spk, otpk, ek, d);
            var hybrid := ek.Some? && ek.value.len == ML_KEM_EK_LEN;
            && (hello.kemCt.Some? <==> hybrid) && (hybrid ==> hello.kemCt.value.len == ML_KEM_CT_LEN)
            && (hello.otpkId.Some? <==> otpk.Some?) && (otpk.Some? ==> hello.otpkId == Some(otpk.value.id))
            && hello.eph == Pub(d.eph) && session.sessionId.SessionId? && session.sessionId.sk.Agreed?
            && session.sessionId.sk.info == (if hybrid then (if otpk.Some? then X3DH_INFO_OTPK_PQ else X3DH_INFO_PQ)
                                             else if otpk.Some? then X3DH_INFO_OTPK else X3DH_INFO)
  {
  }

  /** When a hello leads to no secret, exactly, and why: its KEM ciphertext has the wrong length, or it names a
      one-time prekey that is not there any more. It never falls back to a lesser variant. */
  lemma NoSecretExactly(spk: PrivId, dk: nat, otpks: map<int, PrivId>, initiator: Pub, hello: Hello)
    ensures var r := ResponderSecret(spk, dk, otpks, initiator, hello);
            var garbled := hello.kemCt.Some? && hello.kemCt.value.len != ML_KEM_CT_LEN;
            && (r == Failure(DecapsulationFailed) <==> garbled)
            && (r == Failure(OtpkNotFound) <==> !garbled && hello.otpkId.Some? && hello.otpkId.value !in otpks)
            && (r.Success? ==>
                  && r.value.Agreed?
                  && r.value.info == (if hello.kemCt.Some? then (if hello.otpkId.Some? then X3DH_INFO_OTPK_PQ else X3DH_INFO_PQ)
                                      else if hello.otpkId.Some? then X3DH_INFO_OTPK else X3DH_INFO))
  {
  }
}
