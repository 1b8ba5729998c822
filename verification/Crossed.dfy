// Two nodes that each start a session with the other at the same time. Each then has a session of its own
// and ignores the other's hello, so the two sessions have different secrets.
module Crossed {
  import opened Wrappers
  import opened Words
  import opened Symbolic
  import opened RatchetSpec
  import opened Handshake
  import opened Delivery
  import opened Duplicates
  import opened Repeats

  /** The secret a ratchet key goes back to. */
  function Origin(k: Key): Key {
    match k
    case Root(rk, _) => Origin(rk)
    case Chain(rk, _) => Origin(rk)
    case Next(ck) => Origin(ck)
    case Message(ck) => Origin(ck)
    case _ => k
  }

  /** Every key of the state goes back to `sk`. */
  ghost predicate OfOrigin(st: State, sk: Key) {
    && Origin(st.rk) == sk
    && (st.cks.Some? ==> Origin(st.cks.value) == sk)
    && (st.ckr.Some? ==> Origin(st.ckr.value) == sk)
    && (forall e | e in st.skipped :: Origin(e.mk) == sk)
  }

  lemma {:induction false} AdvanceOrigin(ck: Key, steps: nat)
    ensures Origin(Advance(ck, steps)) == Origin(ck)
  {
    if steps > 0 {
      AdvanceOrigin(ck, steps - 1);
    }
  }

  lemma SkippedKeepsOrigin(st: State, until: u32, sk: Key)
    requires OfOrigin(st, sk)
    ensures var s := Skipped(st, until); s.Success? ==> OfOrigin(s.value, sk)
  {
    if st.ckr.Some? && st.dhr.Some? {
      var count := SaturatingSub(until, st.nr);
      AdvanceOrigin(st.ckr.value, count);
      forall e | e in SkippedRun(st.dhr.value, st.ckr.value, st.nr, count) ensures Origin(e.mk) == sk {
        var run := SkippedRun(st.dhr.value, st.ckr.value, st.nr, count);
        var i :| 0 <= i < |run| && run[i] == e;
        AdvanceOrigin(st.ckr.value, i);
      }
    }
  }

  lemma OpenedKeepsOrigin(st: State, msg: RatchetMessage, ad: bytes, sk: Key)
    requires OfOrigin(st, sk)
    ensures var (after, r) := Opened(st, msg, ad);
            OfOrigin(after, sk) && (r.Success? ==> msg.ciphertext.Sealed? && Origin(msg.ciphertext.key) == sk)
  {
    SkippedKeepsOrigin(st, msg.header.n, sk);
  }

  lemma SteppedKeepsOrigin(st: State, incoming: Pub, drawn: PrivId, sk: Key)
    requires OfOrigin(st, sk)
    ensures OfOrigin(Stepped(st, incoming, drawn), sk)
  {
    assert Origin(Root(st.rk, DiffieHellman(st.dhs, incoming))) == sk;
  }

  /** Whatever arrives, a session keeps to its secret, and opens only what was sealed under it. */
  lemma ReceivingKeepsOrigin(st: State, drawn: PrivId, msg: RatchetMessage, ad: bytes, sk: Key)
    requires OfOrigin(st, sk)
    ensures var (after, r) := Decrypted(st, drawn, msg, ad);
            OfOrigin(after, sk) && (r.Success? ==> msg.ciphertext.Sealed? && Origin(msg.ciphertext.key) == sk)
  {
    var (tried, hit) := TriedSkipped(st, msg, ad);
    assert OfOrigin(tried, sk);
    if hit.None? {
      OpenedKeepsOrigin(tried, msg, ad, sk);
      SkippedKeepsOrigin(tried, msg.header.pn, sk);
      var s := Skipped(tried, msg.header.pn);
      if s.Success? {
        SteppedKeepsOrigin(s.value, msg.header.dh, drawn, sk);
        OpenedKeepsOrigin(Stepped(s.value, msg.header.dh, drawn), msg, ad, sk);
      }
    }
  }

  // ----- two sessions with different secrets -----

  ghost predicate SideOf(side: Side, sk: Key) {
    && OfOrigin(side.st, sk) && side.received == {}
    && forall m | m in side.log :: m.msg.ciphertext.Sealed? && Origin(m.msg.ciphertext.key) == sk
  }

  ghost predicate Strangers(run: Run, skA: Key, skB: Key) {
    SideOf(run.alice, skA) && SideOf(run.bob, skB)
  }

  lemma SendStaysOf(q: Side, plaintext: bytes, ad: bytes, sk: Key)
    requires SideOf(q, sk) && q.st.cks.Some? && q.st.ns + 1 < U32_LIMIT
    ensures SideOf(SentOn(q, plaintext, ad), sk)
  {
  }

  lemma DeliverStaysOf(q: Side, p: Side, other: Key, sk: Key, k: nat, drawn: PrivId)
    requires SideOf(q, other) && SideOf(p, sk) && other != sk && k < |q.log|
    ensures SideOf(Received(q, p, k, drawn), sk)
    ensures Decrypted(p.st, drawn, q.log[k].msg, q.log[k].ad).1.Failure?
  {
    assert q.log[k] in q.log;
    ReceivingKeepsOrigin(p.st, drawn, q.log[k].msg, q.log[k].ad, sk);
  }

  lemma StepStaysStrange(run: Run, e: Event, skA: Key, skB: Key)
    requires Strangers(run, skA, skB) && skA != skB && CanHappen(run, e)
    ensures Strangers(Moved(run, e), skA, skB)
  {
    hide Decrypted, Encrypted;
    match e
    case Send(who, plaintext, ad) =>
      if run.Local(who).st.cks.Some? {
        SendStaysOf(run.Local(who), plaintext, ad, if who.Alice? then skA else skB);
      }
    case Deliver(who, index, drawn) =>
      if who.Alice? {
        DeliverStaysOf(run.bob, run.alice, skB, skA, index, drawn);
      } else {
        DeliverStaysOf(run.alice, run.bob, skA, skB, index, drawn);
      }
  }

  lemma {:induction false} RunStaysStrange(run: Run, events: seq<Event>, skA: Key, skB: Key)
    requires Strangers(run, skA, skB) && skA != skB && Feasible(run, events)
    ensures Strangers(Through(run, events), skA, skB)
    decreases |events|
  {
    hide Strangers, Moved, CanHappen;
    if events != [] {
      StepStaysStrange(run, events[0], skA, skB);
      RunStaysStrange(Moved(run, events[0]), events[1..], skA, skB);
    }
  }

  // ----- starting at once -----

  /** The secrets of two crossed starts differ, whatever prekeys either uses: at least the ephemerals do. */
  lemma CrossedSecretsDiffer(a: PrivId, b: PrivId, otpkA: Option<OtpkBundle>, pqA: Option<KemSecret>, ephA: PrivId,
                        otpkB: Option<OtpkBundle>, pqB: Option<KemSecret>, ephB: PrivId)
    requires ephA !in {ephB, a}
    ensures InitiatorSecret(a, Pub(b), otpkA, pqA, ephA).1 != InitiatorSecret(b, Pub(a), otpkB, pqB, ephB).1
  {
    SecretsDistinct(a, Pub(b), otpkA, pqA, ephA, b, Pub(a), otpkB, pqB, ephB);
    DiffieHellmanAgrees(ephA, b, ephB, a);
    assert ephA in {ephA, b} && (ephA !in {ephB, a} ==> {ephA, b} != {ephB, a});
  }

  /** The two sessions, each made by its own node's hello. */
  function CrossedStart(a: PrivId, b: PrivId, otpkA: Option<OtpkBundle>, ekA: Option<EncodedEk>, drawsA: Draws,
                        otpkB: Option<OtpkBundle>, ekB: Option<EncodedEk>, drawsB: Draws): Run {
    Run(Side(BuildHello(a, Pub(b), otpkA, ekA, drawsA).1, [], {}), Side(BuildHello(b, Pub(a), otpkB, ekB, drawsB).1, [], {}),
        {a, b, drawsA.eph, drawsA.ratchet, drawsB.eph, drawsB.ratchet})
  }

  /** Crossed starts never meet. In every run from there, over any delivery, loss, order and repetition, no
      message that either side ever sends opens at the other. */
  lemma CrossedStartsNeverMeet(a: PrivId, b: PrivId, otpkA: Option<OtpkBundle>, ekA: Option<EncodedEk>, drawsA: Draws,
                        otpkB: Option<OtpkBundle>, ekB: Option<EncodedEk>, drawsB: Draws, events: seq<Event>,
                        who: Who, index: nat, drawn: PrivId)
    requires drawsA.eph !in {drawsB.eph, a}
    requires var start := CrossedStart(a, b, otpkA, ekA, drawsA, otpkB, ekB, drawsB);
             Feasible(start, events) && index < |Through(start, events).Remote(who).log|
    ensures var run := Through(CrossedStart(a, b, otpkA, ekA, drawsA, otpkB, ekB, drawsB), events);
            Delivered(run, who, index, drawn).1.Failure? && run.alice.received == {} && run.bob.received == {}
  {
    var start := CrossedStart(a, b, otpkA, ekA, drawsA, otpkB, ekB, drawsB);
    var pairA := if ekA.Some? then PqEncapsulate(ekA.value, drawsA.coins) else None;
    var pairB := if ekB.Some? then PqEncapsulate(ekB.value, drawsB.coins) else None;
    var pqA, pqB := if pairA.Some? then Some(pairA.value.1) else None, if pairB.Some? then Some(pairB.value.1) else None;
    var skA, skB := InitiatorSecret(a, Pub(b), otpkA, pqA, drawsA.eph).1, InitiatorSecret(b, Pub(a), otpkB, pqB, drawsB.eph).1;
    CrossedSecretsDiffer(a, b, otpkA, pqA, drawsA.eph, otpkB, pqB, drawsB.eph);
    InitiatorOrigin(skA, Pub(b), drawsA.ratchet);
    InitiatorOrigin(skB, Pub(a), drawsB.ratchet);
    RunStaysStrange(start, events, skA, skB);
    var run := Through(start, events);
    hide Decrypted, InitiatorSecret, BuildHello;
    if who.Alice? {
      DeliverStaysOf(run.bob, run.alice, skB, skA, index, drawn);
    } else {
      DeliverStaysOf(run.alice, run.bob, skA, skB, index, drawn);
    }
  }

  lemma InitiatorOrigin(sk: Key, theirs: Pub, drawn: PrivId)
    requires sk.Agreed?
    ensures OfOrigin(NewInitiator(sk, theirs, drawn), sk)
  {
  }

  /** The first message of one side at the other: it does not open, and it is taken for a DH step, so it
      leaves a session that is not the one before. */
  lemma CrossedHelloDoesDamage(skA: Key, skB: Key, a: PrivId, b: PrivId, ratchetA: PrivId, ratchetB: PrivId, text: bytes, ad: bytes,
                        drawn: PrivId)
    requires skA.Agreed? && skB.Agreed? && skA != skB && ratchetB != b && drawn != ratchetA
    ensures var session := NewInitiator(skA, Pub(b), ratchetA);
            var sent := Encrypted(NewInitiator(skB, Pub(a), ratchetB), text, ad).1;
            sent.Success? &&
            var (after, r) := Decrypted(session, drawn, sent.value, ad);
            r == Failure(BadAead) && after != session && after.dhs == drawn && after.dhr == Some(Pub(ratchetB))
  {
    var session := NewInitiator(skA, Pub(b), ratchetA);
    var sent := Encrypted(NewInitiator(skB, Pub(a), ratchetB), text, ad).1.value;
    TakesFirst(session, drawn, sent, ad);
    InitiatorOrigin(skA, Pub(b), ratchetA);
    var chain := Chain(skB, DiffieHellman(ratchetB, Pub(a)));
    assert Origin(chain) == Origin(skB) == skB && sent.ciphertext.key == Message(chain);
    assert Origin(Message(chain)) == skB;
    assert Origin(Message(Chain(session.rk, DiffieHellman(session.dhs, sent.header.dh)))) == Origin(session.rk) == skA;
  }
}
