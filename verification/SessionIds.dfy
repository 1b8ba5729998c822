// The session id. Both ends derive it from the shared secret, it outlives every step of the ratchet, and it
// is none of the session's keys: so it can address the mailbox without giving anything away.
module SessionIds {
  import opened Wrappers
  import opened Words
  import opened Symbolic
  import opened RatchetSpec
  import opened Delivery
  import opened Handshake
  import Repeats
  import OneShot

  predicate OfChain(ck: Option<Key>) {
    ck.Some? ==> Base(ck.value).Chain?
  }

  /** The id is that of the secret; every key the session holds is the secret or was derived by the ratchet. */
  ghost predicate Named(st: State, sk: Key) {
    && st.sessionId == SessionId(sk) && (st.rk == sk || st.rk.Root?)
    && OfChain(st.cks) && OfChain(st.ckr) && forall e | e in st.skipped :: e.mk.Message?
  }

  /** So the id is in no case the secret, or a root, chain or message key of the session. */
  lemma IdIsNoKey(st: State, sk: Key)
    requires Named(st, sk)
    ensures st.sessionId != sk && st.sessionId != st.rk && st.cks != Some(st.sessionId) && st.ckr != Some(st.sessionId)
    ensures forall e | e in st.skipped :: e.mk != st.sessionId
  {
    IdIsBigger(sk);
  }

  lemma {:induction false} IdIsBigger(sk: Key)
    ensures SessionId(sk) != sk
  {
    if sk.SessionId? {
      IdIsBigger(sk.sk);
    }
  }

  // ----- any message at all -----

  lemma SendingKeepsId(st: State, plaintext: bytes, ad: bytes, sk: Key)
    requires Named(st, sk)
    ensures Named(Encrypted(st, plaintext, ad).0, sk)
  {
  }

  lemma SkippedStaysNamed(st: State, until: u32, sk: Key)
    requires Named(st, sk)
    ensures var s := Skipped(st, until); s.Success? ==> Named(s.value, sk)
  {
    if st.ckr.Some? {
      AdvanceDeepens(st.ckr.value, SaturatingSub(until, st.nr));
    }
  }

  lemma OpenedStaysNamed(st: State, msg: RatchetMessage, ad: bytes, sk: Key)
    requires Named(st, sk)
    ensures Named(Opened(st, msg, ad).0, sk)
  {
    SkippedStaysNamed(st, msg.header.n, sk);
  }

  /** Whatever arrives, opened or not. */
  lemma ReceivingKeepsId(st: State, drawn: PrivId, msg: RatchetMessage, ad: bytes, sk: Key)
    requires Named(st, sk)
    ensures Named(Decrypted(st, drawn, msg, ad).0, sk)
  {
    var tried := TriedSkipped(st, msg, ad).0;
    OpenedStaysNamed(tried, msg, ad, sk);
    SkippedStaysNamed(tried, msg.header.pn, sk);
    var s := Skipped(tried, msg.header.pn);
    if s.Success? {
      OpenedStaysNamed(Stepped(s.value, msg.header.dh, drawn), msg, ad, sk);
    }
  }

  // ----- over runs -----

  ghost predicate BothNamed(alice: State, bob: State, sk: Key) {
    Named(alice, sk) && Named(bob, sk)
  }

  lemma StartNamed(sk: Key, a: PrivId, b: PrivId)
    ensures BothNamed(NewInitiator(sk, Pub(b), a), NewResponder(sk, b), sk)
  {
  }

  /** Two peers and a network that loses, reorders and repeats. */
  lemma {:induction false} RepeatsKeepId(run: Run, events: seq<Event>, sk: Key)
    requires BothNamed(run.alice.st, run.bob.st, sk) && Repeats.Feasible(run, events)
    ensures var end := Repeats.Through(run, events); BothNamed(end.alice.st, end.bob.st, sk)
    decreases |events|
  {
    hide Named, Decrypted, Encrypted;
    if events != [] {
      var e := events[0];
      match e {
        case Send(who, plaintext, ad) => SendingKeepsId(run.Local(who).st, plaintext, ad, sk);
        case Deliver(who, index, drawn) =>
          var m := run.Remote(who).log[index];
          ReceivingKeepsId(run.Local(who).st, drawn, m.msg, m.ad, sk);
      }
      RepeatsKeepId(Repeats.Moved(run, e), events[1..], sk);
    }
  }

  /** Every message at most once, as `Delivery` has it. */
  lemma {:induction false} DeliveryKeepsId(run: Run, events: seq<Event>, sk: Key)
    requires BothNamed(run.alice.st, run.bob.st, sk) && Possible(run, events)
    ensures var end := AfterAll(run, events); BothNamed(end.alice.st, end.bob.st, sk)
    decreases |events|
  {
    hide Named, Decrypted, Encrypted;
    if events != [] {
      var e := events[0];
      match e {
        case Send(who, plaintext, ad) => SendingKeepsId(run.Local(who).st, plaintext, ad, sk);
        case Deliver(who, index, drawn) =>
          var m := run.Remote(who).log[index];
          ReceivingKeepsId(run.Local(who).st, drawn, m.msg, m.ad, sk);
      }
      DeliveryKeepsId(After(run, e), events[1..], sk);
    }
  }

  /** Whatever bytes the network hands to either side. */
  lemma {:induction false} ExchangeKeepsId(run: OneShot.Exchange, acts: seq<OneShot.Act>, sk: Key)
    requires BothNamed(run.initiator, run.responder, sk)
    ensures var end := OneShot.Through(run, acts); BothNamed(end.initiator, end.responder, sk)
    decreases |acts|
  {
    hide Named, Decrypted, Encrypted;
    if acts != [] {
      var e := acts[0];
      match e {
        case Encrypt(who, plaintext, ad) => SendingKeepsId(run.Local(who), plaintext, ad, sk);
        case Receive(who, msg, ad, drawn) => ReceivingKeepsId(run.Local(who), drawn, msg, ad, sk);
      }
      ExchangeKeepsId(OneShot.Following(run, e), acts[1..], sk);
    }
  }

  /** Both peers compute the same id, and it stays the same over every run: honest, with repeated messages, or
      with whatever the network makes up. It tells two sessions apart exactly when their secrets differ, and
      no key of either end is equal to it. */
  lemma SameIdThroughout(sk: Key, sk': Key, a: PrivId, b: PrivId, honest: seq<Event>, repeated: seq<Event>,
                         acts: seq<OneShot.Act>)
    requires Possible(Handshaken(sk, a, b), honest) && Repeats.Feasible(Handshaken(sk, a, b), repeated)
    ensures var x, y, z := AfterAll(Handshaken(sk, a, b), honest), Repeats.Through(Handshaken(sk, a, b), repeated),
                           OneShot.Through(OneShot.Started(sk, a, b), acts);
            && BothNamed(x.alice.st, x.bob.st, sk) && BothNamed(y.alice.st, y.bob.st, sk) && BothNamed(z.initiator, z.responder, sk)
            && (forall st | st in [x.alice.st, x.bob.st, y.alice.st, y.bob.st, z.initiator, z.responder] ::
                  && st.sessionId == Handshaken(sk, a, b).alice.st.sessionId
                  && st.sessionId !in {sk, st.rk} && st.cks != Some(st.sessionId) && st.ckr != Some(st.sessionId)
                  && (st.sessionId == NewResponder(sk', b).sessionId <==> sk == sk'))
  {
    StartNamed(sk, a, b);
    DeliveryKeepsId(Handshaken(sk, a, b), honest, sk);
    RepeatsKeepId(Handshaken(sk, a, b), repeated, sk);
    ExchangeKeepsId(OneShot.Started(sk, a, b), acts, sk);
    var x, y, z := AfterAll(Handshaken(sk, a, b), honest), Repeats.Through(Handshaken(sk, a, b), repeated),
                   OneShot.Through(OneShot.Started(sk, a, b), acts);
    forall st | st in [x.alice.st, x.bob.st, y.alice.st, y.bob.st, z.initiator, z.responder]
      ensures Named(st, sk) && st.sessionId !in {sk, st.rk} && st.cks != Some(st.sessionId) && st.ckr != Some(st.sessionId)
    {
      assert Named(st, sk);
      IdIsNoKey(st, sk);
    }
  }

  /** Over whole handshakes: the responder has the initiator's id, and the ids of two handshakes are equal
      exactly when the secrets are. */
  lemma HandshakesShareId(me: PrivId, spk: PrivId, dk: nat, otpks: map<int, PrivId>, otpk: Option<OtpkBundle>,
                          ek: Option<EncodedEk>, d: Draws)
    requires Published(spk, dk, otpks, otpk, ek)
    ensures var (hello, session) := BuildHello(me, Pub(spk), otpk, ek, d);
            var sk := ResponderSecret(spk, dk, otpks, Pub(me), hello);
            sk.Success? && session.sessionId == NewResponder(sk.value, spk).sessionId == SessionId(sk.value)
  {
    EndsAgree(me, spk, dk, otpks, otpk, ek, d);
  }
}
