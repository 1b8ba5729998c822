// What opens is what the peer sent. The network may hand over any header, any associated data and any bytes,
// and may take ciphertexts from wherever they were seen; it cannot seal under keys it does not have.
module Authentic {
  import opened Wrappers
  import opened Words
  import opened Symbolic
  import opened RatchetSpec
  import opened Delivery
  import opened Duplicates

  /** Any state and any message: what opens was sealed, whole, for exactly this header and this associated
      data, and gives the plaintext that was sealed. */
  lemma OpensOnlyAsSealed(st: State, drawn: PrivId, msg: RatchetMessage, ad: bytes)
    ensures var r := Decrypted(st, drawn, msg, ad).1;
            r.Success? ==> msg.ciphertext.Sealed? && msg.ciphertext.aad == Aad(ad, msg.header) && r.value == msg.ciphertext.plaintext
  {
  }

  // ----- runs with a network that makes things up -----

  datatype Act =
    | Write(who: Who, plaintext: bytes, ad: bytes)
    | Arrive(who: Who, msg: RatchetMessage, ad: bytes, drawn: PrivId)

  /** The ciphertext is of nobody's making, or one that either side has sent. */
  ghost predicate Seen(run: Run, c: Cipher<Aad>) {
    c.Forged? || exists m :: (m in run.alice.log || m in run.bob.log) && m.msg.ciphertext == c
  }

  ghost predicate Possible(run: Run, e: Act) {
    match e
    case Write(who, _, _) => run.Local(who).st.ns + 1 < U32_LIMIT
    case Arrive(_, msg, _, _) => Seen(run, msg.ciphertext)
  }

  function Acted(run: Run, e: Act): Run {
    match e
    case Write(who, plaintext, ad) =>
      if run.Local(who).st.cks.Some? then run.With(who, SentOn(run.Local(who), plaintext, ad), {}) else run
    case Arrive(who, msg, ad, drawn) =>
      run.With(who, run.Local(who).(st := Decrypted(run.Local(who).st, drawn, msg, ad).0), {drawn})
  }

  ghost predicate AllPossible(run: Run, acts: seq<Act>)
    decreases |acts|
  {
    acts != [] ==> Possible(run, acts[0]) && AllPossible(Acted(run, acts[0]), acts[1..])
  }

  function ActedAll(run: Run, acts: seq<Act>): Run
    decreases |acts|
  {
    if acts == [] then run else ActedAll(Acted(run, acts[0]), acts[1..])
  }

  // ----- the two sides take turns along the root -----

  /** The chain was split off the root after an even or an odd number of steps. */
  predicate SplitAt(ck: Key, parity: nat) {
    Base(ck).Chain? && RootDepth(Base(ck).rk) % 2 == parity
  }

  /** One side sends at one parity and receives at the other. */
  ghost predicate TakesTurns(st: State, sends: nat, receives: nat) {
    && RootDepth(st.rk) % 2 == receives
    && (st.cks.Some? ==> SplitAt(st.cks.value, sends))
    && (st.ckr.Some? ==> SplitAt(st.ckr.value, receives))
    && (forall e | e in st.skipped :: e.mk.Message? && SplitAt(e.mk.ck, receives))
  }

  ghost predicate SentAt(log: seq<Sent>, sends: nat) {
    forall m | m in log :: SealedRight(m) && KeyOf(m).Message? && SplitAt(KeyOf(m).ck, sends)
  }

  lemma SkippedTakesTurns(st: State, until: u32, sends: nat, receives: nat)
    requires TakesTurns(st, sends, receives)
    ensures var s := Skipped(st, until);
            s.Success? ==> TakesTurns(s.value, sends, receives) && s.value == st.(ckr := s.value.ckr, nr := s.value.nr, skipped := s.value.skipped)
  {
    var s := Skipped(st, until);
    if s.Success? && st.ckr.Some? && st.dhr.Some? {
      var ck, count := st.ckr.value, SaturatingSub(until, st.nr);
      AdvanceDeepens(ck, count);
      var run := SkippedRun(st.dhr.value, ck, st.nr, count);
      forall e | e in run ensures e.mk.Message? && SplitAt(e.mk.ck, receives) {
        var i :| 0 <= i < |run| && run[i] == e;
        AdvanceDeepens(ck, i);
      }
    }
  }

  lemma OpenedTakesTurns(st: State, msg: RatchetMessage, ad: bytes, sends: nat, receives: nat)
    requires TakesTurns(st, sends, receives)
    ensures var (after, r) := Opened(st, msg, ad);
            && TakesTurns(after, sends, receives)
            && (r.Success? ==> exists ck :: SealedUnder(msg, Message(ck)) && SplitAt(ck, receives))
  {
    SkippedTakesTurns(st, msg.header.n, sends, receives);
    var s := Skipped(st, msg.header.n);
    if s.Success? && s.value.ckr.Some? {
      var ck := s.value.ckr.value;
      assert Base(Next(ck)) == Base(ck) && SplitAt(ck, receives);
    }
  }

  lemma SteppedTakesTurns(st: State, incoming: Pub, drawn: PrivId, sends: nat, receives: nat)
    requires TakesTurns(st, sends, receives) && sends + receives == 1
    ensures TakesTurns(Stepped(st, incoming, drawn), sends, receives)
  {
    var after := Stepped(st, incoming, drawn);
    assert Base(after.cks.value) == after.cks.value && Base(after.ckr.value) == after.ckr.value;
    assert RootDepth(after.rk) == RootDepth(st.rk) + 2 && RootDepth(after.cks.value.rk) == RootDepth(st.rk) + 1;
  }

  /** Whatever arrives, the turns are kept, and what opens was sealed on a chain of the other parity. */
  lemma ReceivingTakesTurns(st: State, drawn: PrivId, msg: RatchetMessage, ad: bytes, sends: nat, receives: nat)
    requires TakesTurns(st, sends, receives) && sends + receives == 1
    ensures var (after, r) := Decrypted(st, drawn, msg, ad);
            && TakesTurns(after, sends, receives)
            && (r.Success? ==> exists ck :: SealedUnder(msg, Message(ck)) && SplitAt(ck, receives))
  {
    var (tried, hit) := TriedSkipped(st, msg, ad);
    assert TakesTurns(tried, sends, receives);
    if hit.Some? {
      var e := st.skipped[FirstMatch(st.skipped, msg.header)];
      assert SealedUnder(msg, Message(e.mk.ck)) && SplitAt(e.mk.ck, receives);
    } else {
      OpenedTakesTurns(tried, msg, ad, sends, receives);
      SkippedTakesTurns(tried, msg.header.pn, sends, receives);
      var s := Skipped(tried, msg.header.pn);
      if s.Success? {
        SteppedTakesTurns(s.value, msg.header.dh, drawn, sends, receives);
        OpenedTakesTurns(Stepped(s.value, msg.header.dh, drawn), msg, ad, sends, receives);
      }
    }
  }

  ghost predicate InTurn(side: Side, sends: nat, receives: nat) {
    TakesTurns(side.st, sends, receives) && SentAt(side.log, sends)
  }

  ghost predicate Alternating(run: Run, first: nat) {
    first < 2 && InTurn(run.alice, first, 1 - first) && InTurn(run.bob, 1 - first, first)
  }

  lemma WritingStaysInTurn(side: Side, plaintext: bytes, ad: bytes, sends: nat, receives: nat)
    requires InTurn(side, sends, receives) && side.st.cks.Some? && side.st.ns + 1 < U32_LIMIT
    ensures InTurn(SentOn(side, plaintext, ad), sends, receives)
  {
    assert Base(Next(side.st.cks.value)) == Base(side.st.cks.value);
  }

  lemma ActStaysAlternating(run: Run, e: Act, first: nat)
    requires Alternating(run, first) && Possible(run, e)
    ensures Alternating(Acted(run, e), first)
  {
    hide TakesTurns, SentAt, Decrypted, Encrypted;
    match e
    case Write(who, plaintext, ad) =>
      if run.Local(who).st.cks.Some? {
        WritingStaysInTurn(run.Local(who), plaintext, ad, if who.Alice? then first else 1 - first, if who.Alice? then 1 - first else first);
      }
    case Arrive(who, msg, ad, drawn) =>
      ReceivingTakesTurns(run.Local(who).st, drawn, msg, ad, if who.Alice? then first else 1 - first, if who.Alice? then 1 - first else first);
  }

  lemma {:induction false} ActsStayAlternating(run: Run, acts: seq<Act>, first: nat)
    requires Alternating(run, first) && AllPossible(run, acts)
    ensures Alternating(ActedAll(run, acts), first)
    decreases |acts|
  {
    hide Alternating, Acted, Possible;
    if acts != [] {
      ActStaysAlternating(run, acts[0], first);
      ActsStayAlternating(Acted(run, acts[0]), acts[1..], first);
    }
  }

  lemma InitiatorInTurn(sk: Key, theirs: Pub, drawn: PrivId, first: nat)
    requires first == RootDepth(sk) % 2
    ensures TakesTurns(NewInitiator(sk, theirs, drawn), first, 1 - first)
  {
    var st := NewInitiator(sk, theirs, drawn);
    assert Base(st.cks.value) == st.cks.value && RootDepth(st.rk) == RootDepth(sk) + 1;
  }

  lemma StartAlternates(sk: Key, a: PrivId, b: PrivId)
    ensures Alternating(Handshaken(sk, a, b), RootDepth(sk) % 2)
  {
    InitiatorInTurn(sk, Pub(b), a, RootDepth(sk) % 2);
    hide NewInitiator, RootDepth, SplitAt;
  }

  /** After anything such a network can do: a message that opens is one the peer sent, with that header, that
      associated data and that plaintext. So nobody else's words are taken for the peer's, not even one's own
      ciphertexts thrown back. */
  lemma OpensOnlyThePeers(sk: Key, a: PrivId, b: PrivId, acts: seq<Act>, who: Who, msg: RatchetMessage, ad: bytes,
                          drawn: PrivId)
    requires AllPossible(Handshaken(sk, a, b), acts)
    requires Possible(ActedAll(Handshaken(sk, a, b), acts), Arrive(who, msg, ad, drawn))
    ensures var run := ActedAll(Handshaken(sk, a, b), acts);
            var r := Decrypted(run.Local(who).st, drawn, msg, ad).1;
            r.Success? ==> Sent(msg, r.value, ad) in run.Remote(who).log
  {
    StartAlternates(sk, a, b);
    var first := RootDepth(sk) % 2;
    ActsStayAlternating(Handshaken(sk, a, b), acts, first);
    var run := ActedAll(Handshaken(sk, a, b), acts);
    ReceivingTakesTurns(run.Local(who).st, drawn, msg, ad, if who.Alice? then first else 1 - first, if who.Alice? then 1 - first else first);
    OpensOnlyAsSealed(run.Local(who).st, drawn, msg, ad);
    hide Decrypted, AllPossible, ActedAll, Handshaken, RootDepth, TakesTurns;
    if Decrypted(run.Local(who).st, drawn, msg, ad).1.Success? {
      var m :| (m in run.alice.log || m in run.bob.log) && m.msg.ciphertext == msg.ciphertext;
      assert m.msg == msg && m.ad == ad;
    }
  }
}
