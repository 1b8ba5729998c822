// A message that arrives twice. The session has no rollback, and the offline path sends the same bytes
// through the outbox and the mailbox; this module says exactly what the second copy does.
module Duplicates {
  import opened Wrappers
  import opened Words
  import opened Symbolic
  import opened RatchetSpec
  import opened Delivery
  import opened Agreement

  // ----- how deep a key lies -----

  /** How many KDF_RK steps lie behind a root key. */
  function RootDepth(k: Key): nat {
    if k.Root? then 1 + RootDepth(k.rk) else 0
  }

  /** A chain key of a chain that was split off above the state's root key. */
  predicate Lower(ck: Key, st: State) {
    Base(ck).Chain? && RootDepth(Base(ck).rk) < RootDepth(st.rk)
  }

  /** A chain key's position is its counter, modulo the counter's width. */
  predicate Positioned(ck: Key, n: u32) {
    Depth(ck) % U32_LIMIT == n
  }

  ghost predicate Layered(st: State) {
    && (st.ckr.Some? ==> Lower(st.ckr.value, st) && Positioned(st.ckr.value, st.nr))
    && (st.cks.Some? ==> Positioned(st.cks.value, st.ns))
    && (forall e | e in st.skipped :: e.mk.Message? && Lower(e.mk.ck, st))
  }

  lemma PositionMoves(ck: Key, n: u32, steps: nat)
    requires Positioned(ck, n) && n + steps < U32_LIMIT
    ensures Positioned(Advance(ck, steps), n + steps)
  {
    AdvanceDeepens(ck, steps);
  }

  lemma SkippedStaysLayered(st: State, until: u32)
    requires Layered(st)
    ensures var s := Skipped(st, until); s.Success? ==> Layered(s.value) && s.value.rk == st.rk && s.value.dhs == st.dhs
  {
    var s := Skipped(st, until);
    if s.Success? && s.value != st {
      var ck, count := st.ckr.value, SaturatingSub(until, st.nr);
      PositionMoves(ck, st.nr, count);
      AdvanceDeepens(ck, count);
      forall e | e in s.value.skipped ensures e.mk.Message? && Lower(e.mk.ck, s.value) {
        if e !in st.skipped {
          var run := SkippedRun(st.dhr.value, ck, st.nr, count);
          assert e in run;
          var i :| 0 <= i < |run| && run[i] == e;
          AdvanceDeepens(ck, i);
        }
      }
    }
  }

  /** The key a message was sealed with. */
  predicate SealedUnder(m: RatchetMessage, mk: Key) {
    m.ciphertext.Sealed? && m.ciphertext.key == mk
  }

  lemma OpenedStaysLayered(st: State, msg: RatchetMessage, ad: bytes)
    requires Layered(st)
    ensures var (after, r) := Opened(st, msg, ad);
            && Layered(after) && after.rk == st.rk
            && (r.Success? ==> exists ck :: SealedUnder(msg, Message(ck)) && Lower(ck, after))
  {
    SkippedStaysLayered(st, msg.header.n);
    var s := Skipped(st, msg.header.n);
    if s.Success? && s.value.ckr.Some? {
      var ck := s.value.ckr.value;
      var after := Opened(st, msg, ad).0;
      NextPosition(ck, s.value.nr);
      assert Base(Next(ck)) == Base(ck);
      assert Lower(ck, after);
    }
  }

  lemma NextPosition(ck: Key, n: u32)
    requires Positioned(ck, n)
    ensures Positioned(Next(ck), WrapInc(n))
  {
  }

  lemma SteppedIsLayered(st: State, incoming: Pub, drawn: PrivId)
    requires Layered(st)
    ensures var after := Stepped(st, incoming, drawn); Layered(after) && RootDepth(after.rk) == RootDepth(st.rk) + 2
  {
    var after := Stepped(st, incoming, drawn);
    var ckr, cks := after.ckr.value, after.cks.value;
    assert Base(ckr) == ckr && Depth(ckr) == 0 && Depth(cks) == 0;
  }

  /** Receiving keeps the layers; the root never comes back up; and a message that opens was sealed under a
      chain that lies above the root it leaves. */
  lemma ReceivingStaysLayered(st: State, drawn: PrivId, msg: RatchetMessage, ad: bytes)
    requires Layered(st)
    ensures var (after, r) := Decrypted(st, drawn, msg, ad);
            && Layered(after) && RootDepth(st.rk) <= RootDepth(after.rk)
            && (r.Success? ==> exists ck :: SealedUnder(msg, Message(ck)) && Lower(ck, after))
  {
    var (tried, hit) := TriedSkipped(st, msg, ad);
    assert Layered(tried);
    if hit.Some? {
      var e := st.skipped[FirstMatch(st.skipped, msg.header)];
      assert SealedUnder(msg, Message(e.mk.ck)) && Lower(e.mk.ck, tried);
    } else {
      OpenedStaysLayered(tried, msg, ad);
      SkippedStaysLayered(tried, msg.header.pn);
      var s := Skipped(tried, msg.header.pn);
      if s.Success? {
        SteppedIsLayered(s.value, msg.header.dh, drawn);
        OpenedStaysLayered(Stepped(s.value, msg.header.dh, drawn), msg, ad);
      }
    }
  }

  // ----- over runs -----

  /** `p`, and what `q` has sent to it. */
  ghost predicate HalfLayered(q: Side, p: Side) {
    && Layered(p.st)
    && (forall m | m in q.log :: m.msg.ciphertext.Sealed? && KeyOf(m).Message? && Positioned(KeyOf(m).ck, m.msg.header.n))
    && (forall k | k in p.received :: k < |q.log| && Lower(KeyOf(q.log[k]).ck, p.st))
  }

  ghost predicate Layers(run: Run) {
    HalfLayered(run.bob, run.alice) && HalfLayered(run.alice, run.bob)
  }

  lemma SendStaysLayered(q: Side, p: Side, plaintext: bytes, ad: bytes)
    requires HalfLayered(q, p) && HalfLayered(p, q) && q.st.cks.Some?
    ensures HalfLayered(SentOn(q, plaintext, ad), p) && HalfLayered(p, SentOn(q, plaintext, ad))
  {
    NextPosition(q.st.cks.value, q.st.ns);
  }

  lemma DeliverStaysLayered(q: Side, p: Side, k: nat, drawn: PrivId)
    requires HalfLayered(q, p) && HalfLayered(p, q) && k < |q.log|
    ensures HalfLayered(q, Received(q, p, k, drawn)) && HalfLayered(Received(q, p, k, drawn), q)
  {
    var p' := Received(q, p, k, drawn);
    var m := q.log[k];
    assert m in q.log;
    ReceivingStaysLayered(p.st, drawn, m.msg, m.ad);
    forall j | j in p'.received ensures j < |q.log| && Lower(KeyOf(q.log[j]).ck, p'.st) {
      if j in p.received {
        assert q.log[j] in q.log;
      }
    }
  }

  lemma StepStaysLayered(run: Run, e: Event)
    requires Layers(run) && Enabled(run, e)
    ensures Layers(After(run, e))
  {
    match e
    case Send(who, plaintext, ad) =>
      assert run.used + {} == run.used;
      if run.Local(who).st.cks.Some? {
        SendStaysLayered(run.Local(who), run.Remote(who), plaintext, ad);
      } else {
        assert After(run, e) == run;
      }
    case Deliver(who, index, drawn) => DeliverStaysLayered(run.Remote(who), run.Local(who), index, drawn);
  }

  lemma {:induction false} RunStaysLayered(run: Run, events: seq<Event>)
    requires Layers(run) && Possible(run, events)
    ensures Layers(AfterAll(run, events))
    decreases |events|
  {
    if events != [] {
      StepStaysLayered(run, events[0]);
      RunStaysLayered(After(run, events[0]), events[1..]);
    }
  }

  // ----- the second copy -----

  /** Message `k` has been opened, so no cached key answers for it. */
  lemma OpenedIsNotCached(q: Side, used: set<PrivId>, p: Side, cut: nat, k: nat)
    requires Genuine(q, used) && Caught(q.log, p, cut) && k in p.received && k < |q.log|
    ensures FirstMatch(p.st.skipped, q.log[k].msg.header) == |p.st.skipped|
  {
    var pos := FirstMatch(p.st.skipped, q.log[k].msg.header);
    if pos < |p.st.skipped| {
      var j := MissingFrom(q.log, p.received, cut, pos);
    }
  }

  /** On the chain being followed, an opened message carries a number already passed. */
  lemma OpenedIsBehind(q: Side, used: set<PrivId>, p: Side, k: nat)
    requires Genuine(q, used) && (Synced(q, p) || Behind(q, p)) && k in p.received && k < |q.log|
    ensures p.st.ckr.Some? && p.st.dhr.Some?
    ensures p.st.dhr == Some(q.log[k].msg.header.dh) ==> q.log[k].msg.header.n < p.st.nr
  {
    assert q.log[k] in q.log;
    var start := |q.log| - q.st.ns;
    var cut := if Synced(q, p) then start + p.st.nr else start - q.st.pn + p.st.nr;
    var to := if Synced(q, p) then |q.log| else start;
    var n := q.log[k].msg.header.n;
    if p.st.dhr == Some(q.log[k].msg.header.dh) && n >= p.st.nr {
      NumberTaken(q, used, cut, to, p.st.ckr.value, p.st.dhr.value, p.st.nr, k);
    }
  }

  /** Every key cached for the chain being followed has been passed. */
  lemma NothingCachedAhead(q: Side, used: set<PrivId>, p: Side, e: SkippedKey)
    requires Genuine(q, used) && (Synced(q, p) || Behind(q, p)) && p.st.ckr.Some?
    requires e in p.st.skipped && p.st.dhr == Some(e.dhPub)
    ensures e.n < p.st.nr
  {
    var i :| 0 <= i < |p.st.skipped| && p.st.skipped[i] == e;
    if Synced(q, p) {
      var cut := |q.log| - q.st.ns + p.st.nr;
      AllOutrun(q, used);
      EntryIsPassed(q, used, p, cut, |q.log|, i);
    } else {
      var start := |q.log| - q.st.ns;
      EntryIsPassed(q, used, p, start - q.st.pn + p.st.nr, start, i);
    }
  }

  lemma EntryIsPassed(q: Side, used: set<PrivId>, p: Side, cut: nat, to: nat, i: nat)
    requires Genuine(q, used) && Caught(q.log, p, cut) && p.st.ckr.Some? && p.st.dhr.Some?
    requires OnChain(q.log, cut, to, p.st.ckr.value, p.st.dhr.value, p.st.nr) && Outrun(q.log, to, p.st.dhr, p.st.nr + (to - cut))
    requires i < |p.st.skipped| && p.st.dhr == Some(p.st.skipped[i].dhPub)
    ensures p.st.skipped[i].n < p.st.nr
  {
    var j := MissingFrom(q.log, p.received, cut, i);
    NumberTaken(q, used, cut, to, p.st.ckr.value, p.st.dhr.value, p.st.nr, j);
  }

  /** Whether the copy is refused before anything is touched: it is of another chain than the one being
      followed, and catching up as its header asks would overfill the cache. */
  predicate RefusedAtOnce(st: State, h: Header) {
    st.dhr != Some(h.dh) && SaturatingSub(h.pn, st.nr) + |st.skipped| > MAX_SKIP
  }

  /** A header of the chain being followed, with a number already passed and no key cached for it: the next
      key of the chain is tried, and used up. */
  lemma TriesTheNext(st: State, drawn: PrivId, m: RatchetMessage, ad: bytes)
    requires st.ckr.Some? && st.dhr == Some(m.header.dh) && m.header.n <= st.nr && |st.skipped| <= MAX_SKIP
    requires FirstMatch(st.skipped, m.header) == |st.skipped|
    ensures Decrypted(st, drawn, m, ad) ==
              (st.(ckr := Some(Next(st.ckr.value)), nr := WrapInc(st.nr)),
               match AeadOpen(Message(st.ckr.value), m.ciphertext, Aad(ad, m.header))
               case Some(pt) => Success(pt)
               case None => Failure(BadAead))
  {
    var none := SkippedRun(st.dhr.value, st.ckr.value, st.nr, 0);
    assert st.skipped + none == st.skipped;
    assert Skipped(st, m.header.n) == Success(st);
  }

  lemma CopyOnChain(q: Side, used: set<PrivId>, p: Side, k: nat, drawn: PrivId)
    requires Genuine(q, used) && (Synced(q, p) || Behind(q, p)) && HalfLayered(q, p) && k in p.received && k < |q.log|
    requires p.st.dhr == Some(q.log[k].msg.header.dh)
    ensures p.st.ckr.Some?
    ensures FirstMatch(p.st.skipped, q.log[k].msg.header) == |p.st.skipped|
    ensures Decrypted(p.st, drawn, q.log[k].msg, q.log[k].ad) ==
              (p.st.(ckr := Some(Next(p.st.ckr.value)), nr := WrapInc(p.st.nr)), Failure(BadAead))
  {
    var m := q.log[k];
    assert m in q.log;
    OpenedIsBehind(q, used, p, k);
    var cut := CutOf(q, p);
    OpenedIsNotCached(q, used, p, cut, k);
    TriesTheNext(p.st, drawn, m.msg, m.ad);
    assert Depth(KeyOf(m).ck) != Depth(p.st.ckr.value);
  }

  /** How far the receiver has walked through what was sent. */
  lemma CutOf(q: Side, p: Side) returns (cut: nat)
    requires Synced(q, p) || Behind(q, p)
    ensures cut == (if Synced(q, p) then |q.log| - q.st.ns + p.st.nr else |q.log| - q.st.ns - q.st.pn + p.st.nr)
    ensures Caught(q.log, p, cut)
  {
    cut := if Synced(q, p) then |q.log| - q.st.ns + p.st.nr else |q.log| - q.st.ns - q.st.pn + p.st.nr;
  }

  lemma CopyOffChain(q: Side, used: set<PrivId>, p: Side, k: nat, drawn: PrivId)
    requires Genuine(q, used) && (Synced(q, p) || Behind(q, p)) && HalfLayered(q, p) && k in p.received && k < |q.log|
    requires p.st.dhr != Some(q.log[k].msg.header.dh)
    ensures var (st, r) := Decrypted(p.st, drawn, q.log[k].msg, q.log[k].ad);
            if RefusedAtOnce(p.st, q.log[k].msg.header) then st == p.st && r == Failure(TooManySkipped)
            else r.Failure? && st.dhs == drawn && st.dhr == Some(q.log[k].msg.header.dh) && RootDepth(st.rk) == RootDepth(p.st.rk) + 2
  {
    var m := q.log[k];
    assert m in q.log;
    OpenedIsBehind(q, used, p, k);
    var cut := CutOf(q, p);
    OpenedIsNotCached(q, used, p, cut, k);
    SkippedStaysLayered(p.st, m.msg.header.pn);
    var s := Skipped(p.st, m.msg.header.pn);
    if s.Success? {
      SteppedIsLayered(s.value, m.msg.header.dh, drawn);
      NewChainIsLower(s.value, m, drawn);
    }
  }

  /** A message sealed above the root does not open on a chain split off at it. */
  lemma NewChainIsLower(st: State, m: Sent, drawn: PrivId)
    requires m.msg.ciphertext.Sealed? && KeyOf(m).Message? && Lower(KeyOf(m).ck, st)
    ensures var stepped := Stepped(st, m.msg.header.dh, drawn);
            var (after, r) := Opened(stepped, m.msg, m.ad);
            r.Failure? && after.dhs == stepped.dhs && after.dhr == stepped.dhr && after.rk == stepped.rk
  {
    var stepped := Stepped(st, m.msg.header.dh, drawn);
    var start := stepped.ckr.value;
    assert Base(start) == start;
    var s := Skipped(stepped, m.msg.header.n);
    if s.Success? {
      AdvanceDeepens(start, m.msg.header.n);
      assert s.value.ckr == Some(Advance(start, m.msg.header.n));
      assert Base(KeyOf(m).ck) != Base(s.value.ckr.value);
    }
  }

  /** The second copy of a message that has been opened is never accepted; and it leaves the session as it
      was if and only if it is refused at once. So it is not a no-op in general: on the chain being followed
      it uses up a key, and on an older one it makes a DH step. */
  lemma SecondCopy(sk: Key, a: PrivId, b: PrivId, events: seq<Event>, who: Who, index: nat, drawn: PrivId)
    requires a != b && Possible(Handshaken(sk, a, b), events)
    requires var run := AfterAll(Handshaken(sk, a, b), events);
             index in run.Local(who).received && index < |run.Remote(who).log| && drawn !in run.used
    ensures var run := AfterAll(Handshaken(sk, a, b), events);
            var (st, r) := Delivered(run, who, index, drawn);
            && r.Failure?
            && (st == run.Local(who).st <==> RefusedAtOnce(run.Local(who).st, run.Remote(who).log[index].msg.header))
  {
    var run := Reached(sk, a, b, events);
    var q, p := run.Remote(who), run.Local(who);
    if p.st.dhr == Some(q.log[index].msg.header.dh) {
      CopyOnChain(q, run.used, p, index, drawn);
      assert Depth(Next(p.st.ckr.value)) != Depth(p.st.ckr.value);
    } else {
      CopyOffChain(q, run.used, p, index, drawn);
    }
  }

  lemma Reached(sk: Key, a: PrivId, b: PrivId, events: seq<Event>) returns (run: Run)
    requires a != b && Possible(Handshaken(sk, a, b), events)
    ensures run == AfterAll(Handshaken(sk, a, b), events) && Paired(run) && Layers(run)
  {
    HandshakePairs(sk, a, b);
    var start := Handshaken(sk, a, b);
    assert Layers(start);
    RunStaysPaired(start, events);
    RunStaysLayered(start, events);
    run := AfterAll(start, events);
  }

  /** What a copy on the chain being followed costs: the next message in order, which until then would have
      opened, is lost. */
  lemma CopyLosesTheNext(sk: Key, a: PrivId, b: PrivId, events: seq<Event>, who: Who, index: nat, drawn: PrivId,
                        next: nat, later: PrivId)
    requires a != b && Possible(Handshaken(sk, a, b), events)
    requires var run := AfterAll(Handshaken(sk, a, b), events);
             && index in run.Local(who).received && index < |run.Remote(who).log| && drawn !in run.used
             && run.Local(who).st.dhr == Some(run.Remote(who).log[index].msg.header.dh)
             && next < |run.Remote(who).log| && next !in run.Local(who).received
             && run.Remote(who).log[next].msg.header.dh == run.Remote(who).log[index].msg.header.dh
             && run.Remote(who).log[next].msg.header.n == run.Local(who).st.nr
             && run.Local(who).st.nr + 1 < U32_LIMIT
    ensures var run := AfterAll(Handshaken(sk, a, b), events);
            var m := run.Remote(who).log[next];
            var spoiled := Delivered(run, who, index, drawn).0;
            && Delivered(run, who, next, drawn).1 == Success(m.plaintext)
            && Decrypted(spoiled, later, m.msg, m.ad).1 == Failure(BadAead)
  {
    var run := Reached(sk, a, b, events);
    var q, p := run.Remote(who), run.Local(who);
    CopyOnChain(q, run.used, p, index, drawn);
    NextInOrder(q, run.used, p, next, drawn);
    SpoiledNext(p.st, q.log[next], later);
  }

  /** After one key too many has been used up, the message it was for finds a later key. */
  lemma SpoiledNext(st: State, m: Sent, later: PrivId)
    requires st.ckr.Some? && st.dhr == Some(m.msg.header.dh) && m.msg.header.n == st.nr && st.nr + 1 < U32_LIMIT
    requires |st.skipped| <= MAX_SKIP && FirstMatch(st.skipped, m.msg.header) == |st.skipped|
    requires KeyOf(m) == Message(st.ckr.value)
    ensures Decrypted(st.(ckr := Some(Next(st.ckr.value)), nr := WrapInc(st.nr)), later, m.msg, m.ad).1 == Failure(BadAead)
  {
    TriesTheNext(st.(ckr := Some(Next(st.ckr.value)), nr := WrapInc(st.nr)), later, m.msg, m.ad);
    assert Depth(Next(st.ckr.value)) != Depth(st.ckr.value);
  }

  lemma NextIsThere(q: Side, used: set<PrivId>, p: Side, next: nat)
    requires Genuine(q, used) && (Synced(q, p) || Behind(q, p))
    requires next < |q.log| && p.st.dhr == Some(q.log[next].msg.header.dh) && q.log[next].msg.header.n == p.st.nr
    ensures p.st.nr < if Synced(q, p) then q.st.ns else q.st.pn
  {
    assert q.log[next] in q.log;
  }

  /** The message that carries the number expected next: it is not cached, and it opens. */
  lemma NextInOrder(q: Side, used: set<PrivId>, p: Side, next: nat, drawn: PrivId)
    requires Genuine(q, used) && (Synced(q, p) || Behind(q, p)) && p.st.ckr.Some? && p.st.nr + 1 < U32_LIMIT
    requires next < |q.log| && next !in p.received
    requires p.st.dhr == Some(q.log[next].msg.header.dh) && q.log[next].msg.header.n == p.st.nr
    ensures FirstMatch(p.st.skipped, q.log[next].msg.header) == |p.st.skipped| && |p.st.skipped| <= MAX_SKIP
    ensures KeyOf(q.log[next]) == Message(p.st.ckr.value)
    ensures Decrypted(p.st, drawn, q.log[next].msg, q.log[next].ad).1 == Success(q.log[next].plaintext)
  {
    assert q.log[next] in q.log;
    hide Missing, Undelivered, Outrun;
    var cut := CutOf(q, p);
    var to := if Synced(q, p) then |q.log| else |q.log| - q.st.ns;
    assert OnChain(q.log, cut, to, p.st.ckr.value, p.st.dhr.value, p.st.nr);
    NumberTaken(q, used, cut, to, p.st.ckr.value, p.st.dhr.value, p.st.nr, next);
    NextIsThere(q, used, p, next);
    assert cut < to && next == cut;
    LookupMisses(q, used, p.received, cut, next);
    assert Carries(q.log[next], Advance(p.st.ckr.value, 0), p.st.dhr.value, p.st.nr);
    TriesTheNext(p.st, drawn, q.log[next].msg, q.log[next].ad);
  }

  /** What a copy of an older chain costs, unless it is refused at once: the two root keys are no longer one
      step apart, on either side, so the agreement every honest run keeps is gone. */
  lemma CopyBreaksAgreement(sk: Key, a: PrivId, b: PrivId, events: seq<Event>, who: Who, index: nat, drawn: PrivId)
    requires a != b && Possible(Handshaken(sk, a, b), events)
    requires var run := AfterAll(Handshaken(sk, a, b), events);
             && index in run.Local(who).received && index < |run.Remote(who).log| && drawn !in run.used
             && run.Local(who).st.dhr != Some(run.Remote(who).log[index].msg.header.dh)
             && !RefusedAtOnce(run.Local(who).st, run.Remote(who).log[index].msg.header)
    ensures var run := AfterAll(Handshaken(sk, a, b), events);
            var after := run.With(who, run.Local(who).(st := Delivered(run, who, index, drawn).0), {drawn});
            !OneStepAhead(after, Alice) && !OneStepAhead(after, Bob)
  {
    var run := Reached(sk, a, b, events);
    CopyBreaks(run, who, index, drawn);
  }

  /** A copy of an older chain does not carry the key its sender is at now. */
  lemma CopyIsOld(q: Side, used: set<PrivId>, p: Side, k: nat)
    requires Genuine(q, used) && (Synced(q, p) || Behind(q, p)) && k in p.received && k < |q.log|
    requires p.st.dhr != Some(q.log[k].msg.header.dh)
    ensures q.log[k].msg.header.dh != Pub(q.st.dhs)
  {
    assert q.log[k] in q.log;
    if !Synced(q, p) && q.log[k].msg.header.dh == Pub(q.st.dhs) {
      var start := |q.log| - q.st.ns;
      NumberTaken(q, used, start, |q.log|, Chain(p.st.rk, DiffieHellman(p.st.dhs, Pub(q.st.dhs))), Pub(q.st.dhs), 0, k);
    }
  }

  lemma CopyBreaks(run: Run, who: Who, index: nat, drawn: PrivId)
    requires Paired(run) && Layers(run)
    requires index in run.Local(who).received && index < |run.Remote(who).log|
    requires run.Local(who).st.dhr != Some(run.Remote(who).log[index].msg.header.dh)
    requires !RefusedAtOnce(run.Local(who).st, run.Remote(who).log[index].msg.header)
    ensures var after := run.With(who, run.Local(who).(st := Delivered(run, who, index, drawn).0), {drawn});
            !OneStepAhead(after, Alice) && !OneStepAhead(after, Bob)
  {
    CopyOffChain(run.Remote(who), run.used, run.Local(who), index, drawn);
    CopyIsOld(run.Remote(who), run.used, run.Local(who), index);
    DepthsApart(run);
    hide *;
    ApartAfter(run, who, Delivered(run, who, index, drawn).0, drawn);
  }

  lemma ApartAfter(run: Run, who: Who, spoiled: State, drawn: PrivId)
    requires RootDepth(run.alice.st.rk) - RootDepth(run.bob.st.rk) in {-1, 1}
    requires RootDepth(spoiled.rk) == RootDepth(run.Local(who).st.rk) + 2 && spoiled.dhr != Some(Pub(run.Remote(who).st.dhs))
    ensures var after := run.With(who, run.Local(who).(st := spoiled), {drawn});
            !OneStepAhead(after, Alice) && !OneStepAhead(after, Bob)
  {
    var after := run.With(who, run.Local(who).(st := spoiled), {drawn});
    StepDepth(after, Alice);
    StepDepth(after, Bob);
  }

  lemma DepthsApart(run: Run)
    requires Paired(run)
    ensures RootDepth(run.alice.st.rk) - RootDepth(run.bob.st.rk) in {-1, 1}
  {
    hide Genuine, Outrun, Synced;
  }

  lemma StepDepth(run: Run, who: Who)
    ensures OneStepAhead(run, who) ==> RootDepth(run.Local(who).st.rk) == RootDepth(run.Remote(who).st.rk) + 1
  {
  }

  // ----- the shortest runs in which it happens -----

  lemma EndsThere(run: Run)
    ensures Possible(run, []) && AfterAll(run, []) == run
  {
  }

  lemma Steps(run: Run, e: Event, rest: seq<Event>)
    requires Enabled(run, e) && Possible(After(run, e), rest)
    ensures Possible(run, [e] + rest) && AfterAll(run, [e] + rest) == AfterAll(After(run, e), rest)
  {
    assert ([e] + rest)[1..] == rest;
  }

  /** Two events in a row, unfolded. */
  lemma TwoSteps(run: Run, e: Event, f: Event)
    requires Enabled(run, e) && Enabled(After(run, e), f)
    ensures Possible(run, [e, f]) && AfterAll(run, [e, f]) == After(After(run, e), f)
  {
    var next := After(run, e);
    EndsThere(After(next, f));
    Steps(next, f, []);
    assert [f] + [] == [f] && [e] + [f] == [e, f];
    Steps(run, e, [f]);
  }

  lemma {:induction false} RunsJoin(run: Run, a: seq<Event>, b: seq<Event>)
    requires Possible(run, a) && Possible(AfterAll(run, a), b)
    ensures Possible(run, a + b) && AfterAll(run, a + b) == AfterAll(AfterAll(run, a), b)
    decreases |a|
  {
    hide After, Enabled;
    if a == [] {
      assert a + b == b;
    } else {
      RunsJoin(After(run, a[0]), a[1..], b);
      assert a + b == [a[0]] + (a[1..] + b);
      Steps(run, a[0], a[1..] + b);
    }
  }

  /** The first message of a new chain, with an empty cache and nothing to catch up with. */
  lemma TakesFirst(st: State, drawn: PrivId, m: RatchetMessage, ad: bytes)
    requires st.skipped == [] && st.dhr != Some(m.header.dh) && m.header.n == 0 && (st.ckr.Some? ==> m.header.pn <= st.nr)
    ensures var stepped := Stepped(st, m.header.dh, drawn);
            Decrypted(st, drawn, m, ad) ==
              (stepped.(ckr := Some(Next(stepped.ckr.value)), nr := 1),
               match AeadOpen(Message(stepped.ckr.value), m.ciphertext, Aad(ad, m.header))
               case Some(pt) => Success(pt)
               case None => Failure(BadAead))
  {
    var s := Skipped(st, m.header.pn).value;
    assert s == st;
    var stepped := Stepped(st, m.header.dh, drawn);
    assert Skipped(stepped, 0).value == stepped;
  }

  /** A send, and the delivery of the first message of a new chain to a peer that has nothing cached, with
      what they do to the run. */
  lemma SendStep(run: Run, who: Who, x: bytes, ad: bytes) returns (next: Run)
    requires run.Local(who).st.cks.Some? && run.Local(who).st.ns + 1 < U32_LIMIT
    ensures Enabled(run, Send(who, x, ad)) && next == After(run, Send(who, x, ad))
    ensures next.Remote(who) == run.Remote(who) && next.used == run.used
    ensures var q, q' := run.Local(who), next.Local(who);
            var header := Header(Pub(q.st.dhs), q.st.pn, q.st.ns);
            && q'.st == q.st.(cks := Some(Next(q.st.cks.value)), ns := q.st.ns + 1) && q'.received == q.received
            && q'.log == q.log + [Sent(RatchetMessage(header, Sealed(Message(q.st.cks.value), x, Aad(ad, header))), x, ad)]
  {
    next := After(run, Send(who, x, ad));
  }

  lemma TakeStep(run: Run, who: Who, k: nat, drawn: PrivId) returns (next: Run)
    requires k < |run.Remote(who).log| && k !in run.Local(who).received && drawn !in run.used
    requires var p, m := run.Local(who).st, run.Remote(who).log[k];
             && p.skipped == [] && p.dhr != Some(m.msg.header.dh) && m.msg.header.n == 0 && (p.ckr.Some? ==> m.msg.header.pn <= p.nr)
             && SealedRight(m) && KeyOf(m) == Message(Chain(p.rk, DiffieHellman(p.dhs, m.msg.header.dh)))
    ensures Enabled(run, Deliver(who, k, drawn)) && next == After(run, Deliver(who, k, drawn))
    ensures next.Remote(who) == run.Remote(who) && next.used == run.used + {drawn}
    ensures var p, p' := run.Local(who), next.Local(who);
            var stepped := Stepped(p.st, run.Remote(who).log[k].msg.header.dh, drawn);
            && p'.st == stepped.(ckr := Some(Next(stepped.ckr.value)), nr := 1)
            && p'.log == p.log && p'.received == p.received + {k}
  {
    TakesFirst(run.Local(who).st, drawn, run.Remote(who).log[k].msg, run.Remote(who).log[k].ad);
    hide Decrypted;
    next := After(run, Deliver(who, k, drawn));
  }

  /** `who` has a new chain that `other`, with everything before taken in, has yet to hear of. */
  ghost predicate OnTurn(run: Run, who: Who, other: Who) {
    var q, p := run.Local(who).st, run.Local(other).st;
    var link := DiffieHellman(p.dhs, Pub(q.dhs));
    && who != other && q.dhs in run.used && p.dhs in run.used
    && q.ns == 0 && q.cks == Some(Chain(p.rk, link)) && q.rk == Root(p.rk, link)
    && q.dhr == Some(Pub(p.dhs)) && p.dhr != Some(Pub(q.dhs)) && q.skipped == [] && p.skipped == []
    && (p.ckr.Some? ==> q.pn <= p.nr) && (q.ckr.Some? ==> p.ns <= q.nr)
    && (forall i | i in run.Local(other).received :: i < |run.Local(who).log|)
    && (forall i | i in run.Local(who).received :: i < |run.Local(other).log|)
  }

  /** Its message is sent and delivered, and it is the other's turn. */
  lemma Leg(run: Run, who: Who, other: Who, x: bytes, ad: bytes, drawn: PrivId) returns (next: Run)
    requires OnTurn(run, who, other) && drawn !in run.used
    ensures var events := [Send(who, x, ad), Deliver(other, |run.Local(who).log|, drawn)];
            Possible(run, events) && next == AfterAll(run, events) && next.used == run.used + {drawn}
    ensures OnTurn(next, other, who)
    ensures var q, q', p, p' := run.Local(who), next.Local(who), run.Local(other), next.Local(other);
            && q'.st == q.st.(cks := Some(Next(q.st.cks.value)), ns := 1) && q'.received == q.received
            && |q'.log| == |q.log| + 1 && q'.log[..|q.log|] == q.log && q'.log[|q.log|].msg.header == Header(Pub(q.st.dhs), q.st.pn, 0)
            && p'.st.dhs == drawn && p'.st.dhr == Some(Pub(q.st.dhs)) && p'.st.nr == 1
            && p'.st.ckr == q'.st.cks && p'.st.pn == p.st.ns
            && p'.log == p.log && p'.received == p.received + {|q.log|}
  {
    hide After, AfterAll, Decrypted, Encrypted, Possible;
    var k := |run.Local(who).log|;
    var sent := SendStep(run, who, x, ad);
    next := TakeStep(sent, other, k, drawn);
    TwoSteps(run, Send(who, x, ad), Deliver(other, k, drawn));
    DiffieHellmanAgrees(drawn, run.Local(who).st.dhs, run.Local(who).st.dhs, drawn);
  }

  /** Two messages are sent, the first is opened, and its copy arrives: the second is lost. */
  lemma LosingTheNextHappens(x: bytes, y: bytes, ad: bytes)
    ensures var events := [Send(Alice, x, ad), Deliver(Bob, 0, 2)] + [Send(Alice, y, ad)];
            Possible(Handshaken(Random(0), 0, 1), events) &&
            var run := AfterAll(Handshaken(Random(0), 0, 1), events);
            && 0 in run.bob.received && |run.alice.log| == 2 && 3 !in run.used
            && run.alice.log[1].plaintext == y && run.alice.log[1].ad == ad
            && Delivered(run, Bob, 1, 3).1 == Success(y)
            && Decrypted(Delivered(run, Bob, 0, 3).0, 4, run.alice.log[1].msg, ad).1 == Failure(BadAead)
  {
    var start := Handshaken(Random(0), 0, 1);
    DiffieHellmanAgrees(0, 1, 1, 0);
    var r1 := Leg(start, Alice, Bob, x, ad, 2);
    hide After, AfterAll, Decrypted, Encrypted, Possible, DiffieHellman;
    var r2 := SendStep(r1, Alice, y, ad);
    EndsThere(r2);
    Steps(r1, Send(Alice, y, ad), []);
    var events := [Send(Alice, x, ad), Deliver(Bob, 0, 2)];
    assert [Send(Alice, y, ad)] + [] == [Send(Alice, y, ad)];
    RunsJoin(start, events, [Send(Alice, y, ad)]);
    hide Handshaken;
    CopyLosesTheNext(Random(0), 0, 1, events + [Send(Alice, y, ad)], Bob, 0, 3, 1, 4);
  }

  /** One message each way and one more back, and then a copy of the first: the agreement is gone. */
  lemma BreakingHappens(x: bytes, y: bytes, z: bytes, ad: bytes)
    ensures var events := [Send(Alice, x, ad), Deliver(Bob, 0, 2)] + ([Send(Bob, y, ad), Deliver(Alice, 0, 3)] + [Send(Alice, z, ad), Deliver(Bob, 1, 4)]);
            Possible(Handshaken(Random(0), 0, 1), events) &&
            var run := AfterAll(Handshaken(Random(0), 0, 1), events);
            && 0 in run.bob.received && |run.alice.log| == 2 && 5 !in run.used
            && (OneStepAhead(run, Alice) || OneStepAhead(run, Bob))
            && var after := run.With(Bob, run.bob.(st := Delivered(run, Bob, 0, 5).0), {5});
            !OneStepAhead(after, Alice) && !OneStepAhead(after, Bob)
  {
    var run := ThreeLegs(x, y, z, ad);
    hide *;
    var one, two := [Send(Alice, x, ad), Deliver(Bob, 0, 2)], [Send(Bob, y, ad), Deliver(Alice, 0, 3)];
    var events := one + (two + [Send(Alice, z, ad), Deliver(Bob, 1, 4)]);
    Agreement.Agreement(Random(0), 0, 1, events);
    CopyOfTheFirst(run, events);
  }

  lemma CopyOfTheFirst(run: Run, events: seq<Event>)
    requires Possible(Handshaken(Random(0), 0, 1), events) && run == AfterAll(Handshaken(Random(0), 0, 1), events)
    requires 0 in run.Local(Bob).received && |run.Local(Alice).log| == 2 && 5 !in run.used
    requires run.Local(Bob).st.dhr == Some(Pub(3)) && run.Local(Bob).st.skipped == []
    requires run.Local(Alice).log[0].msg.header == Header(Pub(0), 0, 0)
    ensures var after := run.With(Bob, run.bob.(st := Delivered(run, Bob, 0, 5).0), {5});
            && 0 in run.bob.received && |run.alice.log| == 2
            && !OneStepAhead(after, Alice) && !OneStepAhead(after, Bob)
  {
    hide AfterAll, Possible, Decrypted, OneStepAhead;
    CopyBreaksAgreement(Random(0), 0, 1, events, Bob, 0, 5);
  }

  lemma ThreeLegs(x: bytes, y: bytes, z: bytes, ad: bytes) returns (run: Run)
    ensures var start := Handshaken(Random(0), 0, 1);
            var events := [Send(Alice, x, ad), Deliver(Bob, 0, 2)] + ([Send(Bob, y, ad), Deliver(Alice, 0, 3)] + [Send(Alice, z, ad), Deliver(Bob, 1, 4)]);
            && Possible(start, events) && run == AfterAll(start, events)
            && 0 in run.Local(Bob).received && |run.Local(Alice).log| == 2 && 5 !in run.used
            && run.Local(Bob).st.dhr == Some(Pub(3)) && run.Local(Bob).st.skipped == []
            && run.Local(Alice).log[0].msg.header == Header(Pub(0), 0, 0)
  {
    var start := FirstTurn();
    hide *;
    var r1 := Leg(start, Alice, Bob, x, ad, 2);
    var r2 := Leg(r1, Bob, Alice, y, ad, 3);
    run := Leg(r2, Alice, Bob, z, ad, 4);
    TurnsAreEmpty(run);
    assert run.Local(Alice).log[..1] == r2.Local(Alice).log;
    ThreeRuns(start, [Send(Alice, x, ad), Deliver(Bob, 0, 2)], [Send(Bob, y, ad), Deliver(Alice, 0, 3)],
              [Send(Alice, z, ad), Deliver(Bob, 1, 4)]);
  }

  lemma FirstTurn() returns (start: Run)
    ensures start == Handshaken(Random(0), 0, 1) && OnTurn(start, Alice, Bob) && start.used == {0, 1}
    ensures start.Local(Alice).log == [] && start.Local(Bob).log == [] && start.Local(Bob).received == {}
    ensures start.Local(Alice).st.dhs == 0 && start.Local(Alice).st.pn == 0
  {
    start := Handshaken(Random(0), 0, 1);
    DiffieHellmanAgrees(0, 1, 1, 0);
  }

  lemma TurnsAreEmpty(run: Run)
    requires OnTurn(run, Bob, Alice)
    ensures run.Local(Bob).st.skipped == []
  {
  }

  lemma ThreeRuns(run: Run, a: seq<Event>, b: seq<Event>, c: seq<Event>)
    requires Possible(run, a) && Possible(AfterAll(run, a), b) && Possible(AfterAll(AfterAll(run, a), b), c)
    ensures Possible(run, a + (b + c)) && AfterAll(run, a + (b + c)) == AfterAll(AfterAll(AfterAll(run, a), b), c)
  {
    hide After, AfterAll, Possible;
    RunsJoin(AfterAll(run, a), b, c);
    RunsJoin(run, a, b + c);
  }
}
