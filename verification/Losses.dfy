// Runs in which messages come more than once, on the chain that is being followed. Such a copy does not
// part the two sides, but each one uses up a key. The main results: the exact answer to every message in
// any such run, and what a single copy costs a reader that has read everything: all that is written to it
// from then on, one by one, until a number is skipped or the writer's key changes.
module Losses {
  import opened Wrappers
  import opened Words
  import opened Symbolic
  import opened RatchetSpec
  import opened Delivery
  import opened Agreement
  import opened Duplicates
  import opened Repeats

  // ----- the invariant -----

  /** What a peer has sent is sealed right, under keys that were drawn, at the place its counter says. */
  ghost predicate Vouched(q: Side, used: set<PrivId>) {
    && q.st.dhs in used && (q.st.dhr.Some? ==> q.st.dhr.value.id in used)
    && (q.st.cks.Some? ==> Depth(q.st.cks.value) == q.st.ns)
    && (forall m | m in q.log :: SealedRight(m) && m.msg.header.dh.id in used)
  }

  predicate KeyLiesOn(e: SkippedKey, ck: Key) {
    e.mk.Message? && Base(e.mk.ck) == Base(ck) && Depth(e.mk.ck) == e.n
  }

  /** Every key in `p`'s cache is the true one for whatever `q` has sent or may still send under it. */
  ghost predicate CacheHonest(q: Side, p: Side, used: set<PrivId>) {
    && |p.st.skipped| <= MAX_SKIP
    && (forall e, m | e in p.st.skipped && m in q.log && Matches(e, m.msg.header) :: KeyOf(m) == e.mk)
    && (forall e | e in p.st.skipped :: e.dhPub.id in used)
    && (forall e | e in p.st.skipped && e.dhPub == Pub(q.st.dhs) :: q.st.cks.Some? && KeyLiesOn(e, q.st.cks.value))
  }

  ghost predicate Reads(q: Side, p: Side, used: set<PrivId>) {
    ChainsMatch(q, p) && CacheHonest(q, p, used)
  }

  /** `q` is one DH step ahead, on a chain `p` has yet to hear of. */
  ghost predicate Turn(q: Side, p: Side) {
    var link := DiffieHellman(p.st.dhs, Pub(q.st.dhs));
    && q.st.dhr == Some(Pub(p.st.dhs)) && p.st.dhr != Some(Pub(q.st.dhs)) && q.st.rk == Root(p.st.rk, link)
    && q.st.cks.Some? && Base(q.st.cks.value) == Chain(p.st.rk, link)
    && (forall m | m in q.log && m.msg.header.dh == Pub(q.st.dhs) :: LiesOn(m, Chain(p.st.rk, link)))
  }

  ghost predicate Lossy(q: Side, p: Side, used: set<PrivId>) {
    && Vouched(q, used) && Vouched(p, used) && Reads(q, p, used) && Reads(p, q, used) && (Turn(q, p) || Turn(p, q))
  }

  // ----- what may arrive -----

  predicate Cached(st: State, h: Header) {
    FirstMatch(st.skipped, h) < |st.skipped|
  }

  /** The message is cached, or of the chain being followed, or of the sender's present key, or turned away at
      once. What is left out is an uncached message of an older chain. */
  predicate Harmless(q: Side, p: Side, h: Header) {
    Cached(p.st, h) || p.st.dhr == Some(h.dh) || h.dh == Pub(q.st.dhs) || (p.st.ckr.Some? && RefusedAtOnce(p.st, h))
  }

  /** The receiving counter does not wrap. */
  predicate HasRoom(st: State, h: Header) {
    !Cached(st, h) && st.dhr == Some(h.dh) ==> st.nr + 1 < U32_LIMIT
  }

  predicate Tolerable(run: Run, e: Event) {
    && CanHappen(run, e)
    && (e.Deliver? ==>
          Harmless(run.Remote(e.who), run.Local(e.who), run.Remote(e.who).log[e.index].msg.header) &&
          HasRoom(run.Local(e.who).st, run.Remote(e.who).log[e.index].msg.header))
  }

  ghost predicate AllTolerable(run: Run, events: seq<Event>)
    requires Feasible(run, events)
    decreases |events|
  {
    events != [] ==> Tolerable(run, events[0]) && AllTolerable(Moved(run, events[0]), events[1..])
  }

  /** How many messages of the followed chain are still to be skipped before a DH step. */
  function Rest(st: State, h: Header): nat {
    if st.ckr.None? then 0 else SaturatingSub(h.pn, st.nr)
  }

  /** What the reader is told: a cached message opens; one of the followed chain opens if and only if its
      number has not been passed and the skip limit allows it; one of a new chain, if the limit does. */
  function Answer(st: State, m: Sent): Result<bytes, RatchetError> {
    var h := m.msg.header;
    if Cached(st, h) then Success(m.plaintext)
    else if st.dhr == Some(h.dh) then
      if st.ckr.None? then Failure(NotInitialized)
      else if h.n < st.nr then Failure(BadAead)
      else if h.n - st.nr + |st.skipped| > MAX_SKIP then Failure(TooManySkipped)
      else Success(m.plaintext)
    else if Rest(st, h) + |st.skipped| > MAX_SKIP then Failure(TooManySkipped)
    else if h.n + Rest(st, h) + |st.skipped| > MAX_SKIP then Failure(TooManySkipped)
    else Success(m.plaintext)
  }

  // ----- keys are determined by chain and place -----

  lemma {:induction false} KeyUnique(a: Key, b: Key)
    requires Base(a) == Base(b) && Depth(a) == Depth(b)
    ensures a == b
  {
    if a.Next? {
      assert b.Next?;
      KeyUnique(a.ck, b.ck);
    }
  }

  // ----- one delivery -----

  /** Catching up keeps the cache honest. */
  lemma SkippedReads(q: Side, p: Side, used: set<PrivId>, until: u32)
    requires Reads(q, p, used) && (p.st.dhr.Some? ==> p.st.dhr.value.id in used)
    ensures var s := Skipped(p.st, until);
            s.Success? ==> Reads(q, p.(st := s.value), used) && s.value == p.st.(ckr := s.value.ckr, nr := s.value.nr, skipped := s.value.skipped)
  {
    var s := Skipped(p.st, until);
    if s.Success? && p.st.ckr.Some? {
      var ck, dh, count := p.st.ckr.value, p.st.dhr.value, SaturatingSub(until, p.st.nr);
      AdvanceDeepens(ck, count);
      var run := SkippedRun(dh, ck, p.st.nr, count);
      forall e | e in run ensures KeyLiesOn(e, ck) && e.dhPub == dh {
        var i :| 0 <= i < |run| && run[i] == e;
        AdvanceDeepens(ck, i);
      }
      forall e, m | e in run && m in q.log && Matches(e, m.msg.header) ensures KeyOf(m) == e.mk {
        assert LiesOn(m, ck);
        KeyUnique(KeyOf(m).ck, e.mk.ck);
      }
    }
  }

  /** A message of the chain being followed. */
  lemma OpenedReads(q: Side, p: Side, used: set<PrivId>, m: Sent)
    requires Reads(q, p, used) && m in q.log && SealedRight(m) && m.msg.header.dh.id in used
    requires p.st.dhr == Some(m.msg.header.dh) && p.st.ckr.Some? && p.st.nr + 1 < U32_LIMIT && m.msg.header.n + 1 < U32_LIMIT
    ensures var (st, r) := Opened(p.st, m.msg, m.ad);
            && Reads(q, p.(st := st), used) && st == p.st.(ckr := st.ckr, nr := st.nr, skipped := st.skipped)
            && r == (if m.msg.header.n < p.st.nr then Failure(BadAead)
                     else if m.msg.header.n - p.st.nr + |p.st.skipped| > MAX_SKIP then Failure(TooManySkipped)
                     else Success(m.plaintext))
  {
    SkippedReads(q, p, used, m.msg.header.n);
    var s := Skipped(p.st, m.msg.header.n);
    if s.Success? {
      var ck := s.value.ckr.value;
      assert LiesOn(m, ck);
      NextReads(q, p.(st := s.value), used);
      if m.msg.header.n >= p.st.nr {
        KeyUnique(KeyOf(m).ck, ck);
      }
      TakesKey(s.value, m);
    }
  }

  lemma TakesKey(st: State, m: Sent)
    requires st.ckr.Some? && SealedRight(m)
    ensures AeadOpen(Message(st.ckr.value), m.msg.ciphertext, Aad(m.ad, m.msg.header)) ==
              if KeyOf(m) == Message(st.ckr.value) then Some(m.plaintext) else None
  {
  }

  lemma NextReads(q: Side, p: Side, used: set<PrivId>)
    requires Reads(q, p, used) && p.st.ckr.Some? && p.st.nr + 1 < U32_LIMIT
    ensures Reads(q, p.(st := p.st.(ckr := Some(Next(p.st.ckr.value)), nr := WrapInc(p.st.nr))), used)
  {
  }

  /** A cached message opens, and its entry is taken out. */
  lemma CachedReads(q: Side, p: Side, used: set<PrivId>, m: Sent, drawn: PrivId)
    requires Reads(q, p, used) && m in q.log && SealedRight(m) && Cached(p.st, m.msg.header)
    ensures var (st, r) := Decrypted(p.st, drawn, m.msg, m.ad);
            Reads(q, p.(st := st), used) && st == p.st.(skipped := st.skipped) && r == Success(m.plaintext)
  {
    var pos := FirstMatch(p.st.skipped, m.msg.header);
    var e := p.st.skipped[pos];
    assert e in p.st.skipped && KeyOf(m) == e.mk;
    var left := RemoveAt(p.st.skipped, pos);
    assert forall x | x in left :: x in p.st.skipped;
  }

  /** What receiving comes to when nothing is cached for the header. */
  lemma Uncached(st: State, drawn: PrivId, m: Sent)
    requires !Cached(st, m.msg.header)
    ensures Decrypted(st, drawn, m.msg, m.ad) ==
              if st.dhr == Some(m.msg.header.dh) then Opened(st, m.msg, m.ad)
              else match Skipped(st, m.msg.header.pn)
                   case Failure(e) => (st, Failure(e))
                   case Success(s) => Opened(Stepped(s, m.msg.header.dh, drawn), m.msg, m.ad)
  {
  }

  lemma NothingToOpen(st: State, m: Sent)
    requires st.ckr.None?
    ensures Opened(st, m.msg, m.ad) == (st, Failure(NotInitialized))
  {
  }

  /** A message whose number has a successor, as every one sent has. */
  ghost predicate Counted(q: Side) {
    forall m | m in q.log :: m.msg.header.n + 1 < U32_LIMIT
  }

  /** The step onto the sender's new chain. */
  lemma SteppedReads(q: Side, p: Side, used: set<PrivId>, s: State, drawn: PrivId)
    requires Reads(q, p.(st := s), used) && Turn(q, p) && s == p.st.(ckr := s.ckr, nr := s.nr, skipped := s.skipped)
    requires q.st.cks.Some? && Depth(q.st.cks.value) == q.st.ns
    ensures Reads(q, p.(st := Stepped(s, Pub(q.st.dhs), drawn)), used)
  {
    var link := DiffieHellman(p.st.dhs, Pub(q.st.dhs));
    var base := Chain(p.st.rk, link);
    assert Base(base) == base && Depth(base) == 0;
  }

  lemma SteppedTurns(q: Side, p: Side, p': Side, used: set<PrivId>, s: State, drawn: PrivId)
    requires Turn(q, p) && Vouched(p, used) && Vouched(q, used) && Reads(p, q, used) && drawn !in used
    requires s.rk == p.st.rk && s.dhs == p.st.dhs
    requires var stepped := Stepped(s, Pub(q.st.dhs), drawn);
             p'.log == p.log && p'.st == stepped.(ckr := p'.st.ckr, nr := p'.st.nr, skipped := p'.st.skipped)
    ensures Turn(p', q) && Vouched(p', used + {drawn}) && Reads(p', q, used + {drawn})
  {
    DiffieHellmanAgrees(drawn, q.st.dhs, q.st.dhs, drawn);
    var base := Chain(q.st.rk, DiffieHellman(drawn, Pub(q.st.dhs)));
    assert Base(base) == base && Depth(base) == 0;
  }

  lemma ReadsGrows(q: Side, p: Side, used: set<PrivId>, more: set<PrivId>)
    requires Reads(q, p, used) && Vouched(q, used) && used <= more
    ensures Reads(q, p, more) && Vouched(q, more)
  {
  }

  /** Only `p`'s receiving half differs. */
  lemma SameSenderStays(q: Side, p: Side, p': Side, used: set<PrivId>)
    requires SameSender(p', p) && Vouched(p, used) && Reads(p, q, used) && (Turn(q, p) || Turn(p, q))
    ensures Vouched(p', used) && Reads(p', q, used) && (Turn(q, p') || Turn(p', q))
  {
  }

  lemma OnChainDelivered(q: Side, p: Side, used: set<PrivId>, k: nat, drawn: PrivId)
    requires Lossy(q, p, used) && Counted(q) && k < |q.log| && drawn !in used && p.st.nr + 1 < U32_LIMIT
    requires !Cached(p.st, q.log[k].msg.header) && p.st.dhr == Some(q.log[k].msg.header.dh)
    ensures var p' := Received(q, p, k, drawn);
            Reads(q, p', used) && SameSender(p', p) && Decrypted(p.st, drawn, q.log[k].msg, q.log[k].ad).1 == Answer(p.st, q.log[k])
  {
    var m := q.log[k];
    assert m in q.log;
    Uncached(p.st, drawn, m);
    hide Decrypted, Opened, Turn;
    if p.st.ckr.None? {
      NothingToOpen(p.st, m);
    } else {
      OpenedReads(q, p, used, m);
    }
  }

  /** A message of the sender's present key, unheard of, or one turned away. */
  lemma OffChainDelivered(q: Side, p: Side, used: set<PrivId>, k: nat, drawn: PrivId)
    requires Lossy(q, p, used) && Counted(q) && k < |q.log| && drawn !in used
    requires !Cached(p.st, q.log[k].msg.header) && p.st.dhr != Some(q.log[k].msg.header.dh)
    requires Harmless(q, p, q.log[k].msg.header)
    ensures Decrypted(p.st, drawn, q.log[k].msg, q.log[k].ad).1 == Answer(p.st, q.log[k])
    ensures var p' := Received(q, p, k, drawn);
            p'.st == p.st || (Turn(q, p) && Lossy(p', q, used + {drawn}))
  {
    var m := q.log[k];
    assert m in q.log;
    Uncached(p.st, drawn, m);
    SkippedReads(q, p, used, m.msg.header.pn);
    SkippedCounts(p.st, m.msg.header.pn);
    var s := Skipped(p.st, m.msg.header.pn);
    hide Decrypted, Opened, Skipped, Reads, Vouched;
    if s.Success? {
      NewKeyIsTurn(q, p, used, k);
      Joins(q, p, used, s.value, k, drawn);
    }
  }

  lemma SkippedCounts(st: State, until: u32)
    ensures var s := Skipped(st, until);
            var count := if st.ckr.None? then 0 else SaturatingSub(until, st.nr);
            && (s.Failure? <==> st.ckr.Some? && count + |st.skipped| > MAX_SKIP)
            && (s.Failure? ==> s.error == TooManySkipped)
            && (s.Success? && (st.ckr.Some? ==> st.dhr.Some?) ==> |s.value.skipped| == |st.skipped| + count)
  {
  }

  /** Off the chain, uncached and not turned away, it is the sender's present key, and the sender's turn. */
  lemma NewKeyIsTurn(q: Side, p: Side, used: set<PrivId>, k: nat)
    requires Lossy(q, p, used) && k < |q.log| && p.st.dhr != Some(q.log[k].msg.header.dh)
    requires Harmless(q, p, q.log[k].msg.header) && !Cached(p.st, q.log[k].msg.header)
    requires !(p.st.ckr.Some? && RefusedAtOnce(p.st, q.log[k].msg.header))
    ensures q.log[k].msg.header.dh == Pub(q.st.dhs) && Turn(q, p)
  {
  }

  lemma Joins(q: Side, p: Side, used: set<PrivId>, s: State, k: nat, drawn: PrivId)
    requires Lossy(q, p, used) && Counted(q) && Turn(q, p) && k < |q.log| && drawn !in used && q.log[k].msg.header.dh == Pub(q.st.dhs)
    requires Reads(q, p.(st := s), used) && s == p.st.(ckr := s.ckr, nr := s.nr, skipped := s.skipped)
    ensures var m := q.log[k];
            var (st, r) := Opened(Stepped(s, m.msg.header.dh, drawn), m.msg, m.ad);
            && r == (if m.msg.header.n + |s.skipped| > MAX_SKIP then Failure(TooManySkipped) else Success(m.plaintext))
            && forall received :: Lossy(p.(st := st, received := received), q, used + {drawn})
  {
    var m := q.log[k];
    assert m in q.log;
    var p1 := p.(st := Stepped(s, Pub(q.st.dhs), drawn));
    SteppedReads(q, p, used, s, drawn);
    OpenedReads(q, p1, used, m);
    hide Opened, Skipped;
    var st := Opened(p1.st, m.msg, m.ad).0;
    forall received ensures Lossy(p.(st := st, received := received), q, used + {drawn}) {
      var p' := p.(st := st, received := received);
      SteppedTurns(q, p, p', used, s, drawn);
      ReadsGrows(q, p.(st := st), used, used + {drawn});
      ReadsIgnoresReceived(q, p.(st := st), p', used + {drawn});
    }
  }

  lemma ReadsIgnoresReceived(q: Side, p: Side, p': Side, used: set<PrivId>)
    requires Reads(q, p, used) && p'.st == p.st
    ensures Reads(q, p', used)
  {
  }

  /** One delivery: the exact answer, and the invariant. */
  lemma DeliverStaysLossy(q: Side, p: Side, used: set<PrivId>, k: nat, drawn: PrivId)
    requires Lossy(q, p, used) && Counted(q) && k < |q.log| && drawn !in used && HasRoom(p.st, q.log[k].msg.header)
    requires Harmless(q, p, q.log[k].msg.header)
    ensures Decrypted(p.st, drawn, q.log[k].msg, q.log[k].ad).1 == Answer(p.st, q.log[k])
    ensures Lossy(q, Received(q, p, k, drawn), used + {drawn}) && Received(q, p, k, drawn).log == p.log
  {
    var m, p' := q.log[k], Received(q, p, k, drawn);
    assert m in q.log;
    if Cached(p.st, m.msg.header) || p.st.dhr == Some(m.msg.header.dh) {
      if Cached(p.st, m.msg.header) {
        CachedReads(q, p, used, m, drawn);
        ReadsIgnoresReceived(q, p.(st := p'.st), p', used);
      } else {
        OnChainDelivered(q, p, used, k, drawn);
      }
      hide Decrypted, Harmless, Vouched, Reads, Turn;
      SameSenderStays(q, p, p', used);
      ReadsGrows(q, p', used, used + {drawn});
      ReadsGrows(p', q, used, used + {drawn});
    } else {
      OffChainDelivered(q, p, used, k, drawn);
      hide Decrypted, Harmless, Vouched, Reads, Turn;
      if p'.st == p.st {
        SameSenderStays(q, p, p', used);
        ReadsIgnoresReceived(q, p, p', used);
        ReadsGrows(q, p', used, used + {drawn});
        ReadsGrows(p', q, used, used + {drawn});
      }
    }
  }

  lemma SendStaysLossy(q: Side, p: Side, used: set<PrivId>, plaintext: bytes, ad: bytes)
    requires Lossy(q, p, used) && Counted(q) && q.st.cks.Some? && q.st.ns + 1 < U32_LIMIT
    ensures Lossy(SentOn(q, plaintext, ad), p, used) && Counted(SentOn(q, plaintext, ad))
  {
    SentOnAppends(q, plaintext, ad);
    SendMatches(q, p, plaintext, ad);
    SendIsVouched(q, used, plaintext, ad);
    SendStaysHonest(q, p, used, plaintext, ad);
    SendStaysTurn(q, p, plaintext, ad);
  }

  lemma SendIsVouched(q: Side, used: set<PrivId>, plaintext: bytes, ad: bytes)
    requires Vouched(q, used) && Counted(q) && q.st.cks.Some? && q.st.ns + 1 < U32_LIMIT
    ensures Vouched(SentOn(q, plaintext, ad), used) && Counted(SentOn(q, plaintext, ad))
  {
  }

  lemma SendStaysHonest(q: Side, p: Side, used: set<PrivId>, plaintext: bytes, ad: bytes)
    requires CacheHonest(q, p, used) && CacheHonest(p, q, used) && Vouched(q, used) && q.st.cks.Some? && q.st.ns + 1 < U32_LIMIT
    ensures CacheHonest(SentOn(q, plaintext, ad), p, used) && CacheHonest(p, SentOn(q, plaintext, ad), used)
  {
    var q' := SentOn(q, plaintext, ad);
    SentOnAppends(q, plaintext, ad);
    var next := q'.log[|q.log|];
    forall e, m | e in p.st.skipped && m in q'.log && Matches(e, m.msg.header) ensures KeyOf(m) == e.mk {
      if m !in q.log {
        assert m == next && KeyLiesOn(e, q.st.cks.value);
        KeyUnique(KeyOf(m).ck, e.mk.ck);
      }
    }
  }

  lemma SendStaysTurn(q: Side, p: Side, plaintext: bytes, ad: bytes)
    requires q.st.cks.Some? && q.st.ns + 1 < U32_LIMIT && Depth(q.st.cks.value) == q.st.ns
    ensures Turn(q, p) ==> Turn(SentOn(q, plaintext, ad), p)
    ensures Turn(p, q) ==> Turn(p, SentOn(q, plaintext, ad))
  {
    SentOnAppends(q, plaintext, ad);
    var q' := SentOn(q, plaintext, ad);
    forall m | m in q'.log ensures m in q.log || m == q'.log[|q.log|] {
    }
  }

  // ----- runs -----

  ghost predicate LossyRun(run: Run) {
    Lossy(run.alice, run.bob, run.used) && Counted(run.alice) && Counted(run.bob)
  }

  lemma LossyTurns(q: Side, p: Side, used: set<PrivId>)
    requires Lossy(q, p, used)
    ensures Lossy(p, q, used)
  {
  }

  lemma StepStaysLossy(run: Run, e: Event)
    requires LossyRun(run) && Tolerable(run, e)
    ensures LossyRun(Moved(run, e))
  {
    hide Decrypted, Encrypted, Lossy, Harmless;
    LossyTurns(run.alice, run.bob, run.used);
    match e
    case Send(who, plaintext, ad) =>
      var me := run.Local(who);
      assert run.used + {} == run.used;
      if me.st.cks.Some? {
        SendStaysLossy(me, run.Remote(who), run.used, plaintext, ad);
        LossyTurns(SentOn(me, plaintext, ad), run.Remote(who), run.used);
      }
    case Deliver(who, index, drawn) =>
      var q, p := run.Remote(who), run.Local(who);
      DeliverStaysLossy(q, p, run.used, index, drawn);
      LossyTurns(q, Received(q, p, index, drawn), run.used + {drawn});
  }

  lemma {:induction false} RunStaysLossy(run: Run, events: seq<Event>)
    requires LossyRun(run) && Feasible(run, events) && AllTolerable(run, events)
    ensures LossyRun(Through(run, events))
    decreases |events|
  {
    hide LossyRun, Moved, Tolerable, CanHappen;
    if events != [] {
      StepStaysLossy(run, events[0]);
      RunStaysLossy(Moved(run, events[0]), events[1..]);
    }
  }

  // ----- honest runs are of this kind -----

  lemma HandshakenIsLossy(sk: Key, a: PrivId, b: PrivId)
    requires a != b
    ensures LossyRun(Handshaken(sk, a, b))
  {
    DiffieHellmanAgrees(a, b, b, a);
    var base := Chain(sk, DiffieHellman(a, Pub(b)));
    assert Base(base) == base && Depth(base) == 0;
  }

  /** A message not yet opened is cached, or of the chain being followed, or of the sender's present key. */
  lemma UnopenedIsHarmless(q: Side, used: set<PrivId>, p: Side, k: nat)
    requires Genuine(q, used) && (Synced(q, p) || Behind(q, p)) && k < |q.log| && k !in p.received
    ensures Harmless(q, p, q.log[k].msg.header) && HasRoom(p.st, q.log[k].msg.header)
  {
    var cut := CutOf(q, p);
    if k < cut {
      LookupHits(q, used, p.received, cut, k);
      MissingRemoves(q.log, p.received, cut, k);
    } else {
      UnopenedIsLive(q, p, cut, k);
    }
  }

  lemma UnopenedIsLive(q: Side, p: Side, cut: nat, k: nat)
    requires cut == (if Synced(q, p) then |q.log| - q.st.ns + p.st.nr else |q.log| - q.st.ns - q.st.pn + p.st.nr)
    requires (Synced(q, p) || Behind(q, p)) && cut <= k < |q.log|
    ensures Harmless(q, p, q.log[k].msg.header) && HasRoom(p.st, q.log[k].msg.header)
  {
    var start := |q.log| - q.st.ns;
    if Synced(q, p) {
      assert Carries(q.log[k], Advance(p.st.ckr.value, k - cut), Pub(q.st.dhs), p.st.nr + (k - cut));
    } else if k < start {
      assert Carries(q.log[k], Advance(p.st.ckr.value, k - cut), p.st.dhr.value, p.st.nr + (k - cut));
    } else {
      var base := Chain(p.st.rk, DiffieHellman(p.st.dhs, Pub(q.st.dhs)));
      assert Carries(q.log[k], Advance(base, k - start), Pub(q.st.dhs), k - start);
    }
  }

  lemma EnabledIsTolerable(run: Run, e: Event)
    requires Paired(run) && Enabled(run, e)
    ensures Tolerable(run, e) && Moved(run, e) == After(run, e)
  {
    hide Decrypted, Synced, Behind, Genuine, Harmless, HasRoom;
    match e
    case Send(who, _, _) =>
      var me := run.Local(who);
      assert run.used + {} == run.used && me.log + [] == me.log;
    case Deliver(who, index, _) =>
      UnopenedIsHarmless(run.Remote(who), run.used, run.Local(who), index);
  }

  /** So what is said of these runs is said of every honest one, and of every continuation of one. */
  lemma {:induction false} HonestIsTolerable(run: Run, events: seq<Event>)
    requires Paired(run) && Possible(run, events)
    ensures Feasible(run, events) && AllTolerable(run, events) && Through(run, events) == AfterAll(run, events)
    decreases |events|
  {
    hide Paired, Enabled, After, Moved, Tolerable, CanHappen;
    if events != [] {
      EnabledIsTolerable(run, events[0]);
      TolerableCan(run, events[0]);
      StepStaysPaired(run, events[0]);
      HonestIsTolerable(After(run, events[0]), events[1..]);
    }
  }

  lemma TolerableCan(run: Run, e: Event)
    requires Tolerable(run, e)
    ensures CanHappen(run, e)
  {
  }

  /** Whatever arrives how often in such a run, the two sides stay one DH step apart, and both receiving
      chains stay on the peer's chain for the key being followed. */
  lemma CopiesKeepStep(sk: Key, a: PrivId, b: PrivId, events: seq<Event>)
    requires a != b && Feasible(Handshaken(sk, a, b), events) && AllTolerable(Handshaken(sk, a, b), events)
    ensures var run := Through(Handshaken(sk, a, b), events);
            && (Turn(run.alice, run.bob) || Turn(run.bob, run.alice))
            && ChainsMatch(run.alice, run.bob) && ChainsMatch(run.bob, run.alice)
  {
    HandshakenIsLossy(sk, a, b);
    RunStaysLossy(Handshaken(sk, a, b), events);
  }

  /** The exact answer to every message, opened before or not, in every such run. */
  lemma ExactAnswer(sk: Key, a: PrivId, b: PrivId, events: seq<Event>, who: Who, index: nat, drawn: PrivId)
    requires a != b && Feasible(Handshaken(sk, a, b), events) && AllTolerable(Handshaken(sk, a, b), events)
    requires Tolerable(Through(Handshaken(sk, a, b), events), Deliver(who, index, drawn))
    ensures var run := Through(Handshaken(sk, a, b), events);
            Delivered(run, who, index, drawn).1 == Answer(run.Local(who).st, run.Remote(who).log[index])
  {
    HandshakenIsLossy(sk, a, b);
    RunStaysLossy(Handshaken(sk, a, b), events);
    Answered(Through(Handshaken(sk, a, b), events), who, index, drawn);
  }

  lemma Answered(run: Run, who: Who, index: nat, drawn: PrivId)
    requires LossyRun(run) && Tolerable(run, Deliver(who, index, drawn))
    ensures Delivered(run, who, index, drawn).1 == Answer(run.Local(who).st, run.Remote(who).log[index])
  {
    hide Decrypted, Lossy, Harmless, HasRoom, Answer;
    LossyTurns(run.alice, run.bob, run.used);
    DeliverStaysLossy(run.Remote(who), run.Local(who), run.used, index, drawn);
  }

  // ----- what is lost is lost for good -----

  /** No cached key answers to the header, and if its key is the one being followed, its number is passed. */
  ghost predicate Spent(st: State, h: Header) {
    && (forall e | e in st.skipped :: !Matches(e, h))
    && (st.dhr == Some(h.dh) ==> st.ckr.Some? && h.n < st.nr)
  }

  lemma SkippedAdds(st: State, until: u32)
    ensures var s := Skipped(st, until);
            s.Success? ==>
              && s.value == st.(ckr := s.value.ckr, nr := s.value.nr, skipped := s.value.skipped)
              && st.nr <= s.value.nr && (st.ckr.Some? <==> s.value.ckr.Some?)
              && (s.value.nr == st.nr || s.value.nr == until)
              && (forall e | e in s.value.skipped :: e in st.skipped || (st.dhr == Some(e.dhPub) && st.ckr.Some? && st.nr <= e.n))
  {
    if st.ckr.Some? && st.dhr.Some? {
      var run := SkippedRun(st.dhr.value, st.ckr.value, st.nr, SaturatingSub(until, st.nr));
      assert forall e | e in run :: e.dhPub == st.dhr.value && st.nr <= e.n;
    }
  }

  lemma OpenedStaysSpent(st: State, m: RatchetMessage, ad: bytes, h: Header)
    requires Spent(st, h) && st.nr + 1 < U32_LIMIT && m.header.n + 1 < U32_LIMIT
    ensures Spent(Opened(st, m, ad).0, h) && Opened(st, m, ad).0.dhr == st.dhr
  {
    SkippedAdds(st, m.header.n);
  }

  /** Receiving brings no key back, unless a DH step is made onto the very key of the header. */
  lemma ReceivingStaysSpent(st: State, drawn: PrivId, m: RatchetMessage, ad: bytes, h: Header)
    requires Spent(st, h) && HasRoom(st, m.header) && m.header.n + 1 < U32_LIMIT
    requires Cached(st, m.header) ==> TriedSkipped(st, m, ad).1.Some?
    requires Cached(st, m.header) || st.dhr == Some(m.header.dh) || m.header.dh != h.dh
    ensures var after := Decrypted(st, drawn, m, ad).0;
            Spent(after, h) && (Cached(st, m.header) ==> after.dhr == st.dhr) && after.dhr in {st.dhr, Some(m.header.dh)}
  {
    if Cached(st, m.header) {
      assert forall e | e in RemoveAt(st.skipped, FirstMatch(st.skipped, m.header)) :: e in st.skipped;
    } else if st.dhr == Some(m.header.dh) {
      OpenedStaysSpent(st, m, ad, h);
    } else {
      SkippedAdds(st, m.header.pn);
      var s := Skipped(st, m.header.pn);
      if s.Success? {
        OpenedStaysSpent(Stepped(s.value, m.header.dh, drawn), m, ad, h);
      }
    }
  }

  /** Neither cached nor to come: the sender will not use the key of the header again unless the reader is
      still following it. */
  ghost predicate Gone(run: Run, who: Who, h: Header) {
    && Spent(run.Local(who).st, h) && h.dh.id in run.used
    && (run.Local(who).st.dhr == Some(h.dh) || h.dh != Pub(run.Remote(who).st.dhs))
  }

  lemma ReadingStaysGone(q: Side, p: Side, used: set<PrivId>, k: nat, drawn: PrivId, h: Header)
    requires Lossy(q, p, used) && Counted(q) && k < |q.log| && drawn !in used
    requires Harmless(q, p, q.log[k].msg.header) && HasRoom(p.st, q.log[k].msg.header)
    requires Spent(p.st, h) && (p.st.dhr == Some(h.dh) || h.dh != Pub(q.st.dhs))
    ensures var st := Received(q, p, k, drawn).st; Spent(st, h) && (st.dhr == Some(h.dh) || h.dh != Pub(q.st.dhs))
  {
    var m := q.log[k];
    assert m in q.log;
    if Cached(p.st, m.msg.header) {
      var e := p.st.skipped[FirstMatch(p.st.skipped, m.msg.header)];
      assert e in p.st.skipped && KeyOf(m) == e.mk;
    } else if p.st.dhr != Some(m.msg.header.dh) {
      OffChainDelivered(q, p, used, k, drawn);
    }
    if Received(q, p, k, drawn).st != p.st {
      ReceivingStaysSpent(p.st, drawn, m.msg, m.ad, h);
    }
  }

  lemma StepStaysGone(run: Run, e: Event, who: Who, h: Header)
    requires LossyRun(run) && Tolerable(run, e) && Gone(run, who, h)
    ensures Gone(Moved(run, e), who, h)
  {
    hide Decrypted, Lossy, Harmless, HasRoom, Spent;
    LossyTurns(run.alice, run.bob, run.used);
    match e
    case Send(sender, plaintext, ad) =>
      if run.Local(sender).st.cks.Some? {
        SendingSpendsNothing(run.Local(sender), plaintext, ad, h);
      }
    case Deliver(reader, index, drawn) =>
      if reader == who {
        ReadingStaysGone(run.Remote(who), run.Local(who), run.used, index, drawn, h);
        ReceivedKeepsKey(run.Remote(who), run.Local(who), index, drawn);
      } else {
        ReceivedKeepsKey(run.Local(who), run.Remote(who), index, drawn);
      }
  }

  lemma SendingSpendsNothing(q: Side, plaintext: bytes, ad: bytes, h: Header)
    requires q.st.cks.Some?
    ensures var st := SentOn(q, plaintext, ad).st;
            st.dhs == q.st.dhs && st.dhr == q.st.dhr && (Spent(st, h) <==> Spent(q.st, h))
  {
  }

  lemma ReceivedKeepsKey(q: Side, p: Side, k: nat, drawn: PrivId)
    requires k < |q.log|
    ensures Received(q, p, k, drawn).st.dhs in {p.st.dhs, drawn}
  {
  }

  lemma {:induction false} RunStaysGone(run: Run, events: seq<Event>, who: Who, h: Header)
    requires LossyRun(run) && Feasible(run, events) && AllTolerable(run, events) && Gone(run, who, h)
    ensures Gone(Through(run, events), who, h)
    decreases |events|
  {
    hide LossyRun, Moved, Tolerable, CanHappen, Gone;
    if events != [] {
      StepStaysGone(run, events[0], who, h);
      StepStaysLossy(run, events[0]);
      RunStaysGone(Moved(run, events[0]), events[1..], who, h);
    }
  }

  /** A message whose key is gone is refused. */
  lemma GoneIsRefused(run: Run, who: Who, index: nat, drawn: PrivId)
    requires LossyRun(run) && Tolerable(run, Deliver(who, index, drawn))
    requires Gone(run, who, run.Remote(who).log[index].msg.header)
    ensures Delivered(run, who, index, drawn).1.Failure?
  {
    Answered(run, who, index, drawn);
    hide Decrypted, Lossy;
  }

  /** The reader as a copy on the chain being followed leaves it, at the end of an honest run. */
  lemma CopyUsesUpAKey(sk: Key, a: PrivId, b: PrivId, events: seq<Event>, who: Who, index: nat,
                       drawn: PrivId) returns (run: Run)
    requires a != b && Possible(Handshaken(sk, a, b), events)
    requires CopyOnFollowed(AfterAll(Handshaken(sk, a, b), events), who, index, drawn)
    ensures run == AfterAll(Handshaken(sk, a, b), events) && run.Local(who).st.ckr.Some? && LossyRun(run)
    ensures Tolerable(run, Deliver(who, index, drawn)) && LossyRun(Moved(run, Deliver(who, index, drawn)))
    ensures var st := run.Local(who).st;
            Moved(run, Deliver(who, index, drawn)) ==
              run.With(who, run.Local(who).(st := st.(ckr := Some(Next(st.ckr.value)), nr := st.nr + 1)), {drawn})
    ensures forall e | e in run.Local(who).st.skipped && run.Local(who).st.dhr == Some(e.dhPub) :: e.n < run.Local(who).st.nr
    ensures run.Remote(who).log[index].msg.header.dh.id in run.used
  {
    run := Reached(sk, a, b, events);
    HonestIsLossy(sk, a, b, events);
    CopyTaken(run, who, index, drawn);
    hide *;
    StepStaysLossy(run, Deliver(who, index, drawn));
  }

  lemma HonestIsLossy(sk: Key, a: PrivId, b: PrivId, events: seq<Event>)
    requires a != b && Possible(Handshaken(sk, a, b), events)
    ensures LossyRun(AfterAll(Handshaken(sk, a, b), events))
  {
    HandshakePairs(sk, a, b);
    HonestIsTolerable(Handshaken(sk, a, b), events);
    HandshakenIsLossy(sk, a, b);
    RunStaysLossy(Handshaken(sk, a, b), events);
  }

  lemma CopyTaken(run: Run, who: Who, index: nat, drawn: PrivId)
    requires Paired(run) && Layers(run) && CopyOnFollowed(run, who, index, drawn)
    ensures Tolerable(run, Deliver(who, index, drawn)) && run.Local(who).st.ckr.Some?
    ensures var st := run.Local(who).st;
            Moved(run, Deliver(who, index, drawn)) ==
              run.With(who, run.Local(who).(st := st.(ckr := Some(Next(st.ckr.value)), nr := st.nr + 1)), {drawn})
    ensures forall e | e in run.Local(who).st.skipped && run.Local(who).st.dhr == Some(e.dhPub) :: e.n < run.Local(who).st.nr
    ensures run.Remote(who).log[index].msg.header.dh.id in run.used
  {
    hide Decrypted, Synced, Behind, Genuine, HalfLayered, Harmless;
    CopyReceived(run.Remote(who), run.used, run.Local(who), index, drawn);
  }

  lemma CopyReceived(q: Side, used: set<PrivId>, p: Side, k: nat, drawn: PrivId)
    requires Genuine(q, used) && (Synced(q, p) || Behind(q, p)) && HalfLayered(q, p) && k in p.received && k < |q.log|
    requires p.st.dhr == Some(q.log[k].msg.header.dh) && p.st.nr + 1 < U32_LIMIT
    ensures p.st.ckr.Some? && Harmless(q, p, q.log[k].msg.header) && q.log[k].msg.header.dh.id in used
    ensures Received(q, p, k, drawn) == p.(st := p.st.(ckr := Some(Next(p.st.ckr.value)), nr := p.st.nr + 1))
    ensures forall e | e in p.st.skipped && p.st.dhr == Some(e.dhPub) :: e.n < p.st.nr
  {
    assert q.log[k] in q.log && q.log[k].msg.header.dh.id in used;
    CopyOnChain(q, used, p, k, drawn);
    hide Decrypted, Synced, Behind, Genuine, HalfLayered;
    forall e | e in p.st.skipped && p.st.dhr == Some(e.dhPub) ensures e.n < p.st.nr {
      NothingCachedAhead(q, used, p, e);
    }
  }

  /** A message that has been opened comes again, and it is of the chain being followed. */
  ghost predicate CopyOnFollowed(run: Run, who: Who, index: nat, drawn: PrivId) {
    && index in run.Local(who).received && index < |run.Remote(who).log| && drawn !in run.used
    && run.Local(who).st.dhr == Some(run.Remote(who).log[index].msg.header.dh) && run.Local(who).st.nr + 1 < U32_LIMIT
  }

  /** One copy, and one message is lost for good: the first of the chain that had not been passed. Whether it
      was sent before the copy or is yet to be written, it opens in no continuation. */
  lemma CopyLosesForGood(sk: Key, a: PrivId, b: PrivId, events: seq<Event>, who: Who, index: nat, drawn: PrivId,
                         rest: seq<Event>, later: nat, drawn': PrivId)
    requires a != b && Possible(Handshaken(sk, a, b), events)
    requires CopyOnFollowed(AfterAll(Handshaken(sk, a, b), events), who, index, drawn)
    requires var spoiled := Moved(AfterAll(Handshaken(sk, a, b), events), Deliver(who, index, drawn));
             && Feasible(spoiled, rest) && AllTolerable(spoiled, rest) && Tolerable(Through(spoiled, rest), Deliver(who, later, drawn'))
    ensures var run := AfterAll(Handshaken(sk, a, b), events);
            var end := Through(Moved(run, Deliver(who, index, drawn)), rest);
            var h := end.Remote(who).log[later].msg.header;
            run.Local(who).st.dhr == Some(h.dh) && run.Local(who).st.nr == h.n ==> Delivered(end, who, later, drawn').1.Failure?
  {
    var run := CopyUsesUpAKey(sk, a, b, events, who, index, drawn);
    var spoiled := Moved(run, Deliver(who, index, drawn));
    var h := Through(spoiled, rest).Remote(who).log[later].msg.header;
    hide LossyRun, Tolerable, Delivered;
    if run.Local(who).st.dhr == Some(h.dh) && run.Local(who).st.nr == h.n {
      assert Gone(spoiled, who, h);
      RunStaysLossy(spoiled, rest);
      RunStaysGone(spoiled, rest, who, h);
      GoneIsRefused(Through(spoiled, rest), who, later, drawn');
    }
  }

  // ----- and with it what follows in order -----

  /** The reader has passed number `n` of the chain it follows, and has no key for it or for what comes after. */
  ghost predicate Late(st: State, n: nat) {
    st.dhr.Some? && st.ckr.Some? && n < st.nr && forall e | e in st.skipped && st.dhr == Some(e.dhPub) :: e.n < n
  }

  /** All that reaches `who` is of the chain it follows, in order and from number `n` on. */
  ghost predicate InOrder(run: Run, who: Who, n: nat, events: seq<Event>)
    requires Feasible(run, events)
    decreases |events|
  {
    events != [] ==>
      if events[0].Deliver? && events[0].who == who then
        var h := run.Remote(who).log[events[0].index].msg.header;
        run.Local(who).st.dhr == Some(h.dh) && h.n == n && InOrder(Moved(run, events[0]), who, n + 1, events[1..])
      else InOrder(Moved(run, events[0]), who, n, events[1..])
  }

  ghost predicate AllRefused(run: Run, who: Who, events: seq<Event>)
    requires Feasible(run, events)
    decreases |events|
  {
    events != [] ==>
      && (events[0].Deliver? && events[0].who == who ==>
            Delivered(run, who, events[0].index, events[0].drawn).1 == Failure(BadAead))
      && AllRefused(Moved(run, events[0]), who, events[1..])
  }

  lemma LateReads(run: Run, who: Who, index: nat, drawn: PrivId, n: nat)
    requires LossyRun(run) && Tolerable(run, Deliver(who, index, drawn)) && Late(run.Local(who).st, n)
    requires var h := run.Remote(who).log[index].msg.header; run.Local(who).st.dhr == Some(h.dh) && h.n == n
    ensures Delivered(run, who, index, drawn).1 == Failure(BadAead)
    ensures Late(Moved(run, Deliver(who, index, drawn)).Local(who).st, n + 1)
  {
    var m, st := run.Remote(who).log[index], run.Local(who).st;
    assert FirstMatch(st.skipped, m.msg.header) == |st.skipped|;
    Answered(run, who, index, drawn);
    LossyTurns(run.alice, run.bob, run.used);
    assert |st.skipped| <= MAX_SKIP;
    TriesTheNext(st, drawn, m.msg, m.ad);
  }

  lemma LateWaits(run: Run, who: Who, e: Event, n: nat)
    requires CanHappen(run, e) && Late(run.Local(who).st, n) && !(e.Deliver? && e.who == who)
    ensures Late(Moved(run, e).Local(who).st, n)
  {
  }

  /** Once it has passed what comes next, a reader that gets everything in order opens none of it: each
      message that fails uses up the key of the one after the next. */
  lemma {:induction false} InOrderIsLost(run: Run, who: Who, n: nat, events: seq<Event>)
    requires LossyRun(run) && Feasible(run, events) && AllTolerable(run, events)
    requires Late(run.Local(who).st, n) && InOrder(run, who, n, events)
    ensures AllRefused(run, who, events)
    decreases |events|
  {
    hide LossyRun, Moved, Tolerable, CanHappen, Late, Delivered;
    if events != [] {
      var e := events[0];
      StepStaysLossy(run, e);
      if e.Deliver? && e.who == who {
        LateReads(run, who, e.index, e.drawn, n);
        InOrderIsLost(Moved(run, e), who, n + 1, events[1..]);
      } else {
        TolerableCan(run, e);
        LateWaits(run, who, e, n);
        InOrderIsLost(Moved(run, e), who, n, events[1..]);
      }
    }
  }

  /** What one copy costs a reader that gets the rest of the chain in order, however much more is written to
      it: everything. */
  lemma CopyLosesAllInOrder(sk: Key, a: PrivId, b: PrivId, events: seq<Event>, who: Who, index: nat, drawn: PrivId, rest: seq<Event>)
    requires a != b && Possible(Handshaken(sk, a, b), events)
    requires CopyOnFollowed(AfterAll(Handshaken(sk, a, b), events), who, index, drawn)
    requires var run := AfterAll(Handshaken(sk, a, b), events);
             var spoiled := Moved(run, Deliver(who, index, drawn));
             && Feasible(spoiled, rest) && AllTolerable(spoiled, rest) && InOrder(spoiled, who, run.Local(who).st.nr, rest)
    ensures AllRefused(Moved(AfterAll(Handshaken(sk, a, b), events), Deliver(who, index, drawn)), who, rest)
  {
    var run := CopyUsesUpAKey(sk, a, b, events, who, index, drawn);
    assert Late(Moved(run, Deliver(who, index, drawn)).Local(who).st, run.Local(who).st.nr);
    hide LossyRun;
    InOrderIsLost(Moved(run, Deliver(who, index, drawn)), who, run.Local(who).st.nr, rest);
  }

  /** A text to be written, with the key its reader would draw. */
  datatype Letter = Letter(text: bytes, ad: bytes, drawn: PrivId)

  /** The texts are written to `who` one by one, from log entry `at` on, each reaching it before the next. */
  function Written(who: Who, at: nat, letters: seq<Letter>): seq<Event>
    decreases |letters|
  {
    if letters == [] then []
    else [Send(if who.Alice? then Bob else Alice, letters[0].text, letters[0].ad), Deliver(who, at, letters[0].drawn)] +
         Written(who, at + 1, letters[1..])
  }

  predicate FreshKeys(letters: seq<Letter>, used: set<PrivId>) {
    && (forall i | 0 <= i < |letters| :: letters[i].drawn !in used)
    && (forall i, j | 0 <= i < j < |letters| :: letters[i].drawn != letters[j].drawn)
  }

  /** A reader on the writer's present chain, already past the number the writer writes next. */
  ghost predicate Overtaken(run: Run, who: Who) {
    var q, p := run.Remote(who).st, run.Local(who).st;
    p.dhr == Some(Pub(q.dhs)) && q.cks.Some? && Late(p, q.ns)
  }

  lemma LetterIsLost(run: Run, who: Who, x: Letter) returns (sent: Run, next: Run)
    requires LossyRun(run) && Overtaken(run, who) && run.Local(who).st.nr + 1 < U32_LIMIT && x.drawn !in run.used
    ensures var send, take := Send(if who.Alice? then Bob else Alice, x.text, x.ad), Deliver(who, |run.Remote(who).log|, x.drawn);
            && Tolerable(run, send) && sent == Moved(run, send) && sent.Local(who) == run.Local(who)
            && Tolerable(sent, take) && next == Moved(sent, take)
            && var h := sent.Remote(who).log[|run.Remote(who).log|].msg.header;
            sent.Local(who).st.dhr == Some(h.dh) && h.n == run.Remote(who).st.ns
    ensures Overtaken(next, who) && LossyRun(next) && next.used == run.used + {x.drawn}
    ensures next.Local(who).st.nr == run.Local(who).st.nr + 1
    ensures next.Remote(who).st.ns == run.Remote(who).st.ns + 1 && |next.Remote(who).log| == |run.Remote(who).log| + 1
  {
    var send, take := Send(if who.Alice? then Bob else Alice, x.text, x.ad), Deliver(who, |run.Remote(who).log|, x.drawn);
    var q, p := run.Remote(who), run.Local(who);
    assert |p.st.skipped| <= MAX_SKIP && q.st.ns < p.st.nr;
    SentOnAppends(q, x.text, x.ad);
    SendIsNext(q, x.text, x.ad);
    hide Encrypted, Decrypted, Lossy;
    sent := Moved(run, send);
    assert run.used + {} == run.used;
    StepStaysLossy(run, send);
    var m := sent.Remote(who).log[|q.log|];
    assert FirstMatch(p.st.skipped, m.msg.header) == |p.st.skipped|;
    StepStaysLossy(sent, take);
    hide LossyRun;
    TriesTheNext(p.st, x.drawn, m.msg, m.ad);
    LateReads(sent, who, |q.log|, x.drawn, q.st.ns);
    next := Moved(sent, take);
  }

  lemma SendIsNext(q: Side, plaintext: bytes, ad: bytes)
    requires q.st.cks.Some?
    ensures SentOn(q, plaintext, ad).log[|q.log|].msg.header == Header(Pub(q.st.dhs), q.st.pn, q.st.ns)
  {
  }

  lemma {:induction false} LettersAreInOrder(run: Run, who: Who, letters: seq<Letter>)
    requires LossyRun(run) && Overtaken(run, who) && FreshKeys(letters, run.used)
    requires run.Local(who).st.nr + |letters| < U32_LIMIT
    ensures var events := Written(who, |run.Remote(who).log|, letters);
            Feasible(run, events) && AllTolerable(run, events) && InOrder(run, who, run.Remote(who).st.ns, events)
    decreases |letters|
  {
    hide LossyRun, Moved, Tolerable, CanHappen, Overtaken;
    if letters != [] {
      var events := Written(who, |run.Remote(who).log|, letters);
      var sent, next := LetterIsLost(run, who, letters[0]);
      LettersAreInOrder(next, who, letters[1..]);
      var rest := Written(who, |run.Remote(who).log| + 1, letters[1..]);
      TolerableCan(run, events[0]);
      TolerableCan(sent, events[1]);
      assert events[1..][1..] == rest && events[1..][0] == events[1];
      assert Feasible(sent, events[1..]) && AllTolerable(sent, events[1..]);
    }
  }

  /** In particular: a copy reaches a reader that has read all, and then texts are written to it, any number,
      each arriving before the next is written. It opens none of them. */
  lemma CopyLosesAllWritten(sk: Key, a: PrivId, b: PrivId, events: seq<Event>, who: Who, index: nat, drawn: PrivId,
                            letters: seq<Letter>)
    requires a != b && Possible(Handshaken(sk, a, b), events)
    requires CopyOnFollowed(AfterAll(Handshaken(sk, a, b), events), who, index, drawn)
    requires var run := AfterAll(Handshaken(sk, a, b), events);
             var p, q := run.Local(who).st, run.Remote(who).st;
             && p.dhr == Some(Pub(q.dhs)) && p.nr == q.ns && p.nr + 1 + |letters| < U32_LIMIT
             && FreshKeys(letters, run.used + {drawn})
    ensures var run := AfterAll(Handshaken(sk, a, b), events);
            var spoiled := Moved(run, Deliver(who, index, drawn));
            var rest := Written(who, |run.Remote(who).log|, letters);
            Feasible(spoiled, rest) && AllRefused(spoiled, who, rest)
  {
    var run := CopyUsesUpAKey(sk, a, b, events, who, index, drawn);
    var spoiled := Moved(run, Deliver(who, index, drawn));
    assert Overtaken(spoiled, who);
    hide LossyRun, Overtaken, Moved;
    LettersAreInOrder(spoiled, who, letters);
    InOrderIsLost(spoiled, who, run.Remote(who).st.ns, Written(who, |run.Remote(who).log|, letters)) by {
      assert Late(spoiled.Local(who).st, run.Remote(who).st.ns);
    }
  }

  /** The way out: a message with a number not yet passed, within the skip limit, opens; the reader is then
      just past it, and the keys of all numbers skipped on the way are cached. */
  lemma SkippingRecovers(run: Run, who: Who, index: nat, drawn: PrivId)
    requires LossyRun(run) && Tolerable(run, Deliver(who, index, drawn))
    requires var st, h := run.Local(who).st, run.Remote(who).log[index].msg.header;
             && st.ckr.Some? && st.dhr == Some(h.dh) && !Cached(st, h)
             && st.nr <= h.n && h.n - st.nr + |st.skipped| <= MAX_SKIP
    ensures var st, m := run.Local(who).st, run.Remote(who).log[index];
            var (after, r) := Delivered(run, who, index, drawn);
            && r == Success(m.plaintext) && after.dhr == st.dhr && after.nr == m.msg.header.n + 1
            && forall h: Header | h.dh == m.msg.header.dh && st.nr <= h.n < m.msg.header.n :: Cached(after, h)
  {
    var st, m := run.Local(who).st, run.Remote(who).log[index];
    Answered(run, who, index, drawn);
    Uncached(st, drawn, m);
    var after := Delivered(run, who, index, drawn).0;
    var skips := SkippedRun(st.dhr.value, st.ckr.value, st.nr, m.msg.header.n - st.nr);
    assert m in run.Remote(who).log;
    assert after.skipped == st.skipped + skips;
    forall h: Header | h.dh == m.msg.header.dh && st.nr <= h.n < m.msg.header.n ensures Cached(after, h) {
      assert after.skipped[|st.skipped| + (h.n - st.nr)] == skips[h.n - st.nr];
    }
  }

  /** What the copy does to the agreement of an honest run: the reader's view of the sender's chain survives
      exactly while there is something on it left to read. */
  lemma CopyKeepsStep(sk: Key, a: PrivId, b: PrivId, events: seq<Event>, who: Who, index: nat, drawn: PrivId, side: Who)
    requires a != b && Possible(Handshaken(sk, a, b), events)
    requires CopyOnFollowed(AfterAll(Handshaken(sk, a, b), events), who, index, drawn)
    ensures var run := AfterAll(Handshaken(sk, a, b), events);
            OneStepAhead(Moved(run, Deliver(who, index, drawn)), side) <==>
              OneStepAhead(run, side) && (side == who ==> run.Local(who).st.nr < run.Remote(who).st.ns)
  {
    var run := CopyUsesUpAKey(sk, a, b, events, who, index, drawn);
    assert run.Local(who).st.dhr == Some(Pub(run.Remote(who).st.dhs)) ==> run.Remote(who).st.cks.Some?;
    hide *;
    StepAfterKey(run, who, drawn, side);
  }

  lemma StepAfterKey(run: Run, who: Who, drawn: PrivId, side: Who)
    requires var st := run.Local(who).st;
             && st.ckr.Some? && st.nr + 1 < U32_LIMIT
             && (st.dhr == Some(Pub(run.Remote(who).st.dhs)) ==> run.Remote(who).st.cks.Some?)
    ensures var st := run.Local(who).st;
            var after := run.With(who, run.Local(who).(st := st.(ckr := Some(Next(st.ckr.value)), nr := st.nr + 1)), {drawn});
            OneStepAhead(after, side) <==> OneStepAhead(run, side) && (side == who ==> st.nr < run.Remote(who).st.ns)
  {
    var p, q := run.Local(who).st, run.Remote(who).st;
    if side == who && p.nr < q.ns {
      AdvanceAdds(p.ckr.value, 1, q.ns - p.nr - 1);
      assert Advance(p.ckr.value, 1) == Next(Advance(p.ckr.value, 0));
    }
  }
}
