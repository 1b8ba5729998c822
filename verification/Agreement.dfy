// Root and chain agreement between two honest peers, in every state a run can reach.
module Agreement {
  import opened Wrappers
  import opened Words
  import opened Symbolic
  import opened RatchetSpec
  import opened Delivery

  /** `who`'s cache holds, without repetition and in sending order, the true keys of exactly the messages
      it has walked past and not opened. */
  ghost predicate CacheTrue(run: Run, who: Who) {
    exists cut: nat :: cut <= |run.Remote(who).log| && (forall i | i in run.Local(who).received :: i < cut) &&
      run.Local(who).st.skipped == Missing(run.Remote(who).log, run.Local(who).received, cut)
  }

  /** `who` is exactly one DH step ahead: its root key is the other's after one KDF_RK over a DH output
      both can compute, and it receives on the other's sending chain, `ns - nr` steps earlier. */
  ghost predicate OneStepAhead(run: Run, who: Who) {
    var q, p := run.Local(who).st, run.Remote(who).st;
    && q.rk == Root(p.rk, DiffieHellman(p.dhs, Pub(q.dhs))) && q.dhr == Some(Pub(p.dhs))
    && DiffieHellman(p.dhs, Pub(q.dhs)) == DiffieHellman(q.dhs, Pub(p.dhs))
    && q.cks == Some(Advance(Chain(p.rk, DiffieHellman(p.dhs, Pub(q.dhs))), q.ns))
    && (p.cks.Some? ==> q.ckr.Some? && q.nr <= p.ns && p.cks.value == Advance(q.ckr.value, p.ns - q.nr))
  }

  lemma CachesTrue(q: Side, p: Side, run: Run, who: Who)
    requires run.Remote(who) == q && run.Local(who) == p && (Synced(q, p) || Behind(q, p))
    ensures CacheTrue(run, who)
  {
    var cut: nat := if Synced(q, p) then |q.log| - q.st.ns + p.st.nr else |q.log| - q.st.ns - q.st.pn + p.st.nr;
    assert Caught(q.log, p, cut);
  }

  /** No (key, number) pair is cached twice, so a lookup can only find the right entry. */
  ghost predicate CacheDistinct(run: Run, who: Who) {
    var cache := run.Local(who).st.skipped;
    forall i, j | 0 <= i < j < |cache| :: cache[i].dhPub != cache[j].dhPub || cache[i].n != cache[j].n
  }

  lemma {:induction false} MissingSorted(log: seq<Sent>, received: set<nat>, cut: nat, i: nat, j: nat)
    requires cut <= |log| && i < j < |Missing(log, received, cut)|
    ensures exists x, y :: 0 <= x < y < cut &&
              Missing(log, received, cut)[i] == Entry(log[x]) && Missing(log, received, cut)[j] == Entry(log[y])
  {
    if j < |Missing(log, received, cut - 1)| {
      MissingSorted(log, received, cut - 1, i, j);
    } else {
      var x := MissingFrom(log, received, cut - 1, i);
      assert Missing(log, received, cut)[j] == Entry(log[cut - 1]);
    }
  }

  lemma CachesDistinct(run: Run, who: Who)
    requires Genuine(run.Remote(who), run.used) && CacheTrue(run, who)
    ensures CacheDistinct(run, who)
  {
    var q, p := run.Remote(who), run.Local(who);
    var cut: nat :| cut <= |q.log| && p.st.skipped == Missing(q.log, p.received, cut);
    forall i, j | 0 <= i < j < |p.st.skipped|
      ensures p.st.skipped[i].dhPub != p.st.skipped[j].dhPub || p.st.skipped[i].n != p.st.skipped[j].n
    {
      MissingSorted(q.log, p.received, cut, i, j);
    }
  }

  lemma PairedAgrees(run: Run)
    requires Paired(run)
    ensures OneStepAhead(run, Alice) || OneStepAhead(run, Bob)
    ensures forall who: Who :: CacheTrue(run, who) && CacheDistinct(run, who)
  {
    hide Genuine, Outrun, OnChain, Caught, CacheTrue, CacheDistinct, Advance;
    forall who: Who ensures CacheTrue(run, who) && CacheDistinct(run, who) {
      CachesTrue(run.Remote(who), run.Local(who), run, who);
      CachesDistinct(run, who);
    }
    DiffieHellmanAgrees(run.bob.st.dhs, run.alice.st.dhs, run.alice.st.dhs, run.bob.st.dhs);
    assert OneStepAhead(run, if Leads(run.alice, run.bob) then Alice else Bob);
  }

  // ----- the receiving chain -----

  /** What `p` receives on is the chain `q` sends, or sent, under the key `p` follows, `nr` steps from its
      start: every message of that key lies on it, at the place its number says, and if `q` is still using
      the key, so does its sending chain. */
  ghost predicate ChainsMatch(q: Side, p: Side) {
    p.st.ckr.Some? ==>
      && p.st.dhr.Some?
      && Depth(p.st.ckr.value) == p.st.nr
      && (forall m | m in q.log && p.st.dhr == Some(m.msg.header.dh) :: LiesOn(m, p.st.ckr.value))
      && (p.st.dhr == Some(Pub(q.st.dhs)) ==>
            q.st.cks.Some? && Base(q.st.cks.value) == Base(p.st.ckr.value) && Depth(q.st.cks.value) == q.st.ns)
  }

  predicate LiesOn(m: Sent, ck: Key) {
    KeyOf(m).Message? && Base(KeyOf(m).ck) == Base(ck) && Depth(KeyOf(m).ck) == m.msg.header.n
  }

  lemma SendMatches(q: Side, p: Side, plaintext: bytes, ad: bytes)
    requires ChainsMatch(q, p) && ChainsMatch(p, q) && q.st.cks.Some? && q.st.ns + 1 < U32_LIMIT
    ensures ChainsMatch(SentOn(q, plaintext, ad), p) && ChainsMatch(p, SentOn(q, plaintext, ad))
  {
    var q' := SentOn(q, plaintext, ad);
    SentOnAppends(q, plaintext, ad);
    forall m | m in q'.log && p.st.ckr.Some? && p.st.dhr == Some(m.msg.header.dh) ensures LiesOn(m, p.st.ckr.value) {
      assert m in q.log || m == q'.log[|q.log|];
    }
  }

  /** Following a chain on to one of its messages. */
  lemma CatchingUpMatches(q: Side, p: Side, cut: nat, k: nat)
    requires ChainsMatch(q, p) && p.st.ckr.Some? && cut <= k < |q.log| && p.st.nr + (k - cut) + 1 < U32_LIMIT
    ensures ChainsMatch(q, p.(st := Caughtup(p.st, q.log, p.received, cut, k), received := p.received + {k}))
  {
    hide Missing;
    AdvanceDeepens(p.st.ckr.value, k - cut + 1);
  }

  lemma FollowingMatches(q: Side, used: set<PrivId>, p: Side, cut: nat, k: nat, to: nat, drawn: PrivId)
    requires Genuine(q, used) && Caught(q.log, p, cut) && k < to <= |q.log| && k !in p.received && ChainsMatch(q, p)
    requires k >= cut ==> p.st.ckr.Some? && p.st.dhr.Some? && p.st.nr + (to - cut) < U32_LIMIT
    requires k >= cut ==> OnChain(q.log, cut, to, p.st.ckr.value, p.st.dhr.value, p.st.nr)
    ensures ChainsMatch(q, Received(q, p, k, drawn)) && SameSender(Received(q, p, k, drawn), p)
  {
    hide Missing, Undelivered, Decrypted, OnChain;
    if k < cut {
      OpensCached(q, used, p, cut, k, drawn);
    } else {
      DeliversLive(q, used, p, cut, k, to, drawn);
      if Undelivered(p.received, k) <= MAX_SKIP {
        CatchingUpMatches(q, p, cut, k);
      }
    }
  }

  /** Messages of the key a peer is at now all belong to the chain it is sending on. */
  lemma CurrentChainLies(q: Side, used: set<PrivId>, base: Key)
    requires Genuine(q, used) && Base(base) == base && Depth(base) == 0
    requires OnChain(q.log, |q.log| - q.st.ns, |q.log|, base, Pub(q.st.dhs), 0)
    ensures forall m | m in q.log && m.msg.header.dh == Pub(q.st.dhs) :: LiesOn(m, base)
  {
    var start := |q.log| - q.st.ns;
    forall m | m in q.log && m.msg.header.dh == Pub(q.st.dhs) ensures LiesOn(m, base) {
      var k :| 0 <= k < |q.log| && q.log[k] == m;
      NumberTaken(q, used, start, |q.log|, base, Pub(q.st.dhs), 0, k);
      assert Carries(q.log[k], Advance(base, k - start), Pub(q.st.dhs), k - start);
      AdvanceDeepens(base, k - start);
    }
  }

  /** The chain a DH step makes is the one the peer sends on. */
  lemma SteppingMatches(q: Side, used: set<PrivId>, p: Side, s: State, drawn: PrivId)
    requires Genuine(q, used) && Behind(q, p) && s.rk == p.st.rk && s.dhs == p.st.dhs
    ensures ChainsMatch(q, Joined(q, p, s, drawn))
  {
    var base := Chain(p.st.rk, DiffieHellman(p.st.dhs, Pub(q.st.dhs)));
    assert Base(base) == base && Depth(base) == 0;
    AdvanceDeepens(base, q.st.ns);
    hide Outrun, Follows, Caught, OnChain, Genuine, LiesOn;
    CurrentChainLies(q, used, base);
  }

  lemma NewMatches(q: Side, used: set<PrivId>, p: Side, k: nat, drawn: PrivId)
    requires Genuine(q, used) && Genuine(p, used) && Leads(q, p) && |q.log| - q.st.ns <= k < |q.log| && k !in p.received
    requires q.st.dhs != drawn && p.st.dhs != drawn && ChainsMatch(q, p)
    ensures ChainsMatch(q, Received(q, p, k, drawn))
  {
    hide Decrypted, Outrun, Follows, Caught, Missing, Undelivered, OnChain;
    var start := |q.log| - q.st.ns;
    NewTakesStep(q, used, p, k, drawn);
    CatchesUp(q, p);
    StepLeads(q, p, used, drawn);
    var s := Skipped(p.st, q.st.pn);
    if s.Success? {
      SteppingMatches(q, used, p, s.value, drawn);
      OpeningMatches(q, Joined(q, p, s.value, drawn), k);
    }
  }

  /** The message that caused the step is then one of the chain. */
  lemma OpeningMatches(q: Side, p1: Side, k: nat)
    requires Leads(p1, q) && p1.st.nr == 0 && |q.log| - q.st.ns <= k < |q.log| && SealedRight(q.log[k]) && ChainsMatch(q, p1)
    ensures var (st, r) := Opened(p1.st, q.log[k].msg, q.log[k].ad);
            ChainsMatch(q, p1.(st := st, received := if r.Success? then p1.received + {k} else p1.received))
  {
    hide Missing, Undelivered, Outrun, Caught, OnChain, Genuine, Opened;
    var start := |q.log| - q.st.ns;
    assert p1.st.ckr.Some? && q.st.cks.Some?;
    OpensLive(q.log, p1, start, k, |q.log|);
    if Undelivered(p1.received, k) <= MAX_SKIP {
      CatchingUpMatches(q, p1, start, k);
    }
  }

  lemma ReceivedMatches(q: Side, p: Side, used: set<PrivId>, k: nat, drawn: PrivId)
    requires Genuine(q, used) && Genuine(p, used) && (Leads(q, p) || Leads(p, q)) && ChainsMatch(q, p) && ChainsMatch(p, q)
    requires k < |q.log| && k !in p.received && drawn !in used
    ensures ChainsMatch(q, Received(q, p, k, drawn)) && ChainsMatch(Received(q, p, k, drawn), q)
  {
    hide Decrypted, Outrun, Caught, Missing, Undelivered, OnChain;
    var start := |q.log| - q.st.ns;
    if Leads(p, q) {
      FollowingMatches(q, used, p, start + p.st.nr, k, |q.log|, drawn);
    } else if k < start {
      FollowingMatches(q, used, p, start - q.st.pn + p.st.nr, k, start, drawn);
    } else {
      NewMatches(q, used, p, k, drawn);
      DeliversNew(q, used, p, k, drawn);
    }
  }

  lemma StepMatches(run: Run, e: Event)
    requires Paired(run) && Enabled(run, e) && ChainsMatch(run.bob, run.alice) && ChainsMatch(run.alice, run.bob)
    ensures var after := After(run, e); ChainsMatch(after.bob, after.alice) && ChainsMatch(after.alice, after.bob)
  {
    hide ChainsMatch, Decrypted, Genuine, Leads;
    match e
    case Send(who, plaintext, ad) =>
      var me := run.Local(who);
      assert run.used + {} == run.used && me.log + [] == me.log;
      if me.st.cks.Some? {
        SendMatches(me, run.Remote(who), plaintext, ad);
      } else {
        assert After(run, e) == run;
      }
    case Deliver(who, index, drawn) =>
      ReceivedMatches(run.Remote(who), run.Local(who), run.used, index, drawn);
  }

  lemma {:induction false} RunMatches(run: Run, events: seq<Event>)
    requires Paired(run) && Possible(run, events) && ChainsMatch(run.bob, run.alice) && ChainsMatch(run.alice, run.bob)
    ensures var end := AfterAll(run, events); ChainsMatch(end.bob, end.alice) && ChainsMatch(end.alice, end.bob)
    decreases |events|
  {
    hide Paired, ChainsMatch, After, Enabled;
    if events != [] {
      StepMatches(run, events[0]);
      StepStaysPaired(run, events[0]);
      RunMatches(After(run, events[0]), events[1..]);
    }
  }

  /** Root and chain agreement, in every reachable state: the roots are one DH step apart; on both sides the
      receiving chain is the peer's sending chain for the key followed, `nr` steps from its start; and both
      caches hold the true keys, each once. */
  lemma Agreement(sk: Key, a: PrivId, b: PrivId, events: seq<Event>)
    requires a != b && Possible(Handshaken(sk, a, b), events)
    ensures var run := AfterAll(Handshaken(sk, a, b), events);
            && (OneStepAhead(run, Alice) || OneStepAhead(run, Bob))
            && (forall who: Who :: ChainsMatch(run.Remote(who), run.Local(who)))
            && (forall who: Who :: CacheTrue(run, who) && CacheDistinct(run, who))
  {
    HandshakePairs(sk, a, b);
    RunStaysPaired(Handshaken(sk, a, b), events);
    RunMatches(Handshaken(sk, a, b), events);
    PairedAgrees(AfterAll(Handshaken(sk, a, b), events));
  }
}
