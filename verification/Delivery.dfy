// Two honest peers and a network that may lose, delay and reorder messages but delivers each at most
// once. The main result is `HonestDelivery`: whatever the schedule, a message that arrives opens to the
// plaintext that was sent, unless more than MAX_SKIP earlier messages of its sender are still missing.
module Delivery {
  import opened Wrappers
  import opened Words
  import opened Symbolic
  import opened RatchetSpec

  // ----- runs -----

  datatype Sent = Sent(msg: RatchetMessage, plaintext: bytes, ad: bytes)

  /** One peer: its session, what it has sent, and which of the other's messages it has opened. */
  datatype Side = Side(st: State, log: seq<Sent>, received: set<nat>)

  datatype Who = Alice | Bob

  /** `used` holds every private key drawn so far. */
  datatype Run = Run(alice: Side, bob: Side, used: set<PrivId>) {
    function Local(who: Who): Side { if who.Alice? then alice else bob }
    function Remote(who: Who): Side { if who.Alice? then bob else alice }
    function With(who: Who, side: Side, drawn: set<PrivId>): Run {
      if who.Alice? then Run(side, bob, used + drawn) else Run(alice, side, used + drawn)
    }
  }

  /** `Deliver(who, index, drawn)`: the peer's message `index` reaches `who`, which draws the key `drawn`
      should it need one. */
  datatype Event = Send(who: Who, plaintext: bytes, ad: bytes) | Deliver(who: Who, index: nat, drawn: PrivId)

  /** Keys are drawn afresh, no message is opened twice, and no u32 counter wraps. */
  predicate Enabled(run: Run, e: Event) {
    match e
    case Send(who, _, _) => run.Local(who).st.ns + 1 < U32_LIMIT
    case Deliver(who, index, drawn) =>
      index < |run.Remote(who).log| && index !in run.Local(who).received && drawn !in run.used
  }

  function Delivered(run: Run, who: Who, index: nat, drawn: PrivId): (State, Result<bytes, RatchetError>)
    requires index < |run.Remote(who).log|
  {
    var m := run.Remote(who).log[index];
    Decrypted(run.Local(who).st, drawn, m.msg, m.ad)
  }

  function After(run: Run, e: Event): Run
    requires Enabled(run, e)
  {
    match e
    case Send(who, plaintext, ad) =>
      var me := run.Local(who);
      var (st, r) := Encrypted(me.st, plaintext, ad);
      var entry := if r.Success? then [Sent(r.value, plaintext, ad)] else [];
      run.With(who, me.(st := st, log := me.log + entry), {})
    case Deliver(who, index, drawn) =>
      var me := run.Local(who);
      var (st, r) := Delivered(run, who, index, drawn);
      run.With(who, me.(st := st, received := if r.Success? then me.received + {index} else me.received), {drawn})
  }

  ghost predicate Possible(run: Run, events: seq<Event>)
    decreases |events|
  {
    events != [] ==> Enabled(run, events[0]) && Possible(After(run, events[0]), events[1..])
  }

  ghost function AfterAll(run: Run, events: seq<Event>): Run
    requires Possible(run, events)
    decreases |events|
  {
    if events == [] then run else AfterAll(After(run, events[0]), events[1..])
  }

  /** Both peers right after a handshake that agreed on `sk`: `a` is the initiator's first ratchet key,
      `b` the responder's signed prekey. */
  function Handshaken(sk: Key, a: PrivId, b: PrivId): Run {
    Run(Side(NewInitiator(sk, Pub(b), a), [], {}), Side(NewResponder(sk, b), [], {}), {a, b})
  }

  /** How many of the first `k` messages have not been opened. */
  function Undelivered(received: set<nat>, k: nat): nat {
    if k == 0 then 0 else Undelivered(received, k - 1) + (if k - 1 in received then 0 else 1)
  }

  // ----- the invariant -----

  function KeyOf(s: Sent): Key {
    if s.msg.ciphertext.Sealed? then s.msg.ciphertext.key else Random(0)
  }

  function Entry(s: Sent): SkippedKey {
    SkippedKey(s.msg.header.dh, s.msg.header.n, KeyOf(s))
  }

  /** The cache a receiver that has walked past the first `cut` messages must hold: the true keys of
      those not opened, in sending order. */
  function Missing(log: seq<Sent>, received: set<nat>, cut: nat): seq<SkippedKey>
    requires cut <= |log|
  {
    if cut == 0 then []
    else Missing(log, received, cut - 1) + (if cut - 1 in received then [] else [Entry(log[cut - 1])])
  }

  /** `s` is number `n` of the chain of `dh`, sealed with the key taken at chain key `ck`. */
  predicate Carries(s: Sent, ck: Key, dh: Pub, n: int) {
    s.msg.header.dh == dh && s.msg.header.n == n && KeyOf(s) == Message(ck)
  }

  /** Messages `from..to` carry the numbers from `n` on of the chain of `dh`, and are sealed with the keys
      of that chain, which stands at `ck` for message `from`. */
  ghost predicate OnChain(log: seq<Sent>, from: int, to: int, ck: Key, dh: Pub, n: int) {
    && 0 <= from <= to <= |log|
    && forall k | from <= k < to :: Carries(log[k], Advance(ck, k - from), dh, n + (k - from))
  }

  ghost predicate Genuine(q: Side, used: set<PrivId>) {
    && q.st.dhs in used
    && (forall m | m in q.log ::
          && SealedRight(m)
          && m.msg.header.dh.id in used
          && (m.msg.header.dh == Pub(q.st.dhs) ==> m.msg.header.n < q.st.ns))
    && (forall j, k | 0 <= j < k < |q.log| :: !Matches(Entry(q.log[j]), q.log[k].msg.header))
  }

  ghost predicate Caught(log: seq<Sent>, p: Side, cut: int) {
    && 0 <= cut <= |log|
    && (forall i | i in p.received :: i < cut)
    && p.st.skipped == Missing(log, p.received, cut)
    && |p.st.skipped| <= MAX_SKIP
  }

  /** `p` receives on the chain `q` is sending on: `p`'s chain key is `q`'s, `ns - nr` steps earlier. */
  ghost predicate Synced(q: Side, p: Side) {
    && p.st.dhr == Some(Pub(q.st.dhs))
    && p.st.nr <= q.st.ns <= |q.log|
    && var cut := |q.log| - q.st.ns + p.st.nr;
    && Caught(q.log, p, cut)
    && match q.st.cks
       case None => p.st.ckr == None && q.log == []
       case Some(ck) =>
         && p.st.ckr.Some?
         && ck == Advance(p.st.ckr.value, q.st.ns - p.st.nr)
         && OnChain(q.log, cut, |q.log|, p.st.ckr.value, Pub(q.st.dhs), p.st.nr)
  }

  /** Among the first `start` messages, those of the chain of `dh` carry numbers below `pn`. */
  ghost predicate Outrun(log: seq<Sent>, start: int, dh: Option<Pub>, pn: int) {
    forall k | 0 <= k < start && k < |log| && dh == Some(log[k].msg.header.dh) :: log[k].msg.header.n < pn
  }

  /** The receiver is on the chain that messages `cut..start` belong to, if any were sent before. */
  ghost predicate Follows(log: seq<Sent>, cut: int, start: int, st: State) {
    match st.ckr
    case None => start == 0
    case Some(ck) => st.dhr.Some? && OnChain(log, cut, start, ck, st.dhr.value, st.nr)
  }

  /** `q` has made one DH step that `p` has not seen; `p` still receives on `q`'s previous chain. */
  ghost predicate Behind(q: Side, p: Side) {
    var link := DiffieHellman(p.st.dhs, Pub(q.st.dhs));
    var start := |q.log| - q.st.ns;
    var cut := start - q.st.pn + p.st.nr;
    && q.st.dhr == Some(Pub(p.st.dhs))
    && p.st.dhr != Some(Pub(q.st.dhs))
    && q.st.rk == Root(p.st.rk, link)
    && q.st.cks == Some(Advance(Chain(p.st.rk, link), q.st.ns))
    && OnChain(q.log, start, |q.log|, Chain(p.st.rk, link), Pub(q.st.dhs), 0)
    && (forall k | start <= k < |q.log| :: q.log[k].msg.header.pn == q.st.pn)
    && Outrun(q.log, start, p.st.dhr, q.st.pn)
    && p.st.nr <= q.st.pn <= start
    && Caught(q.log, p, cut)
    && Follows(q.log, cut, start, p.st)
  }

  ghost predicate Leads(q: Side, p: Side) {
    Behind(q, p) && Synced(p, q)
  }

  /** The two step histories differ by exactly one DH step. */
  ghost predicate Paired(run: Run) {
    && Genuine(run.alice, run.used) && Genuine(run.bob, run.used)
    && (Leads(run.alice, run.bob) || Leads(run.bob, run.alice))
  }

  // ----- the cache -----

  lemma {:induction false} MissingCounts(log: seq<Sent>, received: set<nat>, cut: nat)
    requires cut <= |log|
    ensures |Missing(log, received, cut)| == Undelivered(received, cut)
  {
    if cut > 0 {
      MissingCounts(log, received, cut - 1);
    }
  }

  lemma {:induction false} MissingPrefix(log: seq<Sent>, received: set<nat>, k: nat, cut: nat)
    requires k <= cut <= |log|
    ensures var part, all := Missing(log, received, k), Missing(log, received, cut);
            |part| <= |all| && all[..|part|] == part
  {
    if k < cut {
      MissingPrefix(log, received, k, cut - 1);
    }
  }

  lemma {:induction false} MissingFrom(log: seq<Sent>, received: set<nat>, cut: nat, i: nat) returns (j: nat)
    requires cut <= |log| && i < |Missing(log, received, cut)|
    ensures j < cut && j !in received && Missing(log, received, cut)[i] == Entry(log[j])
  {
    if i < |Missing(log, received, cut - 1)| {
      j := MissingFrom(log, received, cut - 1, i);
    } else {
      j := cut - 1;
    }
  }

  lemma {:induction false} MissingIgnores(log: seq<Sent>, received: set<nat>, cut: nat, k: nat)
    requires cut <= |log| && cut <= k
    ensures Missing(log, received + {k}, cut) == Missing(log, received, cut)
  {
    if cut > 0 {
      MissingIgnores(log, received, cut - 1, k);
    }
  }

  lemma {:induction false} MissingExtends(log: seq<Sent>, more: seq<Sent>, received: set<nat>, cut: nat)
    requires cut <= |log|
    ensures Missing(log + more, received, cut) == Missing(log, received, cut)
  {
    if cut > 0 {
      MissingExtends(log, more, received, cut - 1);
    }
  }

  /** Opening message `k` takes exactly its entry out. */
  lemma {:induction false} MissingRemoves(log: seq<Sent>, received: set<nat>, cut: nat, k: nat)
    requires k < cut <= |log| && k !in received
    ensures var pos, all := Undelivered(received, k), Missing(log, received, cut);
            pos < |all| && all[pos] == Entry(log[k]) && RemoveAt(all, pos) == Missing(log, received + {k}, cut)
  {
    var before := Missing(log, received, cut - 1);
    if k == cut - 1 {
      MissingCounts(log, received, k);
      MissingIgnores(log, received, k, k);
      assert RemoveAt(Missing(log, received, cut), |before|) == before + [];
    } else {
      MissingRemoves(log, received, cut - 1, k);
      var end := if cut - 1 in received then [] else [Entry(log[cut - 1])];
      assert Missing(log, received, cut) == before + end;
      assert Missing(log, received + {k}, cut) == Missing(log, received + {k}, cut - 1) + end;
      hide Missing, Undelivered;
      RemoveBefore(before, Undelivered(received, k), end);
    }
  }

  /** Past `cut`, walking the chain on to message `k` caches exactly what is missing. */
  lemma {:induction false} MissingRun(log: seq<Sent>, received: set<nat>, cut: nat, k: nat, to: nat, ck: Key,
                        dh: Pub, n: nat)
    requires cut <= k <= to && OnChain(log, cut, to, ck, dh, n) && n + (k - cut) <= U32_LIMIT
    requires forall i | i in received :: i < cut
    ensures Missing(log, received, k) == Missing(log, received, cut) + SkippedRun(dh, ck, n, k - cut)
    ensures Undelivered(received, k) == Undelivered(received, cut) + (k - cut)
  {
    if cut < k {
      MissingRun(log, received, cut, k - 1, to, ck, dh, n);
    }
  }

  lemma LookupMisses(q: Side, used: set<PrivId>, received: set<nat>, cut: nat, k: nat)
    requires Genuine(q, used) && cut <= k < |q.log|
    ensures FirstMatch(Missing(q.log, received, cut), q.log[k].msg.header) == |Missing(q.log, received, cut)|
  {
    var cache := Missing(q.log, received, cut);
    var pos := FirstMatch(cache, q.log[k].msg.header);
    if pos < |cache| {
      var j := MissingFrom(q.log, received, cut, pos);
    }
  }

  lemma LookupHits(q: Side, used: set<PrivId>, received: set<nat>, cut: nat, k: nat)
    requires Genuine(q, used) && k < cut <= |q.log| && k !in received
    ensures FirstMatch(Missing(q.log, received, cut), q.log[k].msg.header) == Undelivered(received, k)
  {
    var cache := Missing(q.log, received, cut);
    MissingRemoves(q.log, received, cut, k);
    var pos := FirstMatch(cache, q.log[k].msg.header);
    if pos < Undelivered(received, k) {
      MissingPrefix(q.log, received, k, cut);
      MissingCounts(q.log, received, k);
      assert cache[pos] == Missing(q.log, received, k)[pos];
      var j := MissingFrom(q.log, received, k, pos);
    }
  }

  /** Of the messages `cut..to` of a chain each number belongs to one; no other message has it. */
  lemma NumberTaken(q: Side, used: set<PrivId>, cut: int, to: int, ck: Key, dh: Pub, nr: int, k: nat)
    requires Genuine(q, used) && OnChain(q.log, cut, to, ck, dh, nr) && k < |q.log| && q.log[k].msg.header.dh == dh
    ensures nr <= q.log[k].msg.header.n < nr + (to - cut) ==> k == cut + (q.log[k].msg.header.n - nr)
  {
    var n := q.log[k].msg.header.n;
    var j := cut + (n - nr);
    if cut <= j < to {
      assert Carries(q.log[j], Advance(ck, j - cut), dh, n);
      assert k == j || !Matches(Entry(q.log[if j < k then j else k]), q.log[if j < k then k else j].msg.header);
    }
  }

  // ----- one delivery -----

  lemma ChainMovesOn(log: seq<Sent>, from: int, mid: int, to: int, ck: Key, dh: Pub, n: int)
    requires OnChain(log, from, to, ck, dh, n) && from <= mid <= to
    ensures OnChain(log, mid, to, Advance(ck, mid - from), dh, n + (mid - from))
  {
    forall k | mid <= k < to
      ensures Carries(log[k], Advance(Advance(ck, mid - from), k - mid), dh, n + (mid - from) + (k - mid))
    {
      AdvanceAdds(ck, mid - from, k - mid);
    }
  }

  /** The state of a receiver that has just opened message `k` on a chain it follows from `cut` on. */
  function Caughtup(p: State, log: seq<Sent>, received: set<nat>, cut: nat, k: nat): State
    requires cut <= k < |log| && p.ckr.Some? && p.nr + (k - cut) + 1 < U32_LIMIT
  {
    p.(ckr := Some(Advance(p.ckr.value, k - cut + 1)), nr := p.nr + (k - cut) + 1, skipped := Missing(log, received, k))
  }

  /** Walking the chain being followed to message `k` caches what is missing, if there is room. */
  lemma SkipsTo(log: seq<Sent>, p: Side, cut: nat, k: nat, to: nat)
    requires Caught(log, p, cut) && cut <= k <= to
    requires p.st.ckr.Some? && p.st.dhr.Some?
    requires OnChain(log, cut, to, p.st.ckr.value, p.st.dhr.value, p.st.nr)
    requires p.st.nr + (to - cut) < U32_LIMIT
    ensures Skipped(p.st, p.st.nr + (k - cut)) ==
              if Undelivered(p.received, k) > MAX_SKIP then Failure(TooManySkipped)
              else Success(p.st.(ckr := Some(Advance(p.st.ckr.value, k - cut)), nr := p.st.nr + (k - cut),
                                 skipped := Missing(log, p.received, k)))
  {
    MissingRun(log, p.received, cut, k, to, p.st.ckr.value, p.st.dhr.value, p.st.nr);
    MissingCounts(log, p.received, cut);
  }

  predicate SealedRight(m: Sent) {
    m.msg.ciphertext == Sealed(KeyOf(m), m.plaintext, Aad(m.ad, m.msg.header))
  }

  /** A message on the chain being followed. */
  lemma OpensLive(log: seq<Sent>, p: Side, cut: nat, k: nat, to: nat)
    requires Caught(log, p, cut) && cut <= k < to
    requires p.st.ckr.Some? && p.st.dhr.Some?
    requires OnChain(log, cut, to, p.st.ckr.value, p.st.dhr.value, p.st.nr)
    requires p.st.nr + (to - cut) < U32_LIMIT
    requires SealedRight(log[k])
    ensures var m := log[k];
            Opened(p.st, m.msg, m.ad) ==
              if Undelivered(p.received, k) > MAX_SKIP then (p.st, Failure(TooManySkipped))
              else (Caughtup(p.st, log, p.received, cut, k), Success(m.plaintext))
  {
    hide Missing, Undelivered;
    SkipsTo(log, p, cut, k, to);
    assert Carries(log[k], Advance(p.st.ckr.value, k - cut), p.st.dhr.value, p.st.nr + (k - cut));
  }

  lemma CaughtUpFollows(q: Side, p: Side, cut: nat, k: nat, to: nat)
    requires Caught(q.log, p, cut) && cut <= k < to
    requires p.st.ckr.Some? && p.st.dhr.Some?
    requires OnChain(q.log, cut, to, p.st.ckr.value, p.st.dhr.value, p.st.nr)
    requires p.st.nr + (to - cut) < U32_LIMIT && Undelivered(p.received, k) <= MAX_SKIP
    ensures var p' := p.(st := Caughtup(p.st, q.log, p.received, cut, k), received := p.received + {k});
            Caught(q.log, p', k + 1) &&
            OnChain(q.log, k + 1, to, p'.st.ckr.value, p.st.dhr.value, p'.st.nr)
  {
    MissingCounts(q.log, p.received, k);
    ChainMovesOn(q.log, cut, k + 1, to, p.st.ckr.value, p.st.dhr.value, p.st.nr);
    MissingIgnores(q.log, p.received, k, k);
  }

  /** A message whose key is cached. */
  lemma OpensCached(q: Side, used: set<PrivId>, p: Side, cut: nat, k: nat, drawn: PrivId)
    requires Genuine(q, used) && Caught(q.log, p, cut) && k < cut && k !in p.received
    ensures var m, cache := q.log[k], Missing(q.log, p.received + {k}, cut);
            Decrypted(p.st, drawn, m.msg, m.ad) == (p.st.(skipped := cache), Success(m.plaintext)) &&
            Caught(q.log, p.(st := p.st.(skipped := cache), received := p.received + {k}), cut)
    ensures Undelivered(p.received, k) <= MAX_SKIP
  {
    LookupHits(q, used, p.received, cut, k);
    MissingRemoves(q.log, p.received, cut, k);
    assert q.log[k] in q.log;
  }

  lemma {:induction false} UndeliveredGrows(received: set<nat>, j: nat, k: nat)
    requires j <= k
    ensures Undelivered(received, j) <= Undelivered(received, k)
  {
    if j < k {
      UndeliveredGrows(received, j, k - 1);
    }
  }

  /** The receiver after message `k` of `q` has reached it. */
  function Received(q: Side, p: Side, k: nat, drawn: PrivId): Side
    requires k < |q.log|
  {
    var (st, r) := Decrypted(p.st, drawn, q.log[k].msg, q.log[k].ad);
    p.(st := st, received := if r.Success? then p.received + {k} else p.received)
  }

  /** What the receiver is told. */
  ghost predicate Answers(q: Side, p: Side, k: nat, drawn: PrivId)
    requires k < |q.log|
  {
    Decrypted(p.st, drawn, q.log[k].msg, q.log[k].ad).1 ==
      if Undelivered(p.received, k) > MAX_SKIP then Failure(TooManySkipped) else Success(q.log[k].plaintext)
  }

  /** Only the receiving half of a state differs. */
  predicate SameSender(a: Side, b: Side) {
    a.log == b.log && a.st == b.st.(ckr := a.st.ckr, nr := a.st.nr, skipped := a.st.skipped)
  }

  lemma DeliversLive(q: Side, used: set<PrivId>, p: Side, cut: nat, k: nat, to: nat, drawn: PrivId)
    requires Genuine(q, used) && Caught(q.log, p, cut) && cut <= k < to
    requires p.st.ckr.Some? && p.st.dhr.Some?
    requires OnChain(q.log, cut, to, p.st.ckr.value, p.st.dhr.value, p.st.nr)
    requires p.st.nr + (to - cut) < U32_LIMIT
    ensures Answers(q, p, k, drawn)
    ensures Received(q, p, k, drawn) ==
              if Undelivered(p.received, k) > MAX_SKIP then p
              else p.(st := Caughtup(p.st, q.log, p.received, cut, k), received := p.received + {k})
  {
    assert q.log[k] in q.log;
    LookupMisses(q, used, p.received, cut, k);
    OpensLive(q.log, p, cut, k, to);
    assert Carries(q.log[k], Advance(p.st.ckr.value, k - cut), p.st.dhr.value, p.st.nr + (k - cut));
  }

  lemma StaysSynced(q: Side, p: Side, k: nat)
    requires Synced(q, p) && |q.log| - q.st.ns + p.st.nr <= k < |q.log|
    requires Undelivered(p.received, k) <= MAX_SKIP
    ensures var cut := |q.log| - q.st.ns + p.st.nr;
            p.st.ckr.Some? &&
            Synced(q, p.(st := Caughtup(p.st, q.log, p.received, cut, k), received := p.received + {k}))
  {
    hide Missing, Undelivered, Outrun;
    var cut := |q.log| - q.st.ns + p.st.nr;
    CaughtUpFollows(q, p, cut, k, |q.log|);
    AdvanceAdds(p.st.ckr.value, k - cut + 1, |q.log| - k - 1);
  }

  /** Delivery on a chain both sides know. */
  lemma DeliversSynced(q: Side, used: set<PrivId>, p: Side, k: nat, drawn: PrivId)
    requires Genuine(q, used) && Synced(q, p) && k < |q.log| && k !in p.received
    ensures var p' := Received(q, p, k, drawn);
            Answers(q, p, k, drawn) && Synced(q, p') && SameSender(p', p)
  {
    hide Missing, Undelivered, Decrypted;
    var cut := |q.log| - q.st.ns + p.st.nr;
    if k < cut {
      OpensCached(q, used, p, cut, k, drawn);
    } else {
      DeliversLive(q, used, p, cut, k, |q.log|, drawn);
      if Undelivered(p.received, k) <= MAX_SKIP {
        StaysSynced(q, p, k);
      }
    }
  }

  lemma StaysBehind(q: Side, p: Side, k: nat)
    requires Behind(q, p) && |q.log| - q.st.ns - q.st.pn + p.st.nr <= k < |q.log| - q.st.ns
    requires Undelivered(p.received, k) <= MAX_SKIP
    ensures var cut := |q.log| - q.st.ns - q.st.pn + p.st.nr;
            p.st.ckr.Some? &&
            Behind(q, p.(st := Caughtup(p.st, q.log, p.received, cut, k), received := p.received + {k}))
  {
    hide Missing, Undelivered, Outrun;
    CaughtUpFollows(q, p, |q.log| - q.st.ns - q.st.pn + p.st.nr, k, |q.log| - q.st.ns);
  }

  /** Delivery of a message of the previous chain, to a receiver one step behind. */
  lemma DeliversLate(q: Side, used: set<PrivId>, p: Side, k: nat, drawn: PrivId)
    requires Genuine(q, used) && Behind(q, p) && k < |q.log| - q.st.ns && k !in p.received
    ensures var p' := Received(q, p, k, drawn);
            Answers(q, p, k, drawn) && Behind(q, p') && SameSender(p', p)
  {
    hide Outrun, Missing, Undelivered, Decrypted;
    var start := |q.log| - q.st.ns;
    var cut := start - q.st.pn + p.st.nr;
    if k < cut {
      OpensCached(q, used, p, cut, k, drawn);
    } else {
      DeliversLive(q, used, p, cut, k, start, drawn);
      if Undelivered(p.received, k) <= MAX_SKIP {
        StaysBehind(q, p, k);
      }
    }
  }

  /** The receiver after the DH step, before it looks for the message. */
  function Joined(q: Side, p: Side, s: State, drawn: PrivId): Side {
    p.(st := Stepped(s, Pub(q.st.dhs), drawn))
  }

  lemma AllOutrun(p: Side, used: set<PrivId>)
    requires Genuine(p, used)
    ensures Outrun(p.log, |p.log|, Some(Pub(p.st.dhs)), p.st.ns)
  {
    forall k | 0 <= k < |p.log| && p.log[k].msg.header.dh == Pub(p.st.dhs) ensures p.log[k].msg.header.n < p.st.ns {
      assert p.log[k] in p.log;
    }
  }

  /** Catching up with the previous chain, before the step: it works when there is room. */
  lemma CatchesUp(q: Side, p: Side)
    requires Behind(q, p)
    ensures var start := |q.log| - q.st.ns;
            match Skipped(p.st, q.st.pn)
            case Failure(e) => e == TooManySkipped && Undelivered(p.received, start) > MAX_SKIP
            case Success(s) =>
              && Undelivered(p.received, start) <= MAX_SKIP
              && s == p.st.(ckr := s.ckr, nr := s.nr, skipped := Missing(q.log, p.received, start))
  {
    var start := |q.log| - q.st.ns;
    var cut := start - q.st.pn + p.st.nr;
    MissingCounts(q.log, p.received, start);
    hide Outrun;
    if p.st.ckr.Some? {
      SkipsTo(q.log, p, cut, start, start);
    }
  }

  /** A DH step turns "one behind" into "one ahead". */
  lemma StepLeads(q: Side, p: Side, used: set<PrivId>, drawn: PrivId)
    requires Leads(q, p) && q.st.dhs != drawn && p.st.dhs != drawn && Genuine(p, used)
    ensures var start := |q.log| - q.st.ns;
            match Skipped(p.st, q.st.pn)
            case Failure(e) => e == TooManySkipped && Undelivered(p.received, start) > MAX_SKIP
            case Success(s) => Undelivered(p.received, start) <= MAX_SKIP && Leads(Joined(q, p, s, drawn), q)
  {
    var start := |q.log| - q.st.ns;
    CatchesUp(q, p);
    hide Skipped;
    var s := Skipped(p.st, q.st.pn);
    if s.Success? {
      StepBehind(q, p, used, s.value, drawn);
      StepSynced(q, p, s.value, drawn);
    }
  }

  lemma StepBehind(q: Side, p: Side, used: set<PrivId>, s: State, drawn: PrivId)
    requires Leads(q, p) && q.st.dhs != drawn && p.st.dhs != drawn && Genuine(p, used)
    requires s == p.st.(ckr := s.ckr, nr := s.nr, skipped := s.skipped)
    ensures Behind(Joined(q, p, s, drawn), q)
  {
    AllOutrun(p, used);
    DiffieHellmanAgrees(p.st.dhs, q.st.dhs, q.st.dhs, p.st.dhs);
    DiffieHellmanAgrees(drawn, q.st.dhs, q.st.dhs, drawn);
    hide Outrun, Genuine;
  }

  lemma StepSynced(q: Side, p: Side, s: State, drawn: PrivId)
    requires Leads(q, p)
    requires var start := |q.log| - q.st.ns;
             s == p.st.(ckr := s.ckr, nr := s.nr, skipped := Missing(q.log, p.received, start)) && Undelivered(p.received, start) <= MAX_SKIP
    ensures Synced(q, Joined(q, p, s, drawn))
  {
    MissingCounts(q.log, p.received, |q.log| - q.st.ns);
    hide Outrun, Missing, Undelivered;
  }

  /** What `Decrypted` does with a message of the new chain. */
  lemma NewTakesStep(q: Side, used: set<PrivId>, p: Side, k: nat, drawn: PrivId)
    requires Genuine(q, used) && Behind(q, p) && |q.log| - q.st.ns <= k < |q.log|
    ensures var m := q.log[k];
            m.msg.header.n == k - (|q.log| - q.st.ns) && SealedRight(m) &&
            Decrypted(p.st, drawn, m.msg, m.ad) ==
              match Skipped(p.st, q.st.pn)
              case Failure(e) => (p.st, Failure(e))
              case Success(s) => Opened(Joined(q, p, s, drawn).st, m.msg, m.ad)
  {
    var start := |q.log| - q.st.ns;
    assert q.log[k] in q.log;
    LookupMisses(q, used, p.received, start - q.st.pn + p.st.nr, k);
    assert Carries(q.log[k], Advance(Chain(p.st.rk, DiffieHellman(p.st.dhs, Pub(q.st.dhs))), k - start), Pub(q.st.dhs), k - start);
  }

  lemma LeadIgnoresReceiving(p: Side, p': Side, q: Side)
    requires Behind(p, q) && SameSender(p', p)
    ensures Behind(p', q)
  {
  }

  /** After the step, the message opens as one of a chain both sides know. */
  lemma JoinedOpens(q: Side, p1: Side, k: nat)
    requires Leads(p1, q) && p1.st.nr == 0 && |q.log| - q.st.ns <= k < |q.log| && SealedRight(q.log[k])
    ensures var m, full := q.log[k], Undelivered(p1.received, k) > MAX_SKIP;
            var (st, r) := Opened(p1.st, m.msg, m.ad);
            if full then st == p1.st && r == Failure(TooManySkipped)
            else r == Success(m.plaintext) && Leads(p1.(st := st, received := p1.received + {k}), q)
    ensures var m := q.log[k];
            SameSender(p1.(st := Opened(p1.st, m.msg, m.ad).0), p1)
  {
    hide Missing, Undelivered, Outrun, Caught, OnChain, Genuine, Opened;
    var start := |q.log| - q.st.ns;
    assert q.st.cks.Some? && p1.st.ckr.Some?;
    OpensLive(q.log, p1, start, k, |q.log|);
    if Undelivered(p1.received, k) <= MAX_SKIP {
      var p' := p1.(st := Caughtup(p1.st, q.log, p1.received, start, k), received := p1.received + {k});
      assert Synced(q, p') by { StaysSynced(q, p1, k); }
      LeadIgnoresReceiving(p1, p', q);
    }
  }

  /** Delivery of a message of the new chain: the receiver makes its DH step. */
  lemma DeliversNew(q: Side, used: set<PrivId>, p: Side, k: nat, drawn: PrivId)
    requires Genuine(q, used) && Genuine(p, used) && Leads(q, p) && |q.log| - q.st.ns <= k < |q.log| && k !in p.received
    requires q.st.dhs != drawn && p.st.dhs != drawn
    ensures var p' := Received(q, p, k, drawn);
            Answers(q, p, k, drawn) && p'.log == p.log &&
            (p' == p || (Leads(p', q) && p'.st.dhs == drawn && p'.st.ns == 0))
  {
    var start := |q.log| - q.st.ns;
    NewTakesStep(q, used, p, k, drawn);
    UndeliveredGrows(p.received, start, k);
    StepLeads(q, p, used, drawn);
    var s := Skipped(p.st, q.st.pn);
    if s.Success? {
      JoinedOpens(q, Joined(q, p, s.value, drawn), k);
    }
  }

  // ----- whole runs -----

  /** A side that has sent one more message. */
  function SentOn(q: Side, plaintext: bytes, ad: bytes): Side
    requires q.st.cks.Some?
  {
    var (st, r) := Encrypted(q.st, plaintext, ad);
    q.(st := st, log := q.log + [Sent(r.value, plaintext, ad)])
  }

  lemma SentOnAppends(q: Side, plaintext: bytes, ad: bytes)
    requires q.st.cks.Some? && q.st.ns + 1 < U32_LIMIT
    ensures var q' := SentOn(q, plaintext, ad);
            && q'.st == q.st.(cks := Some(Next(q.st.cks.value)), ns := q.st.ns + 1) && q'.received == q.received
            && |q'.log| == |q.log| + 1 && q'.log == q.log + [q'.log[|q.log|]] && q'.log[|q.log|].msg.header.pn == q.st.pn
  {
  }

  lemma SendStaysGenuine(q: Side, used: set<PrivId>, plaintext: bytes, ad: bytes)
    requires Genuine(q, used) && q.st.ns + 1 < U32_LIMIT && q.st.cks.Some?
    ensures Genuine(SentOn(q, plaintext, ad), used)
  {
    var q' := SentOn(q, plaintext, ad);
    forall j | 0 <= j < |q.log| ensures !Matches(Entry(q.log[j]), q'.log[|q.log|].msg.header) {
      assert q.log[j] in q.log;
    }
  }

  lemma SendStaysOnChain(q: Side, plaintext: bytes, ad: bytes, from: int, ck: Key, n: int)
    requires q.st.ns + 1 < U32_LIMIT && q.st.cks.Some? && 0 <= n
    requires OnChain(q.log, from, |q.log|, ck, Pub(q.st.dhs), n) && n + (|q.log| - from) == q.st.ns
    requires q.st.cks.value == Advance(ck, |q.log| - from)
    ensures OnChain(SentOn(q, plaintext, ad).log, from, |q.log| + 1, ck, Pub(q.st.dhs), n)
  {
    var log := SentOn(q, plaintext, ad).log;
    forall k | from <= k < |q.log| + 1 ensures Carries(log[k], Advance(ck, k - from), Pub(q.st.dhs), n + (k - from)) {
      if k < |q.log| {
        assert log[k] == q.log[k];
      }
    }
  }

  lemma ChainKept(log: seq<Sent>, more: seq<Sent>, from: int, to: int, ck: Key, dh: Pub, n: int)
    requires OnChain(log, from, to, ck, dh, n)
    ensures OnChain(log + more, from, to, ck, dh, n)
  {
    forall k | from <= k < to ensures Carries((log + more)[k], Advance(ck, k - from), dh, n + (k - from)) {
      assert (log + more)[k] == log[k];
    }
  }

  lemma SendStaysOutrun(log: seq<Sent>, more: seq<Sent>, start: int, dh: Option<Pub>, pn: int)
    requires start <= |log| && Outrun(log, start, dh, pn)
    ensures Outrun(log + more, start, dh, pn)
  {
  }

  lemma SendStaysCaught(log: seq<Sent>, more: seq<Sent>, p: Side, cut: int)
    requires Caught(log, p, cut)
    ensures Caught(log + more, p, cut)
  {
    MissingExtends(log, more, p.received, cut);
  }

  lemma SendStaysSynced(q: Side, p: Side, plaintext: bytes, ad: bytes)
    requires Synced(q, p) && q.st.ns + 1 < U32_LIMIT && q.st.cks.Some?
    ensures Synced(SentOn(q, plaintext, ad), p)
  {
    var cut := |q.log| - q.st.ns + p.st.nr;
    var ck := p.st.ckr.value;
    assert Next(Advance(ck, q.st.ns - p.st.nr)) == Advance(ck, q.st.ns + 1 - p.st.nr);
    SentOnAppends(q, plaintext, ad);
    hide Outrun, Advance, OnChain, Caught, Missing, SentOn;
    SendStaysOnChain(q, plaintext, ad, cut, ck, p.st.nr);
    var q' := SentOn(q, plaintext, ad);
    SendStaysCaught(q.log, [q'.log[|q.log|]], p, cut);
  }

  lemma SendStaysFollowed(log: seq<Sent>, more: seq<Sent>, cut: int, start: int, st: State)
    requires Follows(log, cut, start, st)
    ensures Follows(log + more, cut, start, st)
  {
    if st.ckr.Some? {
      ChainKept(log, more, cut, start, st.ckr.value, st.dhr.value, st.nr);
    }
  }

  lemma SendStaysBehind(q: Side, p: Side, plaintext: bytes, ad: bytes)
    requires Behind(q, p) && q.st.ns + 1 < U32_LIMIT
    ensures Behind(SentOn(q, plaintext, ad), p)
  {
    var start := |q.log| - q.st.ns;
    var cut := start - q.st.pn + p.st.nr;
    var base := Chain(p.st.rk, DiffieHellman(p.st.dhs, Pub(q.st.dhs)));
    assert Next(Advance(base, q.st.ns)) == Advance(base, q.st.ns + 1);
    SentOnAppends(q, plaintext, ad);
    hide Outrun, Advance, OnChain, Caught, Missing, SentOn, DiffieHellman, Follows;
    SendStaysOnChain(q, plaintext, ad, start, base, 0);
    var q' := SentOn(q, plaintext, ad);
    var more := [q'.log[|q.log|]];
    SendStaysCaught(q.log, more, p, cut);
    SendStaysOutrun(q.log, more, start, p.st.dhr, q.st.pn);
    SendStaysFollowed(q.log, more, cut, start, p.st);
  }

  lemma GenuineGrows(p: Side, p': Side, used: set<PrivId>, drawn: PrivId)
    requires Genuine(p, used) && p'.log == p.log && drawn !in used
    requires SameSender(p', p) || (p'.st.dhs == drawn && p'.st.ns == 0)
    ensures Genuine(p', used + {drawn})
  {
  }

  /** One delivery between paired peers: the answer, and that they stay paired. */
  lemma DeliversPaired(q: Side, p: Side, used: set<PrivId>, k: nat, drawn: PrivId)
    requires Genuine(q, used) && Genuine(p, used) && (Leads(q, p) || Leads(p, q))
    requires k < |q.log| && k !in p.received && drawn !in used
    ensures var p' := Received(q, p, k, drawn);
            Answers(q, p, k, drawn) && Genuine(q, used + {drawn}) && Genuine(p', used + {drawn}) &&
            (Leads(q, p') || Leads(p', q))
  {
    var p' := Received(q, p, k, drawn);
    if Leads(p, q) {
      DeliversSynced(q, used, p, k, drawn);
      LeadIgnoresReceiving(p, p', q);
    } else if k < |q.log| - q.st.ns {
      DeliversLate(q, used, p, k, drawn);
      SyncIgnoresReceiving(p, p', q);
    } else {
      DeliversNew(q, used, p, k, drawn);
    }
    GenuineGrows(p, p', used, drawn);
    GenuineGrows(q, q, used, drawn);
  }

  lemma SyncIgnoresReceiving(p: Side, p': Side, q: Side)
    requires Synced(p, q) && SameSender(p', p)
    ensures Synced(p', q)
  {
  }

  lemma HandshakePairs(sk: Key, a: PrivId, b: PrivId)
    requires a != b
    ensures Paired(Handshaken(sk, a, b))
  {
    DiffieHellmanAgrees(a, b, b, a);
    var run := Handshaken(sk, a, b);
    assert Behind(run.alice, run.bob);
  }

  /** A side that has only sent since `q`. */
  predicate SameReceiver(q': Side, q: Side) {
    q'.received == q.received && q'.st == q.st.(cks := q'.st.cks, ns := q'.st.ns)
  }

  lemma SendingIgnored(p: Side, q: Side, q': Side)
    requires SameReceiver(q', q)
    ensures Synced(p, q) ==> Synced(p, q')
    ensures Behind(p, q) ==> Behind(p, q')
  {
  }

  lemma SendsPaired(q: Side, p: Side, used: set<PrivId>, plaintext: bytes, ad: bytes)
    requires Genuine(q, used) && (Leads(q, p) || Leads(p, q)) && q.st.ns + 1 < U32_LIMIT && q.st.cks.Some?
    ensures var q' := SentOn(q, plaintext, ad);
            Genuine(q', used) && (Leads(q', p) || Leads(p, q'))
  {
    SendStaysGenuine(q, used, plaintext, ad);
    SendingIgnored(p, q, SentOn(q, plaintext, ad));
    if Leads(q, p) {
      SendStaysBehind(q, p, plaintext, ad);
    } else {
      SendStaysSynced(q, p, plaintext, ad);
    }
  }

  lemma StepStaysPaired(run: Run, e: Event)
    requires Paired(run) && Enabled(run, e)
    ensures Paired(After(run, e))
  {
    match e
    case Send(who, plaintext, ad) =>
      var q := run.Local(who);
      assert run.used + {} == run.used;
      if q.st.cks.Some? {
        SendsPaired(q, run.Remote(who), run.used, plaintext, ad);
      } else {
        assert After(run, e) == run;
      }
    case Deliver(who, index, drawn) =>
      DeliversPaired(run.Remote(who), run.Local(who), run.used, index, drawn);
  }

  lemma {:induction false} RunStaysPaired(run: Run, events: seq<Event>)
    requires Paired(run) && Possible(run, events)
    ensures Paired(AfterAll(run, events))
    decreases |events|
  {
    if events != [] {
      StepStaysPaired(run, events[0]);
      RunStaysPaired(After(run, events[0]), events[1..]);
    }
  }

  /** Delivery. After any honest run, a message of the peer that has not been opened yet, of whatever
      chain, opens to exactly the plaintext its sender passed to `encrypt` if and only if at most MAX_SKIP
      messages sent before it are still missing; otherwise the call reports TooManySkipped. */
  lemma HonestDelivery(sk: Key, a: PrivId, b: PrivId, events: seq<Event>, who: Who, index: nat, drawn: PrivId)
    requires a != b && Possible(Handshaken(sk, a, b), events)
    requires Enabled(AfterAll(Handshaken(sk, a, b), events), Deliver(who, index, drawn))
    ensures var run := AfterAll(Handshaken(sk, a, b), events);
            Delivered(run, who, index, drawn).1 ==
              if Undelivered(run.Local(who).received, index) <= MAX_SKIP
              then Success(run.Remote(who).log[index].plaintext)
              else Failure(TooManySkipped)
  {
    HandshakePairs(sk, a, b);
    RunStaysPaired(Handshaken(sk, a, b), events);
    var run := AfterAll(Handshaken(sk, a, b), events);
    DeliversPaired(run.Remote(who), run.Local(who), run.used, index, drawn);
  }
}
