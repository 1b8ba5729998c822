// Message keys are used once. The AEAD nonce is constant, so no two `encrypt` calls of a session, by
// either peer, may take the same message key. This holds for every run, whatever bytes the network
// hands to `decrypt`; so does the bound on the cache.
module OneShot {
  import opened Wrappers
  import opened Words
  import opened Symbolic
  import opened RatchetSpec

  datatype Party = Initiator | Responder

  /** `spent` lists the message keys taken by all `encrypt` calls so far, `used` every private key drawn or
      named by a header. */
  datatype Exchange = Exchange(initiator: State, responder: State, spent: seq<Key>, used: set<PrivId>) {
    function Local(who: Party): State { if who.Initiator? then initiator else responder }
    function Remote(who: Party): State { if who.Initiator? then responder else initiator }
    function With(who: Party, st: State): Exchange {
      if who.Initiator? then this.(initiator := st) else this.(responder := st)
    }
  }

  /** `Receive` takes any message at all. */
  datatype Act =
    | Encrypt(who: Party, plaintext: bytes, ad: bytes)
    | Receive(who: Party, msg: RatchetMessage, ad: bytes, drawn: PrivId)

  /** The random generator never repeats itself, nor draws a key the peer has already named. */
  predicate Allowed(run: Exchange, e: Act) {
    e.Receive? ==> e.drawn !in run.used && e.drawn != e.msg.header.dh.id
  }

  function Following(run: Exchange, e: Act): Exchange {
    match e
    case Encrypt(who, plaintext, ad) =>
      var (st, r) := Encrypted(run.Local(who), plaintext, ad);
      var key := if r.Success? && r.value.ciphertext.Sealed? then [r.value.ciphertext.key] else [];
      run.With(who, st).(spent := run.spent + key)
    case Receive(who, msg, ad, drawn) =>
      run.With(who, Decrypted(run.Local(who), drawn, msg, ad).0).(used := run.used + {drawn, msg.header.dh.id})
  }

  ghost predicate Feasible(run: Exchange, acts: seq<Act>)
    decreases |acts|
  {
    acts != [] ==> Allowed(run, acts[0]) && Feasible(Following(run, acts[0]), acts[1..])
  }

  function Through(run: Exchange, acts: seq<Act>): Exchange
    decreases |acts|
  {
    if acts == [] then run else Through(Following(run, acts[0]), acts[1..])
  }

  function Started(sk: Key, a: PrivId, b: PrivId): Exchange {
    Exchange(NewInitiator(sk, Pub(b), a), NewResponder(sk, b), [], {a, b})
  }

  // ----- the invariant -----

  /** A chain whose DH output both scalars are already known. */
  predicate Grounded(ck: Key, used: set<PrivId>) {
    Base(ck).Chain? && Base(ck).dh.lo in used && Base(ck).dh.hi in used
  }

  /** A sending chain has not yet reached any spent key of the same chain. */
  ghost predicate Ahead(ck: Key, run: Exchange) {
    Grounded(ck, run.used) &&
    forall k | k in run.spent && k.Message? && Base(k.ck) == Base(ck) :: Depth(k.ck) < Depth(ck)
  }

  ghost predicate Inv(run: Exchange) {
    && (forall k | k in run.spent :: k.Message? && Grounded(k.ck, run.used))
    && (forall i, j | 0 <= i < j < |run.spent| :: run.spent[i] != run.spent[j])
    && (run.initiator.cks.Some? ==> Ahead(run.initiator.cks.value, run))
    && (run.responder.cks.Some? ==> Ahead(run.responder.cks.value, run))
    && (run.initiator.cks.Some? && run.responder.cks.Some? ==> Base(run.initiator.cks.value) != Base(run.responder.cks.value))
  }

  /** `decrypt` leaves the sending chain alone or starts one from the key just drawn. */
  lemma ReceiveRestarts(st: State, drawn: PrivId, msg: RatchetMessage, ad: bytes)
    ensures var st' := Decrypted(st, drawn, msg, ad).0;
            st'.cks == st.cks || exists rk :: st'.cks == Some(Chain(rk, DiffieHellman(drawn, msg.header.dh)))
  {
    var tried := TriedSkipped(st, msg, ad).0;
    var s := Skipped(tried, msg.header.pn);
    if s.Success? {
      var stepped := Stepped(s.value, msg.header.dh, drawn);
      assert stepped.cks == Some(Chain(stepped.cks.value.rk, DiffieHellman(drawn, msg.header.dh)));
    }
  }

  lemma EncryptKeepsInv(run: Exchange, who: Party, plaintext: bytes, ad: bytes)
    requires Inv(run)
    ensures Inv(Following(run, Encrypt(who, plaintext, ad)))
  {
    var me := run.Local(who);
    if me.cks.Some? {
      var ck := me.cks.value;
      var end := Following(run, Encrypt(who, plaintext, ad));
      assert end.spent == run.spent + [Message(ck)];
      assert end.used == run.used && end.Local(who).cks == Some(Next(ck)) && end.Remote(who) == run.Remote(who);
      assert Ahead(ck, run) && Base(Next(ck)) == Base(ck) && Depth(Next(ck)) == Depth(ck) + 1;
      assert Message(ck) !in run.spent;
      assert Ahead(Next(ck), end);
      if end.Remote(who).cks.Some? {
        assert Ahead(end.Remote(who).cks.value, end);
      }
    }
  }

  lemma ReceiveKeepsInv(run: Exchange, who: Party, msg: RatchetMessage, ad: bytes, drawn: PrivId)
    requires Inv(run) && Allowed(run, Receive(who, msg, ad, drawn))
    ensures Inv(Following(run, Receive(who, msg, ad, drawn)))
  {
    ReceiveRestarts(run.Local(who), drawn, msg, ad);
    var end := Following(run, Receive(who, msg, ad, drawn));
    assert end.spent == run.spent && run.used <= end.used && end.Remote(who) == run.Remote(who);
    var cks := end.Local(who).cks;
    if cks != run.Local(who).cks {
      var ck := cks.value;
      assert Base(ck) == ck && (ck.dh.lo == drawn || ck.dh.hi == drawn);
      assert Ahead(ck, end);
    }
    if end.Remote(who).cks.Some? {
      assert Ahead(end.Remote(who).cks.value, end);
    }
  }

  lemma StepKeepsInv(run: Exchange, e: Act)
    requires Inv(run) && Allowed(run, e)
    ensures Inv(Following(run, e))
  {
    match e
    case Encrypt(who, plaintext, ad) => EncryptKeepsInv(run, who, plaintext, ad);
    case Receive(who, msg, ad, drawn) => ReceiveKeepsInv(run, who, msg, ad, drawn);
  }

  lemma {:induction false} RunKeepsInv(run: Exchange, acts: seq<Act>)
    requires Inv(run) && Feasible(run, acts)
    ensures Inv(Through(run, acts))
    decreases |acts|
  {
    if acts != [] {
      StepKeepsInv(run, acts[0]);
      RunKeepsInv(Following(run, acts[0]), acts[1..]);
    }
  }

  /** No message key is ever taken twice, by either peer. */
  lemma KeysUsedOnce(sk: Key, a: PrivId, b: PrivId, acts: seq<Act>, i: nat, j: nat)
    requires Feasible(Started(sk, a, b), acts)
    requires i < j < |Through(Started(sk, a, b), acts).spent|
    ensures var spent := Through(Started(sk, a, b), acts).spent; spent[i] != spent[j]
  {
    RunKeepsInv(Started(sk, a, b), acts);
  }

  /** Neither cache ever holds more than MAX_SKIP keys. */
  lemma {:induction false} CachesBounded(run: Exchange, acts: seq<Act>)
    requires |run.initiator.skipped| <= MAX_SKIP && |run.responder.skipped| <= MAX_SKIP
    ensures var end := Through(run, acts);
            |end.initiator.skipped| <= MAX_SKIP && |end.responder.skipped| <= MAX_SKIP
    decreases |acts|
  {
    if acts != [] {
      var e := acts[0];
      if e.Receive? {
        SkipBound(run.Local(e.who), e.drawn, e.msg, e.ad);
      }
      CachesBounded(Following(run, e), acts[1..]);
    }
  }
}
