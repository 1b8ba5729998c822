// The Double Ratchet on values: what each operation of a session does to its state.
module RatchetSpec {
  import opened Wrappers
  import opened Words
  import opened Symbolic

  const MAX_SKIP: nat := 1000

  datatype RatchetError = BadAead | TooManySkipped | NotInitialized

  datatype Header = Header(dh: Pub, pn: u32, n: u32)

  /** What the AEAD binds: the application's data and the header. */
  datatype Aad = Aad(ad: bytes, header: Header)

  datatype RatchetMessage = RatchetMessage(header: Header, ciphertext: Cipher<Aad>)

  datatype SkippedKey = SkippedKey(dhPub: Pub, n: u32, mk: Key)

  datatype State = State(
    dhs: PrivId, dhr: Option<Pub>, rk: Key, cks: Option<Key>, ckr: Option<Key>,
    ns: u32, nr: u32, pn: u32, skipped: seq<SkippedKey>, sessionId: Key)

  function NewInitiator(sk: Key, theirs: Pub, drawn: PrivId): State {
    var dh := DiffieHellman(drawn, theirs);
    State(drawn, Some(theirs), Root(sk, dh), Some(Chain(sk, dh)), None, 0, 0, 0, [], SessionId(sk))
  }

  function NewResponder(sk: Key, mine: PrivId): State {
    State(mine, None, sk, None, None, 0, 0, 0, [], SessionId(sk))
  }

  // ----- sending -----

  function Encrypted(st: State, plaintext: bytes, ad: bytes): (State, Result<RatchetMessage, RatchetError>) {
    match st.cks
    case None => (st, Failure(NotInitialized))
    case Some(ck) =>
      var header := Header(Pub(st.dhs), st.pn, st.ns);
      (st.(cks := Some(Next(ck)), ns := WrapInc(st.ns)),
       Success(RatchetMessage(header, Sealed(Message(ck), plaintext, Aad(ad, header)))))
  }

  // ----- receiving -----

  predicate Matches(e: SkippedKey, h: Header) {
    e.dhPub == h.dh && e.n == h.n
  }

  /** The position of the first cached key for `h`, or the length when there is none. */
  function FirstMatch(cache: seq<SkippedKey>, h: Header): (pos: nat)
    ensures pos <= |cache|
    ensures forall i | 0 <= i < pos :: !Matches(cache[i], h)
    ensures pos < |cache| ==> Matches(cache[pos], h)
  {
    if cache == [] then 0
    else if Matches(cache[0], h) then 0
    else 1 + FirstMatch(cache[1..], h)
  }

  /** A cached key is used at most once: a hit removes it even when the ciphertext does not open. */
  function TriedSkipped(st: State, msg: RatchetMessage, ad: bytes): (State, Option<bytes>) {
    var pos := FirstMatch(st.skipped, msg.header);
    if pos == |st.skipped| then (st, None)
    else (st.(skipped := RemoveAt(st.skipped, pos)),
          AeadOpen(st.skipped[pos].mk, msg.ciphertext, Aad(ad, msg.header)))
  }

  /** The cache entries for `count` messages of the chain at `ckr`, from number `nr` on. */
  function SkippedRun(dh: Pub, ckr: Key, nr: nat, count: nat): (run: seq<SkippedKey>)
    requires nr + count <= U32_LIMIT
    ensures |run| == count
  {
    seq(count, i requires 0 <= i < count => SkippedKey(dh, nr + i, Message(Advance(ckr, i))))
  }

  /** What oldest-first eviction leaves of a cache. */
  function Newest<T>(cache: seq<T>): (kept: seq<T>)
    ensures |kept| == (if |cache| < MAX_SKIP then |cache| else MAX_SKIP) && kept == cache[|cache| - |kept|..]
  {
    if |cache| > MAX_SKIP then cache[|cache| - MAX_SKIP..] else cache
  }

  function Skipped(st: State, until: u32): Result<State, RatchetError> {
    if st.ckr.None? then Success(st)
    else
      var count := SaturatingSub(until, st.nr);
      if count + |st.skipped| > MAX_SKIP then Failure(TooManySkipped)
      else if st.dhr.None? then Success(st)
      else Success(st.(
        ckr := Some(Advance(st.ckr.value, count)),
        nr := st.nr + count,
        skipped := st.skipped + SkippedRun(st.dhr.value, st.ckr.value, st.nr, count)))
  }

  function Stepped(st: State, incoming: Pub, drawn: PrivId): State {
    var dhIn := DiffieHellman(st.dhs, incoming);
    var rk1 := Root(st.rk, dhIn);
    var dhOut := DiffieHellman(drawn, incoming);
    State(drawn, Some(incoming), Root(rk1, dhOut), Some(Chain(rk1, dhOut)), Some(Chain(st.rk, dhIn)),
          0, 0, st.ns, st.skipped, st.sessionId)
  }

  /** Once the receiving chain is the right one: catch up to `n`, take one key, open. */
  function Opened(st: State, msg: RatchetMessage, ad: bytes): (State, Result<bytes, RatchetError>) {
    match Skipped(st, msg.header.n)
    case Failure(e) => (st, Failure(e))
    case Success(s) =>
      match s.ckr
      case None => (s, Failure(NotInitialized))
      case Some(ck) =>
        (s.(ckr := Some(Next(ck)), nr := WrapInc(s.nr)),
         match AeadOpen(Message(ck), msg.ciphertext, Aad(ad, msg.header))
         case Some(pt) => Success(pt)
         case None => Failure(BadAead))
  }

  /** `decrypt`. There is no rollback: the state that comes with a failure is the state it leaves. */
  function Decrypted(st: State, drawn: PrivId, msg: RatchetMessage, ad: bytes)
    : (State, Result<bytes, RatchetError>)
  {
    var (tried, hit) := TriedSkipped(st, msg, ad);
    if hit.Some? then (tried, Success(hit.value))
    else if tried.dhr == Some(msg.header.dh) then Opened(tried, msg, ad)
    else
      match Skipped(tried, msg.header.pn)
      case Failure(e) => (tried, Failure(e))
      case Success(s) => Opened(Stepped(s, msg.header.dh, drawn), msg, ad)
  }

  // ----- the skip bound, for arbitrary headers -----

  lemma OpenedCaches(st: State, msg: RatchetMessage, ad: bytes)
    ensures var after := Opened(st, msg, ad).0.skipped;
            |st.skipped| <= |after| && after[..|st.skipped|] == st.skipped &&
            (|after| == |st.skipped| || |after| <= MAX_SKIP)
  {
  }

  /** Whatever header arrives, the cache never outgrows MAX_SKIP, and one call adds at most
      MAX_SKIP - |skipped| keys, across a DH step too; old entries stay, except the one that is used. */
  lemma SkipBound(st: State, drawn: PrivId, msg: RatchetMessage, ad: bytes)
    requires |st.skipped| <= MAX_SKIP
    ensures var after := Decrypted(st, drawn, msg, ad).0.skipped;
            var kept := TriedSkipped(st, msg, ad).0.skipped;
            |after| <= MAX_SKIP && |kept| <= |after| && after[..|kept|] == kept &&
            |after| - |kept| <= MAX_SKIP - |kept|
  {
    var tried := TriedSkipped(st, msg, ad).0;
    OpenedCaches(tried, msg, ad);
    var s := Skipped(tried, msg.header.pn);
    if s.Success? {
      OpenedCaches(Stepped(s.value, msg.header.dh, drawn), msg, ad);
    }
  }

  // ----- what a failure leaves, for arbitrary messages -----

  /** Whether a header that does not lead to an opened message is turned away before anything is touched: no
      cached key answers to it, and either there is no chain to try on, or catching up as it asks, on the
      chain being followed, would overfill the cache. */
  predicate TurnedAway(st: State, h: Header) {
    && FirstMatch(st.skipped, h) == |st.skipped|
    && var ask := if st.dhr == Some(h.dh) then h.n else h.pn;
       if st.ckr.None? then st.dhr == Some(h.dh) else SaturatingSub(ask, st.nr) + |st.skipped| > MAX_SKIP
  }

  /** Any message at all that does not open, honest, forged or unsigned: the session is left as it was if and
      only if the header is turned away. There is no rollback for anything that gets further. */
  lemma FailureKeepsState(st: State, drawn: PrivId, msg: RatchetMessage, ad: bytes)
    requires drawn != st.dhs && Decrypted(st, drawn, msg, ad).1.Failure?
    ensures Decrypted(st, drawn, msg, ad).0 == st <==> TurnedAway(st, msg.header)
  {
    var (tried, _) := TriedSkipped(st, msg, ad);
    if FirstMatch(st.skipped, msg.header) < |st.skipped| {
      LostEntry(tried, st, msg, ad);
    }
  }

  /** Once an entry is gone from the cache, what follows cannot put the state back: if the cache grows again,
      the counter has moved. */
  lemma LostEntry(tried: State, st: State, msg: RatchetMessage, ad: bytes)
    requires |tried.skipped| < |st.skipped| && tried == st.(skipped := tried.skipped)
    ensures Opened(tried, msg, ad).0 != st
  {
    var s := Skipped(tried, msg.header.n);
    if s.Success? && s.value.ckr.Some? {
      var count := SaturatingSub(msg.header.n, tried.nr);
      assert count <= MAX_SKIP;
      assert WrapInc(s.value.nr) != st.nr;
    }
  }
}
