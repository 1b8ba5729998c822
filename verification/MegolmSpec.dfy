// Group sender chains on values, and the result that the receiver's chain, counter and cache are an
// efficient form of "the set of messages opened so far".
module MegolmSpec {
  import opened Wrappers
  import opened Words
  import opened Symbolic

  const MAX_SKIP: nat := 1000

  datatype MegolmError = BadAead | BadSignature | TooManySkipped | MessageKeyMissing(index: u32) | BadVerifyingKey

  datatype VerifyKey = VerifyKey(signer: nat) | MalformedKey

  datatype Aad = Aad(index: u32, ad: bytes)

  /** An Ed25519 signature over the canonical bytes of (index, ad, ciphertext), or bytes no key verifies. */
  datatype Signature = Signed(signer: nat, index: u32, ad: bytes, ct: Cipher<Aad>) | Junk(raw: bytes)

  datatype Bundle = Bundle(chainKey: Key, index: u32, verifyPub: VerifyKey)

  datatype GroupMessage = GroupMessage(index: u32, ciphertext: Cipher<Aad>, signature: Signature)

  datatype Sender = Sender(chainKey: Key, index: u32, signPriv: nat)

  datatype SkippedKey = SkippedKey(index: u32, messageKey: Key)

  datatype Receiver = Receiver(chainKey: Key, nextIndex: u32, verifyPub: VerifyKey, skipped: seq<SkippedKey>)

  function FromBundle(b: Bundle): Receiver {
    Receiver(b.chainKey, b.index, b.verifyPub, [])
  }

  function CurrentBundle(s: Sender): Bundle {
    Bundle(s.chainKey, s.index, VerifyKey(s.signPriv))
  }

  function Encrypted(s: Sender, plaintext: bytes, ad: bytes): (Sender, GroupMessage) {
    var ct := Sealed(Message(s.chainKey), plaintext, Aad(s.index, ad));
    (Sender(Next(s.chainKey), WrapInc(s.index), s.signPriv),
     GroupMessage(s.index, ct, Signed(s.signPriv, s.index, ad, ct)))
  }

  predicate Verifies(key: VerifyKey, msg: GroupMessage, ad: bytes) {
    key.VerifyKey? && msg.signature == Signed(key.signer, msg.index, ad, msg.ciphertext)
  }

  function FirstAt(cache: seq<SkippedKey>, index: u32): (pos: nat)
    ensures pos <= |cache|
    ensures forall i | 0 <= i < pos :: cache[i].index != index
    ensures pos < |cache| ==> cache[pos].index == index
  {
    if cache == [] then 0
    else if cache[0].index == index then 0
    else 1 + FirstAt(cache[1..], index)
  }

  function SkippedRun(chainKey: Key, from: nat, count: nat): (run: seq<SkippedKey>)
    requires from + count <= U32_LIMIT
    ensures |run| == count
  {
    seq(count, i requires 0 <= i < count => SkippedKey(from + i, Message(Advance(chainKey, i))))
  }

  function AsResult(found: Option<bytes>): Result<bytes, MegolmError> {
    match found
    case Some(pt) => Success(pt)
    case None => Failure(BadAead)
  }

  /** `decrypt`: the signature is checked before anything changes. */
  function Decrypted(r: Receiver, msg: GroupMessage, ad: bytes): (Receiver, Result<bytes, MegolmError>) {
    if r.verifyPub.MalformedKey? then (r, Failure(BadVerifyingKey))
    else if !Verifies(r.verifyPub, msg, ad) then (r, Failure(BadSignature))
    else if msg.index < r.nextIndex then
      var pos := FirstAt(r.skipped, msg.index);
      if pos == |r.skipped| then (r, Failure(MessageKeyMissing(msg.index)))
      else (r.(skipped := RemoveAt(r.skipped, pos)),
            AsResult(AeadOpen(r.skipped[pos].messageKey, msg.ciphertext, Aad(msg.index, ad))))
    else
      var count := msg.index - r.nextIndex;
      if count + |r.skipped| > MAX_SKIP then (r, Failure(TooManySkipped))
      else
        (r.(chainKey := Advance(r.chainKey, count + 1), nextIndex := WrapInc(msg.index),
            skipped := r.skipped + SkippedRun(r.chainKey, r.nextIndex, count)),
         AsResult(AeadOpen(Message(Advance(r.chainKey, count)), msg.ciphertext, Aad(msg.index, ad))))
  }

  // ----- the set a receiver stands for -----

  /** Message `i` of the chain that starts at `base`. */
  function Honest(base: Key, signer: nat, i: u32, plaintext: bytes, ad: bytes): GroupMessage {
    var ct := Sealed(Message(Advance(base, i)), plaintext, Aad(i, ad));
    GroupMessage(i, ct, Signed(signer, i, ad, ct))
  }

  /** What a fresh sender emits, and the state it is then in. */
  lemma SenderEmits(base: Key, signer: nat, i: u32, plaintext: bytes, ad: bytes)
    requires i + 1 < U32_LIMIT
    ensures Encrypted(Sender(Advance(base, i), i, signer), plaintext, ad) ==
              (Sender(Advance(base, i + 1), i + 1, signer), Honest(base, signer, i, plaintext, ad))
  {
  }

  /** The messages opened: `from` is where the bundle started, `top` is one past the highest opened. */
  datatype Opened = Opened(from: nat, top: nat, got: set<nat>)

  ghost predicate WellFormed(o: Opened) {
    && o.from <= o.top < U32_LIMIT
    && (forall i | i in o.got :: o.from <= i < o.top)
    && (o.top == o.from || o.top - 1 in o.got)
  }

  /** How many messages from `from` up to `k` are still to be opened. */
  function Unopened(o: Opened, k: nat): nat {
    if k <= o.from then 0 else Unopened(o, k - 1) + (if k - 1 in o.got then 0 else 1)
  }

  /** The specification: a message of the chain is accepted once, from the bundle on, and one ahead of all
      others only when at most MAX_SKIP messages before it are still to come. */
  predicate Accepts(o: Opened, i: nat) {
    o.from <= i && i !in o.got && (i < o.top || Unopened(o, i) <= MAX_SKIP)
  }

  function Accept(o: Opened, i: nat): Opened {
    Opened(o.from, if i < o.top then o.top else i + 1, o.got + {i})
  }

  function MissingKeys(base: Key, o: Opened, k: nat): seq<SkippedKey>
    requires k < U32_LIMIT
  {
    if k <= o.from then []
    else MissingKeys(base, o, k - 1) + (if k - 1 in o.got then [] else [SkippedKey(k - 1, Message(Advance(base, k - 1)))])
  }

  /** The receiver that stands for `o`: it is determined by the set. */
  function Standing(base: Key, signer: nat, o: Opened): Receiver
    requires o.top < U32_LIMIT
  {
    Receiver(Advance(base, o.top), o.top, VerifyKey(signer), MissingKeys(base, o, o.top))
  }

  // ----- the cache as a list of the missing -----

  lemma {:induction false} MissingCounts(base: Key, o: Opened, k: nat)
    requires k < U32_LIMIT
    ensures |MissingKeys(base, o, k)| == Unopened(o, k)
  {
    if k > o.from {
      MissingCounts(base, o, k - 1);
    }
  }

  /** The cache is in increasing order and names exactly the missing indices below `k`. */
  lemma {:induction false} MissingNames(base: Key, o: Opened, k: nat, p: nat)
    requires k < U32_LIMIT && p < |MissingKeys(base, o, k)|
    ensures var e := MissingKeys(base, o, k)[p];
            o.from <= e.index < k && e.index !in o.got && e.messageKey == Message(Advance(base, e.index)) &&
            Unopened(o, e.index) == p
  {
    if k > o.from {
      MissingCounts(base, o, k - 1);
      if p < |MissingKeys(base, o, k - 1)| {
        MissingNames(base, o, k - 1, p);
      }
    }
  }

  lemma {:induction false} MissingIgnores(base: Key, o: Opened, k: nat, i: nat)
    requires k < U32_LIMIT && k <= i
    ensures MissingKeys(base, Accept(o, i), k) == MissingKeys(base, o, k)
  {
    if k > o.from {
      MissingIgnores(base, o, k - 1, i);
    }
  }

  /** Opening `i` takes exactly its entry out. */
  lemma {:induction false} MissingRemoves(base: Key, o: Opened, k: nat, i: nat)
    requires k < U32_LIMIT && o.from <= i < k && i !in o.got
    ensures var all, pos := MissingKeys(base, o, k), Unopened(o, i);
            pos < |all| && all[pos] == SkippedKey(i, Message(Advance(base, i))) &&
            RemoveAt(all, pos) == MissingKeys(base, Accept(o, i), k)
  {
    var before := MissingKeys(base, o, k - 1);
    if i == k - 1 {
      MissingCounts(base, o, i);
      MissingIgnores(base, o, i, i);
      assert MissingKeys(base, Accept(o, i), k) == before + [];
      assert RemoveAt(MissingKeys(base, o, k), |before|) == before + [];
    } else {
      MissingRemoves(base, o, k - 1, i);
      RemoveBefore(before, Unopened(o, i), MissingKeys(base, o, k)[|before|..]);
    }
  }

  /** Walking the chain from `top` to `i` caches exactly what is missing. */
  lemma {:induction false} MissingRun(base: Key, o: Opened, i: nat)
    requires WellFormed(o) && o.top <= i < U32_LIMIT
    ensures MissingKeys(base, o, i) == MissingKeys(base, o, o.top) + SkippedRun(Advance(base, o.top), o.top, i - o.top)
    ensures Unopened(o, i) == Unopened(o, o.top) + (i - o.top)
  {
    if o.top < i {
      MissingRun(base, o, i - 1);
      AdvanceAdds(base, o.top, i - 1 - o.top);
    }
  }

  lemma LookupFinds(base: Key, o: Opened, k: nat, i: u32)
    requires k < U32_LIMIT && i < k
    ensures FirstAt(MissingKeys(base, o, k), i) ==
              if o.from <= i && i !in o.got then Unopened(o, i) else |MissingKeys(base, o, k)|
  {
    var all := MissingKeys(base, o, k);
    var pos := FirstAt(all, i);
    if pos < |all| {
      MissingNames(base, o, k, pos);
    } else if o.from <= i && i !in o.got {
      MissingRemoves(base, o, k, i);
    }
  }

  // ----- refinement -----

  /** The receiver refines the set. An honest message is opened, to what was sent, if and only if the set
      accepts it; otherwise the receiver does not change at all. */
  lemma ReceiverRefinesSet(base: Key, signer: nat, o: Opened, i: u32, plaintext: bytes, ad: bytes)
    requires WellFormed(o) && i + 1 < U32_LIMIT
    ensures var (r, result) := Decrypted(Standing(base, signer, o), Honest(base, signer, i, plaintext, ad), ad);
            if Accepts(o, i)
            then WellFormed(Accept(o, i)) && r == Standing(base, signer, Accept(o, i)) && result == Success(plaintext)
            else r == Standing(base, signer, o) &&
                 result == Failure(if i < o.top then MessageKeyMissing(i) else TooManySkipped)
  {
    if i < o.top {
      RefinesBelow(base, signer, o, i, plaintext, ad);
    } else {
      RefinesAbove(base, signer, o, i, plaintext, ad);
    }
  }

  lemma RefinesBelow(base: Key, signer: nat, o: Opened, i: u32, plaintext: bytes, ad: bytes)
    requires WellFormed(o) && i < o.top
    ensures var (r, result) := Decrypted(Standing(base, signer, o), Honest(base, signer, i, plaintext, ad), ad);
            if Accepts(o, i)
            then WellFormed(Accept(o, i)) && r == Standing(base, signer, Accept(o, i)) && result == Success(plaintext)
            else r == Standing(base, signer, o) && result == Failure(MessageKeyMissing(i))
  {
    hide MissingKeys, Unopened, Advance;
    LookupFinds(base, o, o.top, i);
    if o.from <= i && i !in o.got {
      MissingRemoves(base, o, o.top, i);
    }
  }

  /** Opening a message ahead of all others leaves the cache that stands for the larger set. */
  lemma CacheAbove(base: Key, o: Opened, i: nat)
    requires WellFormed(o) && o.top <= i && i + 1 < U32_LIMIT
    ensures MissingKeys(base, Accept(o, i), i + 1) ==
              MissingKeys(base, o, o.top) + SkippedRun(Advance(base, o.top), o.top, i - o.top)
  {
    MissingRun(base, o, i);
    MissingIgnores(base, o, i, i);
    assert MissingKeys(base, Accept(o, i), i) + [] == MissingKeys(base, Accept(o, i), i);
  }

  lemma RefinesAbove(base: Key, signer: nat, o: Opened, i: u32, plaintext: bytes, ad: bytes)
    requires WellFormed(o) && o.top <= i && i + 1 < U32_LIMIT
    ensures var (r, result) := Decrypted(Standing(base, signer, o), Honest(base, signer, i, plaintext, ad), ad);
            if Accepts(o, i)
            then WellFormed(Accept(o, i)) && r == Standing(base, signer, Accept(o, i)) && result == Success(plaintext)
            else r == Standing(base, signer, o) && result == Failure(TooManySkipped)
  {
    hide MissingKeys, Unopened, Advance, SkippedRun;
    CacheAbove(base, o, i);
    MissingRun(base, o, i);
    MissingCounts(base, o, o.top);
    AdvanceAdds(base, o.top, i - o.top);
    AdvanceAdds(base, o.top, i - o.top + 1);
  }

  // ----- whole runs -----

  datatype Arrival = Arrival(index: u32, plaintext: bytes, ad: bytes)

  function ReceiveAll(base: Key, signer: nat, r: Receiver, arrivals: seq<Arrival>): Receiver
    decreases |arrivals|
  {
    if arrivals == [] then r
    else
      var a := arrivals[0];
      ReceiveAll(base, signer, Decrypted(r, Honest(base, signer, a.index, a.plaintext, a.ad), a.ad).0, arrivals[1..])
  }

  function AcceptAll(o: Opened, arrivals: seq<Arrival>): Opened
    decreases |arrivals|
  {
    if arrivals == [] then o
    else
      var i := arrivals[0].index;
      AcceptAll(if Accepts(o, i) then Accept(o, i) else o, arrivals[1..])
  }

  /** After any arrivals, in any order and with any repetition, the receiver is the one that stands for the
      set of messages accepted. */
  lemma {:induction false} RunRefinesSet(base: Key, signer: nat, o: Opened, arrivals: seq<Arrival>)
    requires WellFormed(o) && forall a | a in arrivals :: a.index + 1 < U32_LIMIT
    ensures WellFormed(AcceptAll(o, arrivals))
    ensures ReceiveAll(base, signer, Standing(base, signer, o), arrivals) == Standing(base, signer, AcceptAll(o, arrivals))
    decreases |arrivals|
  {
    if arrivals != [] {
      var a := arrivals[0];
      ReceiverRefinesSet(base, signer, o, a.index, a.plaintext, a.ad);
      RunRefinesSet(base, signer, if Accepts(o, a.index) then Accept(o, a.index) else o, arrivals[1..]);
    }
  }

  lemma BundleStands(base: Key, signer: nat, from: u32)
    ensures FromBundle(CurrentBundle(Sender(Advance(base, from), from, signer))) == Standing(base, signer, Opened(from, from, {}))
  {
  }

  /** Order independence: two runs from the same bundle that accepted the same set end in the same state,
      and one that has accepted everything up to its highest message has an empty cache. */
  lemma OrderDoesNotMatter(base: Key, signer: nat, from: u32, xs: seq<Arrival>, ys: seq<Arrival>)
    requires forall a | a in xs :: a.index + 1 < U32_LIMIT
    requires forall a | a in ys :: a.index + 1 < U32_LIMIT
    ensures var start := FromBundle(CurrentBundle(Sender(Advance(base, from), from, signer)));
            var x, y := AcceptAll(Opened(from, from, {}), xs), AcceptAll(Opened(from, from, {}), ys);
            && (x.got == y.got ==> ReceiveAll(base, signer, start, xs) == ReceiveAll(base, signer, start, ys))
            && ((forall i | from <= i < x.top :: i in x.got) <==> ReceiveAll(base, signer, start, xs).skipped == [])
  {
    EndsStanding(base, signer, from, xs);
    EndsStanding(base, signer, from, ys);
    hide *;
    var x, y := AcceptAll(Opened(from, from, {}), xs), AcceptAll(Opened(from, from, {}), ys);
    if x.got == y.got {
      TopFromSet(x, y);
    }
  }

  /** Where a run from a bundle ends, and when its cache is empty. */
  lemma EndsStanding(base: Key, signer: nat, from: u32, arrivals: seq<Arrival>)
    requires forall a | a in arrivals :: a.index + 1 < U32_LIMIT
    ensures var start := FromBundle(CurrentBundle(Sender(Advance(base, from), from, signer)));
            var o := AcceptAll(Opened(from, from, {}), arrivals);
            var end := ReceiveAll(base, signer, start, arrivals);
            && WellFormed(o) && o.from == from && end == Standing(base, signer, o)
            && (end.skipped == [] <==> forall i | from <= i < o.top :: i in o.got)
  {
    var none := Opened(from, from, {});
    hide Accepts, Accept, Unopened, Decrypted, MissingKeys, ReceiveAll, AcceptAll, Encrypted;
    BundleStands(base, signer, from);
    RunRefinesSet(base, signer, none, arrivals);
    AcceptKeepsFrom(none, arrivals);
    NothingMissing(base, AcceptAll(none, arrivals), AcceptAll(none, arrivals).top);
  }

  /** The set of opened messages determines how far the chain has been walked. */
  lemma TopFromSet(x: Opened, y: Opened)
    requires WellFormed(x) && WellFormed(y) && x.from == y.from && x.got == y.got
    ensures x == y
  {
  }

  lemma {:induction false} AcceptKeepsFrom(o: Opened, arrivals: seq<Arrival>)
    ensures AcceptAll(o, arrivals).from == o.from
    decreases |arrivals|
  {
    if arrivals != [] {
      var i := arrivals[0].index;
      AcceptKeepsFrom(if Accepts(o, i) then Accept(o, i) else o, arrivals[1..]);
    }
  }

  lemma {:induction false} NothingMissing(base: Key, o: Opened, k: nat)
    requires k < U32_LIMIT
    ensures MissingKeys(base, o, k) == [] <==> forall i | o.from <= i < k :: i in o.got
  {
    if k > o.from {
      NothingMissing(base, o, k - 1);
    }
  }

  /** For any message at all, the cache never outgrows MAX_SKIP. */
  lemma SkipBound(r: Receiver, msg: GroupMessage, ad: bytes)
    requires |r.skipped| <= MAX_SKIP
    ensures |Decrypted(r, msg, ad).0.skipped| <= MAX_SKIP
  {
  }

  /** For any message and any receiver: what opens carries the signature of the chain's owner over exactly this
      index, associated data and ciphertext, and was sealed for them. One that is not signed so changes
      nothing. The chain keys are known to every reader, so it is this that tells the readers from the owner. */
  lemma OpensOnlySigned(r: Receiver, msg: GroupMessage, ad: bytes)
    ensures var (after, result) := Decrypted(r, msg, ad);
            var signed := r.verifyPub.VerifyKey? && msg.signature == Signed(r.verifyPub.signer, msg.index, ad, msg.ciphertext);
            && (!signed ==> after == r && result == Failure(if r.verifyPub.MalformedKey? then BadVerifyingKey else BadSignature))
            && (result.Success? ==> signed && msg.ciphertext.Sealed? && msg.ciphertext.aad == Aad(msg.index, ad) &&
                                    result.value == msg.ciphertext.plaintext)
            && after.verifyPub == r.verifyPub
  {
  }

  /** So with signatures that only their owner can make, a message that opens is one that the owner sent, as it
      was sent: `made` lists what the owner has sent, with its associated data. */
  lemma OpensOnlyTheOwners(r: Receiver, signer: nat, made: seq<(GroupMessage, bytes)>, msg: GroupMessage, ad: bytes)
    requires r.verifyPub == VerifyKey(signer)
    requires forall m | m in made :: m.0.signature == Signed(signer, m.0.index, m.1, m.0.ciphertext)
    requires msg.signature.Signed? && msg.signature.signer == signer ==> exists m :: m in made && m.0.signature == msg.signature
    ensures Decrypted(r, msg, ad).1.Success? ==> (msg, ad) in made
  {
    OpensOnlySigned(r, msg, ad);
    if Decrypted(r, msg, ad).1.Success? {
      var m :| m in made && m.0.signature == msg.signature;
      assert m == (msg, ad);
    }
  }
}
