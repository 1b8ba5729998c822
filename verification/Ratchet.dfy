// The per-peer session object. Each method updates the fields in place and is proved against
// RatchetSpec; the key the random generator draws is a parameter.
module Ratchet {
  import opened Wrappers
  import opened Words
  import opened Symbolic
  import Spec = RatchetSpec

  class RatchetState {
    var dhs: PrivId
    var dhr: Option<Pub>
    var rk: Key
    var cks: Option<Key>
    var ckr: Option<Key>
    var ns: u32
    var nr: u32
    var pn: u32
    var skipped: seq<Spec.SkippedKey>
    var sessionId: Key

    function View(): Spec.State
      reads this
    {
      Spec.State(dhs, dhr, rk, cks, ckr, ns, nr, pn, skipped, sessionId)
    }

    constructor NewInitiator(sk: Key, theirs: Pub, drawn: PrivId)
      ensures View() == Spec.NewInitiator(sk, theirs, drawn)
    {
      dhs, dhr := drawn, Some(theirs);
      var dh := DiffieHellman(drawn, theirs);
      rk, cks, ckr := Root(sk, dh), Some(Chain(sk, dh)), None;
      ns, nr, pn, skipped, sessionId := 0, 0, 0, [], SessionId(sk);
    }

    constructor NewResponder(sk: Key, mine: PrivId)
      ensures View() == Spec.NewResponder(sk, mine)
    {
      dhs, dhr, rk, cks, ckr := mine, None, sk, None, None;
      ns, nr, pn, skipped, sessionId := 0, 0, 0, [], SessionId(sk);
    }

    method Encrypt(plaintext: bytes, ad: bytes) returns (r: Result<Spec.RatchetMessage, Spec.RatchetError>)
      modifies this
      ensures (View(), r) == Spec.Encrypted(old(View()), plaintext, ad)
    {
      if cks.None? {
        return Failure(Spec.NotInitialized);
      }
      var mk := Message(cks.value);
      cks := Some(Next(cks.value));
      var header := Spec.Header(Pub(dhs), pn, ns);
      ns := WrapInc(ns);
      r := Success(Spec.RatchetMessage(header, Sealed(mk, plaintext, Spec.Aad(ad, header))));
    }

    method Decrypt(msg: Spec.RatchetMessage, ad: bytes, drawn: PrivId)
      returns (r: Result<bytes, Spec.RatchetError>)
      modifies this
      ensures (View(), r) == Spec.Decrypted(old(View()), drawn, msg, ad)
    {
      var hit := TrySkipped(msg, ad);
      if hit.Some? {
        return Success(hit.value);
      }
      if dhr != Some(msg.header.dh) {
        var skip := SkipMessageKeys(msg.header.pn);
        if skip.Failure? {
          return Failure(skip.error);
        }
        DhRatchetStep(msg.header.dh, drawn);
      }
      var skip := SkipMessageKeys(msg.header.n);
      if skip.Failure? {
        return Failure(skip.error);
      }
      if ckr.None? {
        return Failure(Spec.NotInitialized);
      }
      var mk := Message(ckr.value);
      ckr := Some(Next(ckr.value));
      nr := WrapInc(nr);
      var pt := AeadOpen(mk, msg.ciphertext, Spec.Aad(ad, msg.header));
      r := if pt.Some? then Success(pt.value) else Failure(Spec.BadAead);
    }

    method TrySkipped(msg: Spec.RatchetMessage, ad: bytes) returns (hit: Option<bytes>)
      modifies this
      ensures (View(), hit) == Spec.TriedSkipped(old(View()), msg, ad)
    {
      var pos := Spec.FirstMatch(skipped, msg.header);
      if pos == |skipped| {
        return None;
      }
      var entry := skipped[pos];
      skipped := RemoveAt(skipped, pos);
      hit := AeadOpen(entry.mk, msg.ciphertext, Spec.Aad(ad, msg.header));
    }

    /** Drops entries from the front until at most MAX_SKIP are left. */
    method EvictOldest()
      modifies this`skipped
      ensures skipped == Spec.Newest(old(skipped))
    {
      while |skipped| > Spec.MAX_SKIP
        invariant Spec.Newest(skipped) == Spec.Newest(old(skipped))
      {
        skipped := skipped[1..];
      }
    }

    /** Caches the keys of the messages before `until`. `Spec.Skipped` has no eviction: the call at the
        end never removes a key. */
    method SkipMessageKeys(until: u32) returns (r: Result<(), Spec.RatchetError>)
      modifies this
      ensures match Spec.Skipped(old(View()), until)
              case Success(s) => r == Success(()) && View() == s
              case Failure(e) => r == Failure(e) && View() == old(View())
    {
      if ckr.None? {
        return Success(());
      }
      if SaturatingSub(until, nr) + |skipped| > Spec.MAX_SKIP {
        return Failure(Spec.TooManySkipped);
      }
      if dhr.None? {
        return Success(());
      }
      var dh := dhr.value;
      ghost var first := nr;
      ghost var count := SaturatingSub(until, nr);
      while nr < until
        invariant first <= nr <= first + count
        invariant ckr == Some(Advance(old(ckr.value), nr - first))
        invariant skipped == old(skipped) + Spec.SkippedRun(dh, old(ckr.value), first, nr - first)
        invariant unchanged(`dhs, `dhr, `rk, `cks, `ns, `pn, `sessionId)
      {
        var mk := Message(ckr.value);
        ckr := Some(Next(ckr.value));
        skipped := skipped + [Spec.SkippedKey(dh, nr, mk)];
        nr := nr + 1;
      }
      EvictOldest();
      r := Success(());
    }

    method DhRatchetStep(incoming: Pub, drawn: PrivId)
      modifies this
      ensures View() == Spec.Stepped(old(View()), incoming, drawn)
    {
      pn := ns;
      ns := 0;
      nr := 0;
      dhr := Some(incoming);
      var dhIn := DiffieHellman(dhs, incoming);
      ckr := Some(Chain(rk, dhIn));
      rk := Root(rk, dhIn);
      dhs := drawn;
      var dhOut := DiffieHellman(drawn, incoming);
      cks := Some(Chain(rk, dhOut));
      rk := Root(rk, dhOut);
    }
  }
}
