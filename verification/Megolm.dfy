// The sender and receiver chain objects, updated in place.
module Megolm {
  import opened Wrappers
  import opened Words
  import opened Symbolic
  import Spec = MegolmSpec

  class SenderChain {
    var chainKey: Key
    var index: u32
    var signPriv: nat

    function View(): Spec.Sender
      reads this
    {
      Spec.Sender(chainKey, index, signPriv)
    }

    /** A fresh chain from a drawn key and signing seed. */
    constructor (drawn: nat, seed: nat)
      ensures View() == Spec.Sender(Random(drawn), 0, seed)
    {
      chainKey, index, signPriv := Random(drawn), 0, seed;
    }

    method Encrypt(plaintext: bytes, ad: bytes) returns (msg: Spec.GroupMessage)
      modifies this
      ensures (View(), msg) == Spec.Encrypted(old(View()), plaintext, ad)
    {
      var messageKey := Message(chainKey);
      var i := index;
      chainKey := Next(chainKey);
      index := WrapInc(index);
      var ct := Sealed(messageKey, plaintext, Spec.Aad(i, ad));
      msg := Spec.GroupMessage(i, ct, Spec.Signed(signPriv, i, ad, ct));
    }
  }

  class ReceiverChain {
    var chainKey: Key
    var nextIndex: u32
    var verifyPub: Spec.VerifyKey
    var skipped: seq<Spec.SkippedKey>

    function View(): Spec.Receiver
      reads this
    {
      Spec.Receiver(chainKey, nextIndex, verifyPub, skipped)
    }

    constructor FromBundle(b: Spec.Bundle)
      ensures View() == Spec.FromBundle(b)
    {
      chainKey, nextIndex, verifyPub, skipped := b.chainKey, b.index, b.verifyPub, [];
    }

    method Decrypt(msg: Spec.GroupMessage, ad: bytes) returns (r: Result<bytes, Spec.MegolmError>)
      modifies this
      ensures (View(), r) == Spec.Decrypted(old(View()), msg, ad)
    {
      if verifyPub.MalformedKey? {
        return Failure(Spec.BadVerifyingKey);
      }
      if !Spec.Verifies(verifyPub, msg, ad) {
        return Failure(Spec.BadSignature);
      }
      if msg.index < nextIndex {
        var pos := Spec.FirstAt(skipped, msg.index);
        if pos == |skipped| {
          return Failure(Spec.MessageKeyMissing(msg.index));
        }
        var entry := skipped[pos];
        skipped := RemoveAt(skipped, pos);
        return Spec.AsResult(AeadOpen(entry.messageKey, msg.ciphertext, Spec.Aad(msg.index, ad)));
      }
      var count := msg.index - nextIndex;
      if count + |skipped| > Spec.MAX_SKIP {
        return Failure(Spec.TooManySkipped);
      }
      for i := 0 to count
        invariant nextIndex == old(nextIndex) + i
        invariant chainKey == Advance(old(chainKey), i)
        invariant skipped == old(skipped) + Spec.SkippedRun(old(chainKey), old(nextIndex), i)
        invariant verifyPub == old(verifyPub)
      {
        skipped := skipped + [Spec.SkippedKey(nextIndex, Message(chainKey))];
        chainKey := Next(chainKey);
        nextIndex := WrapInc(nextIndex);
      }
      EvictOldest();
      var mk := Message(chainKey);
      chainKey := Next(chainKey);
      nextIndex := WrapInc(nextIndex);
      r := Spec.AsResult(AeadOpen(mk, msg.ciphertext, Spec.Aad(msg.index, ad)));
    }

    /** Drops entries from the front until at most MAX_SKIP are left; after `Decrypt`'s check that is none. */
    method EvictOldest()
      modifies this`skipped
      ensures skipped == if |old(skipped)| > Spec.MAX_SKIP then old(skipped)[|old(skipped)| - Spec.MAX_SKIP..] else old(skipped)
    {
      while |skipped| > Spec.MAX_SKIP
        invariant |skipped| <= |old(skipped)| && skipped == old(skipped)[|old(skipped)| - |skipped|..]
        invariant |old(skipped)| > Spec.MAX_SKIP ==> |skipped| >= Spec.MAX_SKIP
        invariant |old(skipped)| <= Spec.MAX_SKIP ==> skipped == old(skipped)
      {
        skipped := skipped[1..];
      }
    }
  }
}
