// Cryptography as a symbolic algebra. Every primitive is a free constructor, so that two outputs
// are equal exactly when all their inputs are; agreement between peers is then a theorem.
module Symbolic {
  import opened Wrappers
  import opened Words

  /** A private X25519 scalar; the public half carries the same identity. */
  type PrivId = nat
  datatype Pub = Pub(id: PrivId)

  /** A Diffie-Hellman output is an unordered pair of private scalars. */
  datatype DhOut = DhOut(lo: PrivId, hi: PrivId)

  function DiffieHellman(mine: PrivId, theirs: Pub): DhOut {
    if mine <= theirs.id then DhOut(mine, theirs.id) else DhOut(theirs.id, mine)
  }

  lemma DiffieHellmanAgrees(a: PrivId, b: PrivId, c: PrivId, d: PrivId)
    ensures DiffieHellman(a, Pub(b)) == DiffieHellman(c, Pub(d)) <==> {a, b} == {c, d}
  {
    if {a, b} == {c, d} {
      assert a in {c, d} && b in {c, d} && c in {a, b} && d in {a, b};
    }
  }

  /** An ideal KEM: the encapsulator picks `coins`; a key that does not match the ciphertext yields
      an unrelated secret (ML-KEM's implicit rejection). */
  datatype KemCt = KemCt(ek: nat, coins: nat)
  datatype KemSecret = Encapsulated(ek: nat, coins: nat) | Rejected(dk: nat, ct: KemCt)

  function Decapsulate(dk: nat, ct: KemCt): KemSecret {
    if dk == ct.ek then Encapsulated(ct.ek, ct.coins) else Rejected(dk, ct)
  }

  /** One 32-byte block of HKDF input keying material. */
  datatype Block = DhBlock(dh: DhOut) | KemBlock(ss: KemSecret)

  /** 32-byte secrets. `Root` and `Chain` are the two halves of KDF_RK's output, `Next` and `Message`
      the two HMAC outputs of KDF_CK. */
  datatype Key =
    | Random(id: nat)
    | Agreed(info: string, ikm: seq<Block>)
    | SessionId(sk: Key)
    | Root(rk: Key, dh: DhOut)
    | Chain(rk: Key, dh: DhOut)
    | Next(ck: Key)
    | Message(ck: Key)

  /** A chain key moved on by `steps` applications of KDF_CK. */
  function Advance(ck: Key, steps: nat): Key {
    if steps == 0 then ck else Next(Advance(ck, steps - 1))
  }

  lemma {:induction false} AdvanceAdds(ck: Key, m: nat, n: nat)
    ensures Advance(Advance(ck, m), n) == Advance(ck, m + n)
  {
    if n > 0 {
      AdvanceAdds(ck, m, n - 1);
    }
  }

  /** Where a chain key's chain starts, and how far along it the key lies. */
  function Base(ck: Key): Key {
    if ck.Next? then Base(ck.ck) else ck
  }

  function Depth(ck: Key): nat {
    if ck.Next? then 1 + Depth(ck.ck) else 0
  }

  lemma {:induction false} AdvanceDeepens(ck: Key, steps: nat)
    ensures Base(Advance(ck, steps)) == Base(ck)
    ensures Depth(Advance(ck, steps)) == Depth(ck) + steps
  {
    if steps > 0 {
      AdvanceDeepens(ck, steps - 1);
    }
  }

  /** An AEAD ciphertext either seals a plaintext under a key and its associated data, or is a byte
      string no key opens. */
  datatype Cipher<A> = Sealed(key: Key, plaintext: bytes, aad: A) | Forged(raw: bytes)

  function AeadOpen<A(==)>(key: Key, ct: Cipher<A>, aad: A): Option<bytes> {
    if ct.Sealed? && ct.key == key && ct.aad == aad then Some(ct.plaintext) else None
  }
}
