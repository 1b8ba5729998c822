// X3DH-lite: the four initiator/responder derivations and the HKDF inputs they feed.
module X3dh {
  import opened Symbolic

  const X3DH_INFO := "ME55-x3dh-v1"
  const X3DH_INFO_OTPK := "ME55-x3dh-otpk-v1"
  const X3DH_INFO_PQ := "ME55-x3dh-pq-v1"
  const X3DH_INFO_OTPK_PQ := "ME55-x3dh-otpk-pq-v1"

  // HKDF over the concatenation of its blocks; all blocks are 32 bytes wide.

  function DeriveSharedSecret(dh1: DhOut, dh2: DhOut): Key {
    Agreed(X3DH_INFO, [DhBlock(dh1), DhBlock(dh2)])
  }

  function DeriveSharedSecret3(dh1: DhOut, dh2: DhOut, dh3: DhOut): Key {
    Agreed(X3DH_INFO_OTPK, [DhBlock(dh1), DhBlock(dh2), DhBlock(dh3)])
  }

  function DeriveSharedSecretPq(dh1: DhOut, dh2: DhOut, pq: KemSecret): Key {
    Agreed(X3DH_INFO_PQ, [DhBlock(dh1), DhBlock(dh2), KemBlock(pq)])
  }

  function DeriveSharedSecret3Pq(dh1: DhOut, dh2: DhOut, dh3: DhOut, pq: KemSecret): Key {
    Agreed(X3DH_INFO_OTPK_PQ, [DhBlock(dh1), DhBlock(dh2), DhBlock(dh3), KemBlock(pq)])
  }

  // The ephemeral scalar is the one the random generator draws.

  function InitiatorDerive(mine: PrivId, spk: Pub, eph: PrivId): (Pub, Key) {
    (Pub(eph), DeriveSharedSecret(DiffieHellman(eph, spk), DiffieHellman(mine, spk)))
  }

  function ResponderDerive(spk: PrivId, eph: Pub, initiator: Pub): Key {
    DeriveSharedSecret(DiffieHellman(spk, eph), DiffieHellman(spk, initiator))
  }

  function InitiatorDeriveWithOtpk(mine: PrivId, spk: Pub, otpk: Pub, eph: PrivId): (Pub, Key) {
    (Pub(eph), DeriveSharedSecret3(DiffieHellman(eph, spk), DiffieHellman(mine, spk), DiffieHellman(eph, otpk)))
  }

  function ResponderDeriveWithOtpk(spk: PrivId, otpk: PrivId, eph: Pub, initiator: Pub): Key {
    DeriveSharedSecret3(DiffieHellman(spk, eph), DiffieHellman(spk, initiator), DiffieHellman(otpk, eph))
  }

  function InitiatorDeriveHybrid(mine: PrivId, spk: Pub, pq: KemSecret, eph: PrivId): (Pub, Key) {
    (Pub(eph), DeriveSharedSecretPq(DiffieHellman(eph, spk), DiffieHellman(mine, spk), pq))
  }

  function ResponderDeriveHybrid(spk: PrivId, eph: Pub, initiator: Pub, pq: KemSecret): Key {
    DeriveSharedSecretPq(DiffieHellman(spk, eph), DiffieHellman(spk, initiator), pq)
  }

  function InitiatorDeriveWithOtpkHybrid(mine: PrivId, spk: Pub, otpk: Pub, pq: KemSecret, eph: PrivId): (Pub, Key) {
    (Pub(eph), DeriveSharedSecret3Pq(DiffieHellman(eph, spk), DiffieHellman(mine, spk), DiffieHellman(eph, otpk), pq))
  }

  function ResponderDeriveWithOtpkHybrid(spk: PrivId, otpk: PrivId, eph: Pub, initiator: Pub, pq: KemSecret): Key {
    DeriveSharedSecret3Pq(DiffieHellman(spk, eph), DiffieHellman(spk, initiator), DiffieHellman(otpk, eph), pq)
  }
}
