// Keying the stream: each connection derives one keystream per direction, and the two ends take mirrored
// halves.
module ScrambleHandshake {
  import opened Wrappers
  import opened Symbolic

  const D2L_INFO := "ME55-chacha-d2l-v1"
  const L2D_INFO := "ME55-chacha-l2d-v1"

  /** What 32 received bytes decode to. */
  datatype Representative = Represents(pub: Pub) | LowOrder | Undecodable

  datatype HandshakeError = DidNotDecode | CollapsedToZero

  /** A ChaCha20 key and nonce, as HKDF output over the shared secret and the pre-shared key. */
  datatype KeyNonce = KeyNonce(info: string, shared: DhOut, obfsKey: nat)

  datatype Split = Split(outgoing: KeyNonce, incoming: KeyNonce)

  function DeriveKeystreamPairs(shared: DhOut, obfsKey: nat): (KeyNonce, KeyNonce) {
    (KeyNonce(D2L_INFO, shared, obfsKey), KeyNonce(L2D_INFO, shared, obfsKey))
  }

  /** `scramble_handshake` after the representatives are exchanged. */
  function SplitKeys(mine: PrivId, theirs: Representative, obfsKey: nat, isDialer: bool): Result<Split,
                     HandshakeError> {
    match theirs
    case Undecodable => Failure(DidNotDecode)
    case LowOrder => Failure(CollapsedToZero)
    case Represents(pub) =>
      var (d2l, l2d) := DeriveKeystreamPairs(DiffieHellman(mine, pub), obfsKey);
      Success(if isDialer then Split(d2l, l2d) else Split(l2d, d2l))
  }

  lemma InfosDiffer()
    ensures D2L_INFO != L2D_INFO
  {
    assert D2L_INFO[12] != L2D_INFO[12];
  }

  /** What one end sends is what the other reads if and only if they share the pre-shared key, hold opposite
      roles, and agree on the pair of ephemerals; then the other direction matches as well. The public keys
      `seen` are whatever arrived, so a man in the middle is included. */
  lemma MirroredExactly(a: PrivId, seenByA: Pub, keyA: nat, dialerA: bool, b: PrivId, seenByB: Pub, keyB: nat,
                        dialerB: bool)
    ensures var x := SplitKeys(a, Represents(seenByA), keyA, dialerA);
            var y := SplitKeys(b, Represents(seenByB), keyB, dialerB);
            && x.Success? && y.Success?
            && (x.value.outgoing == y.value.incoming <==>
                keyA == keyB && dialerA != dialerB && {a, seenByA.id} == {b, seenByB.id})
            && (x.value.outgoing == y.value.incoming <==> x.value.incoming == y.value.outgoing)
  {
    InfosDiffer();
    DiffieHellmanAgrees(a, seenByA.id, b, seenByB.id);
  }

  /** No keystream is used in both directions, nor by two connections unless both ephemerals recur. */
  lemma NoTwoTimePad(a: PrivId, seen: Representative, key: nat, dialer: bool, a': PrivId, seen': Representative,
                     key': nat, dialer': bool)
    ensures var x, y := SplitKeys(a, seen, key, dialer), SplitKeys(a', seen', key', dialer');
            && (x.Success? <==> seen.Represents?)
            && (x.Success? ==> x.value.outgoing != x.value.incoming)
            && (x.Success? && y.Success? && x.value.outgoing == y.value.outgoing ==>
                {a, seen.pub.id} == {a', seen'.pub.id} && dialer == dialer')
  {
    InfosDiffer();
    if seen.Represents? && seen'.Represents? {
      DiffieHellmanAgrees(a, seen.pub.id, a', seen'.pub.id);
    }
  }
}
