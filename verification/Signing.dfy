// The bytes that are signed. Each purpose has its own domain in front, so that a signature made for one
// purpose cannot be presented for another.
module Signing {
  import opened Wrappers
  import opened Words
  import opened Codec

  datatype Purpose = DirectMessage | SealedMessage | Prekey | MlKemPrekey | GroupControl | GroupMessage

  function Domain(p: Purpose): string {
    match p
    case DirectMessage => "ME55-dm-v1"
    case SealedMessage => "ME55-sealed-dm-v1"
    case Prekey => "ME55-prekey-v1"
    case MlKemPrekey => "ME55-ml-kem-prekey-v1"
    case GroupControl => "ME55-group-ctrl-v1"
    case GroupMessage => "ME55-group-msg-v1"
  }

  /** An ASCII literal as bytes. */
  function Ascii(s: string): (b: bytes)
    ensures |b| == |s|
  {
    seq(|s|, i requires 0 <= i < |s| => s[i] as int % 256)
  }

  function ToSign(p: Purpose, body: bytes): bytes {
    Ascii(Domain(p)) + body
  }

  lemma DomainShows(p: Purpose, body: bytes, i: nat)
    requires i < |Domain(p)|
    ensures ToSign(p, body)[i] == Domain(p)[i] as int % 256
  {
  }

  /** The six domains are prefix-free: signed strings of different purposes never coincide, and within one
      purpose the body is determined. */
  lemma PurposesNeverMeet(p: Purpose, x: bytes, q: Purpose, y: bytes)
    ensures ToSign(p, x) == ToSign(q, y) <==> p == q && x == y
  {
    if ToSign(p, x) == ToSign(q, y) {
      DomainShows(p, x, 5);
      DomainShows(q, y, 5);
      if p in {GroupControl, GroupMessage} && q in {GroupControl, GroupMessage} {
        DomainShows(p, x, 11);
        DomainShows(q, y, 11);
      }
      Peel(Ascii(Domain(p)), x, Ascii(Domain(q)), y);
    }
  }

  /** A signature names its signer (a PeerId embeds the verifying key) and the bytes it covers. */
  datatype Signature = Signature(signer: bytes, over: bytes)

  predicate Verifies(pid: bytes, over: bytes, sig: Signature) {
    sig == Signature(pid, over)
  }

  // ----- direct and sealed envelopes -----

  type i64 = x: int | -0x8000_0000_0000_0000 <= x < 0x8000_0000_0000_0000

  /** `i64::to_be_bytes`: two's complement. */
  function BeI64(x: i64): bytes {
    Be64(if x < 0 then x + U64_LIMIT else x)
  }

  type MessageType = t: byte | t <= 4

  datatype Envelope = Envelope(to: bytes, from: bytes, payload: bytes, timestamp: i64, ttl: i64, msgType: MessageType)

  predicate ShortFields(e: Envelope) {
    Short(e.to) && Short(e.from) && Short(e.payload)
  }

  function EnvelopeBody(e: Envelope): bytes {
    Lp(e.to) + (Lp(e.from) + (Lp(e.payload) + (BeI64(e.timestamp) + (BeI64(e.ttl) + [e.msgType]))))
  }

  /** `direct_signing_bytes`. */
  method DirectSigningBytes(e: Envelope) returns (out: bytes)
    ensures out == ToSign(DirectMessage, EnvelopeBody(e))
  {
    out := SigningBytes(Ascii(Domain(DirectMessage)), e, e.from);
  }

  /** `sealed_signing_bytes`: the sender's id stands where the empty `from` would. */
  method SealedSigningBytes(e: Envelope, senderPid: bytes) returns (out: bytes)
    ensures out == ToSign(SealedMessage, EnvelopeBody(e.(from := senderPid)))
  {
    out := SigningBytes(Ascii(Domain(SealedMessage)), e, senderPid);
  }

  method SigningBytes(domain: bytes, e: Envelope, sender: bytes) returns (out: bytes)
    ensures out == domain + EnvelopeBody(e.(from := sender))
  {
    out := domain;
    out := out + Lp(e.to);
    out := out + Lp(sender);
    out := out + Lp(e.payload);
    out := out + BeI64(e.timestamp);
    out := out + BeI64(e.ttl);
    out := out + [e.msgType];
  }

  lemma BeI64Injective(x: i64, y: i64)
    requires BeI64(x) == BeI64(y)
    ensures x == y
  {
    Be64Injective(if x < 0 then x + U64_LIMIT else x, if y < 0 then y + U64_LIMIT else y);
  }

  /** Every field of an envelope can be read back from what is signed. */
  lemma EnvelopeInjective(a: Envelope, b: Envelope)
    requires ShortFields(a) && ShortFields(b)
    ensures EnvelopeBody(a) == EnvelopeBody(b) <==> a == b
  {
    if EnvelopeBody(a) == EnvelopeBody(b) {
      var a3, b3 := BeI64(a.ttl) + [a.msgType], BeI64(b.ttl) + [b.msgType];
      var a2, b2 := BeI64(a.timestamp) + a3, BeI64(b.timestamp) + b3;
      var a1, b1 := Lp(a.payload) + a2, Lp(b.payload) + b2;
      PeelLp(a.to, Lp(a.from) + a1, b.to, Lp(b.from) + b1);
      PeelLp(a.from, a1, b.from, b1);
      PeelLp(a.payload, a2, b.payload, b2);
      Peel(BeI64(a.timestamp), a3, BeI64(b.timestamp), b3);
      Peel(BeI64(a.ttl), [a.msgType], BeI64(b.ttl), [b.msgType]);
      BeI64Injective(a.timestamp, b.timestamp);
      BeI64Injective(a.ttl, b.ttl);
    }
  }

  /** The signature field of an envelope, or of its sealed certificate: empty in deniable mode. */
  datatype SignatureField = Blank | Present(sig: Signature)

  function PathOf(sealed: bool): Purpose {
    if sealed then SealedMessage else DirectMessage
  }

  /** `verify` and `verify_sealed`, once the sender's id is at hand: the sender that is returned, if any. An
      empty signature is accepted without a check. */
  function VerifiedSender(sealed: bool, e: Envelope, field: SignatureField): Option<bytes> {
    match field
    case Blank => Some(e.from)
    case Present(sig) => if Verifies(e.from, ToSign(PathOf(sealed), EnvelopeBody(e)), sig) then Some(e.from) else None
  }

  /** The signature made for one envelope on one path is accepted for an envelope on a path exactly when path,
      signer and every signed field are the same; an empty one is accepted for every envelope. */
  lemma SignatureBindsEnvelope(sealed: bool, a: Envelope, sealed': bool, b: Envelope)
    requires ShortFields(a) && ShortFields(b)
    ensures var made := Signature(a.from, ToSign(PathOf(sealed), EnvelopeBody(a)));
            && (VerifiedSender(sealed', b, Present(made)).Some? <==> sealed == sealed' && a == b)
            && VerifiedSender(sealed', b, Blank) == Some(b.from)
  {
    PurposesNeverMeet(PathOf(sealed), EnvelopeBody(a), PathOf(sealed'), EnvelopeBody(b));
    EnvelopeInjective(a, b);
  }

  /** So the sender that is returned is bound if and only if the field is not empty: the same envelope with
      another sender in it passes as well exactly when nothing was signed. */
  lemma SenderBoundUnlessDeniable(sealed: bool, e: Envelope, other: bytes, field: SignatureField)
    requires other != e.from && VerifiedSender(sealed, e, field).Some?
    ensures VerifiedSender(sealed, e.(from := other), field).Some? <==> field.Blank?
  {
  }

  // ----- the sealed certificate -----

  datatype CertError = BadSenderPid(e: PopError) | BadSignature(e: PopError) | TrailingBytes

  /** The certificate parse in `verify_sealed`. */
  function ParseCert(cert: bytes): Result<(bytes, bytes), CertError> {
    match PopBytes(cert)
    case Failure(e) => Failure(BadSenderPid(e))
    case Success((pid, rest)) =>
      match PopBytes(rest)
      case Failure(e) => Failure(BadSignature(e))
      case Success((sig, left)) =>
        if left != [] then Failure(TrailingBytes) else Success((pid, sig))
  }

  /** The parse accepts exactly the encodings the sender makes, and returns their parts. */
  lemma CertParsesExactly(cert: bytes, pid: bytes, sig: bytes)
    ensures ParseCert(cert) == Success((pid, sig)) <==> Short(pid) && Short(sig) && cert == Lp(pid) + Lp(sig)
  {
    var none: bytes := [];
    assert Lp(sig) + none == Lp(sig);
    PopInvertsPush(Lp(sig), sig, none);
    PopInvertsPush(cert, pid, Lp(sig));
    var first := PopBytes(cert);
    if first.Success? {
      var rest := first.value.1;
      PopInvertsPush(cert, first.value.0, rest);
      var second := PopBytes(rest);
      if second.Success? {
        PopInvertsPush(rest, second.value.0, second.value.1);
        assert second.value.1 == [] ==> rest == Lp(second.value.0);
      }
    }
  }

  // ----- associated data -----

  /** `ratchet_ad`. */
  function RatchetAd(sender: bytes, recipient: bytes): bytes {
    Lp(sender) + Lp(recipient)
  }

  /** A ratchet header as bytes: 32 of the key, then two counters. */
  datatype WireHeader = WireHeader(dh: bytes, pn: u32, n: u32)

  function HeaderBytes(h: WireHeader): bytes {
    h.dh + (Be32(h.pn) + Be32(h.n))
  }

  /** What the ratchet's AEAD binds, `ad || header`, determines the two peers in their roles and every header
      field, so binding the concatenation is binding the parts. */
  lemma RatchetAadInjective(s: bytes, r: bytes, h: WireHeader, s': bytes, r': bytes, h': WireHeader)
    requires Short(s) && Short(r) && Short(s') && Short(r') && |h.dh| == 32 && |h'.dh| == 32
    ensures RatchetAd(s, r) + HeaderBytes(h) == RatchetAd(s', r') + HeaderBytes(h') <==> s == s' && r == r' && h == h'
  {
    var x, y := RatchetAd(s, r) + HeaderBytes(h), RatchetAd(s', r') + HeaderBytes(h');
    if x == y {
      assert x == Lp(s) + (Lp(r) + HeaderBytes(h)) && y == Lp(s') + (Lp(r') + HeaderBytes(h'));
      PeelLp(s, Lp(r) + HeaderBytes(h), s', Lp(r') + HeaderBytes(h'));
      PeelLp(r, HeaderBytes(h), r', HeaderBytes(h'));
      Peel(h.dh, Be32(h.pn) + Be32(h.n), h'.dh, Be32(h'.pn) + Be32(h'.n));
      Peel(Be32(h.pn), Be32(h.n), Be32(h'.pn), Be32(h'.n));
      Be32RoundTrip(h.pn);
      Be32RoundTrip(h'.pn);
      Be32RoundTrip(h.n);
      Be32RoundTrip(h'.n);
    }
  }

  /** `build_group_ad`: 32 bytes of group id, then the sender. */
  function GroupAd(groupId: bytes, sender: bytes): bytes {
    groupId + Lp(sender)
  }

  /** `canonical_sign_bytes` after its domain. */
  function GroupMessageBody(index: u32, ad: bytes, ct: bytes): bytes {
    Be32(index) + (Lp(ad) + Lp(ct))
  }

  /** A group message's signature determines index, group, sender and ciphertext. */
  lemma GroupMessageInjective(i: u32, g: bytes, s: bytes, ct: bytes, i': u32, g': bytes, s': bytes, ct': bytes)
    requires |g| == 32 && |g'| == 32 && Short(GroupAd(g, s)) && Short(GroupAd(g', s')) && Short(ct) && Short(ct')
    ensures GroupMessageBody(i, GroupAd(g, s), ct) == GroupMessageBody(i', GroupAd(g', s'), ct') <==>
              i == i' && g == g' && s == s' && ct == ct'
  {
    if GroupMessageBody(i, GroupAd(g, s), ct) == GroupMessageBody(i', GroupAd(g', s'), ct') {
      var ad, ad' := GroupAd(g, s), GroupAd(g', s');
      Peel(Be32(i), Lp(ad) + Lp(ct), Be32(i'), Lp(ad') + Lp(ct'));
      Be32RoundTrip(i);
      Be32RoundTrip(i');
      PeelLp(ad, Lp(ct), ad', Lp(ct'));
      Peel(g, Lp(s), g', Lp(s'));
      var none: bytes := [];
      assert Lp(s) + none == Lp(s) && Lp(s') + none == Lp(s') && Lp(ct) + none == Lp(ct) && Lp(ct') + none == Lp(ct');
      PeelLp(s, none, s', none);
      PeelLp(ct, none, ct', none);
    }
  }
}
