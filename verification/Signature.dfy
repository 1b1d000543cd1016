/**
 Detached package signatures: `verify_signature_envelope`
 (crates/floatile-core/src/distribution.rs:376-452).

 The hash, the key identifiers and the Ed25519 check are parameters; what is modelled is which
 signatures are looked at, in which order, and what each outcome means.
 */
module Signature {
  import opened Prelude
  import opened Encoding

  const MAX_ENVELOPE_BYTES: nat := 16 * 1024
  const MAX_SIGNATURES: nat := 8

  const PAYLOAD_TYPE: string := "application/vnd.floatile.package-digest.v1"

  datatype Publisher = Publisher(id: string, revoked: bool, keys: seq<Bytes>, revokedKeyIds: seq<string>)

  /** One envelope signature; `sig` is None when it is not canonical base64 of 64 bytes. */
  datatype EnvelopeSignature = EnvelopeSignature(keyId: string, sig: Option<Bytes>)

  /** A parsed envelope; `payload` is None when it is not canonical base64. */
  datatype Envelope = Envelope(payloadType: string, payload: Option<Bytes>, signatures: seq<EnvelopeSignature>)

  datatype Crypto = Crypto(
    digest: Bytes -> Bytes,
    keyId: Bytes -> string,
    usableKey: Bytes -> bool,
    verifies: (Bytes, Bytes, Bytes) -> bool,
    ascii: string -> Bytes)

  datatype VerifyError =
    | EnvelopeTooLarge
    | MalformedEnvelope
    | UnsupportedPayloadType
    | InvalidSignatureCount
    | DigestMismatch
    | PublisherMismatch
    | PublisherRevoked
    | KeyRevoked
    | UnknownKey
    | InvalidSignature

  function SignedMessage(c: Crypto, envelope: Envelope): Bytes
    requires envelope.payload.Some?
  {
    Pae(c.ascii(envelope.payloadType), envelope.payload.value)
  }

  /** Signature `i` names trusted key `j`. */
  predicate Names(c: Crypto, envelope: Envelope, publisher: Publisher, i: nat, j: nat)
    requires i < |envelope.signatures| && j < |publisher.keys|
  {
    envelope.signatures[i].keyId == c.keyId(publisher.keys[j])
  }

  /** Signature `i` can be checked against key `j` without a format error. */
  predicate Checkable(c: Crypto, envelope: Envelope, publisher: Publisher, i: nat, j: nat)
    requires i < |envelope.signatures| && j < |publisher.keys|
  {
    envelope.signatures[i].sig.Some? && c.usableKey(publisher.keys[j])
  }

  predicate Verifies(c: Crypto, envelope: Envelope, publisher: Publisher, i: nat, j: nat)
    requires envelope.payload.Some?
    requires i < |envelope.signatures| && j < |publisher.keys|
  {
    && Names(c, envelope, publisher, i, j)
    && Checkable(c, envelope, publisher, i, j)
    && c.verifies(publisher.keys[j], SignedMessage(c, envelope), envelope.signatures[i].sig.value)
  }

  /** (i, j) comes before (i', j') in the order in which the nested loops look at pairs. */
  predicate Earlier(i: nat, j: nat, i': nat, j': nat)
  {
    i < i' || (i == i' && j < j')
  }

  /** No pair before (i, j) stops the search: each either names another key or fails to verify. */
  ghost predicate NothingBefore(c: Crypto, envelope: Envelope, publisher: Publisher, i: nat, j: nat)
    requires envelope.payload.Some?
  {
    forall x: nat, y: nat | x < |envelope.signatures| && y < |publisher.keys| && Earlier(x, y, i, j) ::
      Names(c, envelope, publisher, x, y) ==>
        Checkable(c, envelope, publisher, x, y) && !Verifies(c, envelope, publisher, x, y)
  }

  ghost predicate NamedBefore(c: Crypto, envelope: Envelope, publisher: Publisher, i: nat, j: nat)
  {
    exists x: nat, y: nat | x < |envelope.signatures| && y < |publisher.keys| && Earlier(x, y, i, j) ::
      Names(c, envelope, publisher, x, y)
  }

  predicate RevokedKeyUsed(envelope: Envelope, publisher: Publisher)
  {
    exists signature | signature in envelope.signatures :: signature.keyId in publisher.revokedKeyIds
  }

  /** What must hold before any signature is looked at. */
  ghost predicate Presentable(
    c: Crypto, envelopeBytes: nat, parsed: Option<Envelope>, files: seq<Entry>, manifestPublisher: string,
    publisher: Publisher)
  {
    && envelopeBytes <= MAX_ENVELOPE_BYTES
    && manifestPublisher == publisher.id
    && !publisher.revoked
    && parsed.Some?
    && parsed.value.payloadType == PAYLOAD_TYPE
    && 1 <= |parsed.value.signatures| <= MAX_SIGNATURES
    && parsed.value.payload.Some?
    && |parsed.value.payload.value| == 32
    && parsed.value.payload.value == c.digest(Preimage(Without(files, SIGNATURE_FILE)))
  }

  /** The checks in front of the signatures, in the order of precedence of their errors. */
  ghost function Checks(
    c: Crypto, envelopeBytes: nat, parsed: Option<Envelope>, files: seq<Entry>, manifestPublisher: string,
    publisher: Publisher): seq<Check<VerifyError>>
  {
    var payload := if parsed.Some? then parsed.value.payload else None;
    [ Check(envelopeBytes <= MAX_ENVELOPE_BYTES, EnvelopeTooLarge),
      Check(manifestPublisher == publisher.id, PublisherMismatch),
      Check(!publisher.revoked, PublisherRevoked),
      Check(parsed.Some?, MalformedEnvelope),
      Check(parsed.Some? && parsed.value.payloadType == PAYLOAD_TYPE, UnsupportedPayloadType),
      Check(parsed.Some? && 1 <= |parsed.value.signatures| <= MAX_SIGNATURES, InvalidSignatureCount),
      Check(payload.Some? && |payload.value| == 32, MalformedEnvelope),
      Check(payload == Some(c.digest(Preimage(Without(files, SIGNATURE_FILE)))), DigestMismatch) ]
  }

  /** Some pair verifies with nothing malformed before it. */
  ghost predicate Accepting(c: Crypto, envelope: Envelope, publisher: Publisher)
    requires envelope.payload.Some?
  {
    exists i: nat, j: nat | i < |envelope.signatures| && j < |publisher.keys| ::
      Verifies(c, envelope, publisher, i, j) && NothingBefore(c, envelope, publisher, i, j)
  }

  /** Some named pair is malformed and nothing before it verifies. */
  ghost predicate Malformed(c: Crypto, envelope: Envelope, publisher: Publisher)
    requires envelope.payload.Some?
  {
    exists i: nat, j: nat | i < |envelope.signatures| && j < |publisher.keys| ::
      && Names(c, envelope, publisher, i, j) && !Checkable(c, envelope, publisher, i, j)
      && NothingBefore(c, envelope, publisher, i, j)
  }

  /** What the nested loops report: the first named pair that is malformed or verifies decides. */
  ghost predicate SearchEnds(c: Crypto, envelope: Envelope, publisher: Publisher, r: Result<(), VerifyError>)
    requires envelope.payload.Some?
  {
    var n := |envelope.signatures|;
    && (r.Ok? <==> Accepting(c, envelope, publisher))
    && (r == Err(MalformedEnvelope) <==> Malformed(c, envelope, publisher))
    && (r == Err(UnknownKey) <==> !NamedBefore(c, envelope, publisher, n, 0))
    && (r == Err(InvalidSignature) <==>
          NamedBefore(c, envelope, publisher, n, 0) && NothingBefore(c, envelope, publisher, n, 0))
    && (r.Err? ==> r.error in {MalformedEnvelope, UnknownKey, InvalidSignature})
  }

  /**
   An envelope that is not presentable gets the error of the first check that fails. A presentable one is accepted
   exactly when it names no revoked key and some pair verifies with no malformed named pair before it. A revoked key
   rejects even beside a valid signature, and InvalidSignature is told apart from UnknownKey by whether a trusted
   key was named at all.
   */
  method VerifyEnvelope(
    c: Crypto, envelopeBytes: nat, parsed: Option<Envelope>, files: seq<Entry>, manifestPublisher: string,
    publisher: Publisher) returns (r: Result<(), VerifyError>)
    ensures r.Ok? <==>
      && Presentable(c, envelopeBytes, parsed, files, manifestPublisher, publisher)
      && !RevokedKeyUsed(parsed.value, publisher)
      && Accepting(c, parsed.value, publisher)
    ensures !Presentable(c, envelopeBytes, parsed, files, manifestPublisher, publisher) ==>
      r.Err? && FirstFailure(Checks(c, envelopeBytes, parsed, files, manifestPublisher, publisher), r.error)
    ensures Presentable(c, envelopeBytes, parsed, files, manifestPublisher, publisher) ==>
      if RevokedKeyUsed(parsed.value, publisher) then r == Err(KeyRevoked)
      else SearchEnds(c, parsed.value, publisher, r)
  {
    ghost var checks := Checks(c, envelopeBytes, parsed, files, manifestPublisher, publisher);
    if envelopeBytes > MAX_ENVELOPE_BYTES {
      assert FailsFirst(checks, 0);
      return Err(EnvelopeTooLarge);
    }
    if manifestPublisher != publisher.id {
      assert FailsFirst(checks, 1);
      return Err(PublisherMismatch);
    }
    if publisher.revoked {
      assert FailsFirst(checks, 2);
      return Err(PublisherRevoked);
    }
    if parsed.None? {
      assert FailsFirst(checks, 3);
      return Err(MalformedEnvelope);
    }
    var envelope := parsed.value;
    if envelope.payloadType != PAYLOAD_TYPE {
      assert FailsFirst(checks, 4);
      return Err(UnsupportedPayloadType);
    }
    if envelope.signatures == [] || |envelope.signatures| > MAX_SIGNATURES {
      assert FailsFirst(checks, 5);
      return Err(InvalidSignatureCount);
    }
    if envelope.payload.None? || |envelope.payload.value| != 32 {
      assert FailsFirst(checks, 6);
      return Err(MalformedEnvelope);
    }
    if envelope.payload.value != c.digest(Preimage(Without(files, SIGNATURE_FILE))) {
      assert FailsFirst(checks, 7);
      return Err(DigestMismatch);
    }
    if RevokedKeyUsed(envelope, publisher) {
      return Err(KeyRevoked);
    }
    var message := SignedMessage(c, envelope);
    var matchedTrustedKey := false;
    for i := 0 to |envelope.signatures|
      invariant NothingBefore(c, envelope, publisher, i, 0)
      invariant matchedTrustedKey <==> NamedBefore(c, envelope, publisher, i, 0)
    {
      for j := 0 to |publisher.keys|
        invariant NothingBefore(c, envelope, publisher, i, j)
        invariant matchedTrustedKey <==> NamedBefore(c, envelope, publisher, i, j)
      {
        if envelope.signatures[i].keyId != c.keyId(publisher.keys[j]) {
          continue;
        }
        matchedTrustedKey := true;
        assert Names(c, envelope, publisher, i, j);
        if envelope.signatures[i].sig.None? || !c.usableKey(publisher.keys[j]) {
          return Err(MalformedEnvelope);
        }
        if c.verifies(publisher.keys[j], message, envelope.signatures[i].sig.value) {
          assert Verifies(c, envelope, publisher, i, j);
          return Ok(());
        }
      }
    }
    return Err(if matchedTrustedKey then InvalidSignature else UnknownKey);
  }

  /**
   A signature authenticates the whole package except `signature.json`: one envelope presentable for
   two packages whose signed preimages do not collide under the hash means equal packages off it.
   */
  lemma {:induction false} EnvelopeBindsPackage(
    c: Crypto, size: nat, envelope: Envelope, a: seq<Entry>, b: seq<Entry>, id: string, publisher: Publisher)
    requires Validated(a) && Validated(b)
    requires Presentable(c, size, Some(envelope), a, id, publisher)
    requires Presentable(c, size, Some(envelope), b, id, publisher)
    requires var pa, pb := Preimage(Without(a, SIGNATURE_FILE)), Preimage(Without(b, SIGNATURE_FILE));
             c.digest(pa) == c.digest(pb) ==> pa == pb
    ensures AsMap(a) - {SIGNATURE_FILE} == AsMap(b) - {SIGNATURE_FILE}
  {
    SignablePreimageInjective(a, b);
  }

  /** What is signed says which type and which payload. */
  lemma SignedMessageReads(c: Crypto, envelope: Envelope)
    requires envelope.payload.Some?
    ensures DecodePae(SignedMessage(c, envelope)) == Some((c.ascii(envelope.payloadType), envelope.payload.value))
  {
    DecodePaeInverts(c.ascii(envelope.payloadType), envelope.payload.value);
  }

  /** Key `key` of the publisher signed, under its own id, the digest of the files as the payload of a package. */
  predicate SignedBy(c: Crypto, signature: EnvelopeSignature, key: Bytes, message: Bytes, digest: Bytes)
  {
    && signature.keyId == c.keyId(key) && signature.sig.Some? && c.usableKey(key)
    && c.verifies(key, message, signature.sig.value)
    && DecodePae(message) == Some((c.ascii(PAYLOAD_TYPE), digest))
  }

  /**
   An accepted envelope names the manifest's publisher, who is not revoked, uses no revoked key, and one of the
   publisher's keys signed the digest of the package without its signature file.
   */
  lemma AcceptedIsSigned(
    c: Crypto, size: nat, envelope: Envelope, files: seq<Entry>, manifestPublisher: string, publisher: Publisher)
    requires Presentable(c, size, Some(envelope), files, manifestPublisher, publisher)
    requires !RevokedKeyUsed(envelope, publisher) && Accepting(c, envelope, publisher)
    ensures manifestPublisher == publisher.id && !publisher.revoked
    ensures forall s | s in envelope.signatures :: s.keyId !in publisher.revokedKeyIds
    ensures exists i, j, message ::
              && 0 <= i < |envelope.signatures| && 0 <= j < |publisher.keys|
              && SignedBy(c, envelope.signatures[i], publisher.keys[j], message,
                          c.digest(Preimage(Without(files, SIGNATURE_FILE))))
  {
    SignedMessageReads(c, envelope);
    var i: nat, j: nat :| i < |envelope.signatures| && j < |publisher.keys|
                          && Verifies(c, envelope, publisher, i, j) && NothingBefore(c, envelope, publisher, i, j);
    assert SignedBy(c, envelope.signatures[i], publisher.keys[j], SignedMessage(c, envelope), envelope.payload.value);
  }
}
