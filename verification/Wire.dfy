/** Requests that cross the boundary between daemon and executor, their signed envelope, and the session that signs them. */
module Wire {
  import opened Common
  import opened Events

  /** Every field is a claim of the daemon. */
  datatype ExecRequest = ExecRequest(
    session: Id, action: Id, number: nat, nonce: Bytes, issuedMs: nat,
    profile: string, mode: Mode, exec: string, args: map<string, string>,
    declaredRisk: Risk, declaredReadOnly: bool)

  datatype Envelope = Envelope(version: nat, request: Bytes, signature: Bytes)

  const PROTOCOL_VERSION: nat := 1
  const MAX_FRAME_LEN: nat := 1024 * 1024
  const SIGNATURE_LENGTH: nat := 64

  /** The CBOR codec and the Ed25519 signature, as parameters. */
  datatype Codec = Codec(
    encodeRequest: ExecRequest -> Bytes,
    decodeRequest: Bytes -> Option<ExecRequest>,
    encodeEnvelope: Envelope -> Bytes,
    decodeEnvelope: Bytes -> Option<Envelope>,
    publicKey: Bytes -> Bytes,
    sign: (Bytes, Bytes) -> Bytes,
    verify: (Bytes, Bytes, Bytes) -> bool)

  ghost predicate Sound(c: Codec) {
    && (forall r :: c.decodeRequest(c.encodeRequest(r)) == Some(r))
    && (forall e :: c.decodeEnvelope(c.encodeEnvelope(e)) == Some(e))
    && (forall secret, message {:trigger c.sign(secret, message)} ::
          && |c.sign(secret, message)| == 64
          && c.verify(c.publicKey(secret), message, c.sign(secret, message)))
  }

  /** Sign the exact encoded bytes of a request. */
  function Seal(c: Codec, secret: Bytes, r: ExecRequest): Envelope {
    var bytes := c.encodeRequest(r);
    Envelope(PROTOCOL_VERSION, bytes, c.sign(secret, bytes))
  }

  /** The frame body of an envelope, unless it is too long to send. */
  function ToFrame(c: Codec, e: Envelope): Option<Bytes> {
    var body := c.encodeEnvelope(e);
    if |body| > MAX_FRAME_LEN then None else Some(body)
  }

  /** Version and signature are checked before the request is decoded. */
  function OpenFrame(c: Codec, key: Bytes, frame: Bytes): Option<ExecRequest> {
    match c.decodeEnvelope(frame)
    case None => None
    case Some(e) =>
      if e.version != PROTOCOL_VERSION then None
      else if |e.signature| != SIGNATURE_LENGTH then None
      else if !c.verify(key, e.request, e.signature) then None
      else c.decodeRequest(e.request)
  }

  /** An envelope is sent as it is encoded, up to a mebibyte. */
  lemma FrameIsTheEncoding(c: Codec, e: Envelope)
    ensures ToFrame(c, e) == Some(c.encodeEnvelope(e)) <==> |c.encodeEnvelope(e)| <= 1_048_576
    ensures ToFrame(c, e).Some? ==> ToFrame(c, e) == Some(c.encodeEnvelope(e))
  {
  }

  /** The message in a frame, whoever signed it. */
  function MessageIn(c: Codec, frame: Bytes): Option<Bytes> {
    match c.decodeEnvelope(frame)
    case None => None
    case Some(e) => Some(e.request)
  }

  /** The frame is an envelope of version 1 whose 64-byte signature verifies over exactly its message. */
  ghost predicate IsSigned(c: Codec, key: Bytes, frame: Bytes) {
    exists e: Envelope ::
      && c.decodeEnvelope(frame) == Some(e)
      && e.version == 1 && |e.signature| == 64 && c.verify(key, e.request, e.signature)
  }

  /** What opens is signed, and is what the signed bytes decode to; and everything else is refused. */
  lemma OpensIffSigned(c: Codec, key: Bytes, frame: Bytes, r: ExecRequest)
    ensures OpenFrame(c, key, frame) == Some(r)
       <==> IsSigned(c, key, frame) && c.decodeRequest(MessageIn(c, frame).value) == Some(r)
  {
  }

  /** What is sealed opens to itself under the matching key. */
  lemma OpenUndoesSeal(c: Codec, secret: Bytes, r: ExecRequest)
    requires Sound(c) && ToFrame(c, Seal(c, secret, r)).Some?
    ensures OpenFrame(c, c.publicKey(secret), ToFrame(c, Seal(c, secret, r)).value) == Some(r)
  {
    assert c.decodeRequest(c.encodeRequest(r)) == Some(r);
    assert |c.sign(secret, c.encodeRequest(r))| == SIGNATURE_LENGTH;
  }

  /** One frame never opens to two different requests, whatever the keys. */
  lemma FrameDeterminesRequest(c: Codec, key: Bytes, key': Bytes, frame: Bytes)
    requires OpenFrame(c, key, frame).Some? && OpenFrame(c, key', frame).Some?
    ensures OpenFrame(c, key, frame) == OpenFrame(c, key', frame)
  {
  }

  /** What one signed request looks like. */
  ghost function NextRequest(id: Id, mode: Mode, profile: string, number: nat, action: Id, exec: string,
                             args: map<string, string>, risk: Risk, readOnly: bool, nonce: Bytes, issuedMs: nat): ExecRequest {
    ExecRequest(id, action, number, nonce, issuedMs, profile, mode, exec, args, risk, readOnly)
  }

  /** A live operator session; `number` is the last one handed out. */
  class Session {
    const id: Id
    const secret: Bytes
    const mode: Mode
    const profile: string
    var number: nat

    constructor (id: Id, secret: Bytes, mode: Mode, profile: string)
      ensures this.id == id && this.secret == secret && this.mode == mode && this.profile == profile
      ensures number == 0
    {
      this.id, this.secret, this.mode, this.profile, number := id, secret, mode, profile, 0;
    }

    /** Advance the number first, then build and sign the request. */
    method SignExecRequest(c: Codec, action: Id, exec: string, args: map<string, string>, risk: Risk, readOnly: bool,
                           nonce: Bytes, issuedMs: nat)
      returns (e: Envelope)
      modifies this
      ensures number == SaturatingInc(old(number))
      ensures e == Seal(c, secret, NextRequest(id, mode, profile, number, action, exec, args, risk, readOnly, nonce, issuedMs))
    {
      number := SaturatingInc(number);
      var request := ExecRequest(id, action, number, nonce, issuedMs, profile, mode, exec, args, risk, readOnly);
      e := Seal(c, secret, request);
    }
  }
}
