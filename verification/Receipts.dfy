/**
 Execution receipts in both forms, the legacy signed payload and the DSSE envelope, and
 the client-side check that a delivered result is the one that was signed. Ed25519,
 SHA-256, base64, hex and serde are parameters; `Lawful` is what is assumed of them.
 */
module Receipts {
  import opened Common
  import Dsse

  const EXECUTION_RECEIPT_SCHEMA := "rauha.execution-receipt.v1"
  const DSSE_PAYLOAD_TYPE := "application/vnd.in-toto+json"
  const STATEMENT_TYPE := "https://in-toto.io/Statement/v1"
  const PREDICATE_TYPE := "https://rauha.dev/execution/v0"

  datatype ImageAdmission = ImageAdmission(reference: string, manifest_digest: string, digest_verified: bool)
  datatype EnforcementTotals = EnforcementTotals(allow: nat, deny: nat, error: nat, dropped: nat)

  datatype Payload = Payload(
    schema: string, task_id: string, zone_id: string, image: ImageAdmission,
    policy_sha256: string, inputs_sha256: string, outputs_sha256: string,
    status: string, exit_code: Option<int>, started_at: Option<string>, finished_at: Option<string>,
    enforcement: EnforcementTotals, unavailable_controls: seq<string>, capture_issues: seq<string>)

  datatype Receipt = Receipt(payload: Payload, public_key: string, signature: string)

  datatype Statement = Statement(
    type_: string, subjectName: string, subjectDigest: string, predicateType: string, body: Payload)

  datatype Signature = Signature(keyid: string, sig: string)
  datatype Envelope = Envelope(payloadType: string, payload: string, signatures: seq<Signature>)

  datatype EnforcementEvent = EnforcementEvent(hook: string, action: string, decision: string, message: string)

  /** The result delivered to the client; stdout and stderr are UTF-8 text. */
  datatype SandboxResult = SandboxResult(
    task_id: string, zone_id: string, command: seq<string>, status: string, exit_code: Option<int>,
    stdout: Bytes, stderr: Bytes, duration_ms: nat, started_at: string, finished_at: string,
    events: seq<string>, enforcement_events: seq<EnforcementEvent>, admission: string,
    unavailable_controls: seq<string>, receipt_json: string, receipt_dsse_json: string,
    capture_issues: seq<string>)

  /** The part of a result that is hashed into the receipt. */
  datatype Outputs = Outputs(salt: string, status: string, exit_code: Option<int>, stdout: Bytes, stderr: Bytes)

  function OutputsOf(r: SandboxResult): Outputs { Outputs(r.task_id, r.status, r.exit_code, r.stdout, r.stderr) }

  // ----- primitives, taken as given

  datatype Crypto = Crypto(
    payloadJson: Payload -> Bytes,
    outputsJson: Outputs -> Bytes,
    statementJson: Statement -> Bytes, parseStatement: Bytes -> Option<Statement>,
    receiptJson: Receipt -> string, parseReceipt: string -> Option<Receipt>,
    envelopeJson: Envelope -> string, parseEnvelope: string -> Option<Envelope>,
    hex: Bytes -> string, unhex: string -> Option<Bytes>,
    base64: Bytes -> string, unbase64: string -> Option<Bytes>,
    sha256: Bytes -> string,
    public: Bytes -> Bytes,
    sign: (Bytes, Bytes) -> Bytes,
    verify: (Bytes, Bytes, Bytes) -> bool,        // key, message, signature; an invalid key verifies nothing
    verifyStrict: (Bytes, Bytes, Bytes) -> bool)

  /** Signatures verify, and each serializer is undone by its parser. */
  ghost predicate Lawful(c: Crypto) {
    && (forall k, m :: |c.public(k)| == 32 && |c.sign(k, m)| == 64
         && c.verify(c.public(k), m, c.sign(k, m)) && c.verifyStrict(c.public(k), m, c.sign(k, m)))
    && (forall b :: c.unhex(c.hex(b)) == Some(b))
    && (forall b :: c.unbase64(c.base64(b)) == Some(b))
    && (forall s :: c.parseStatement(c.statementJson(s)) == Some(s))
    && (forall r :: c.parseReceipt(c.receiptJson(r)) == Some(r))
    && (forall e :: c.parseEnvelope(c.envelopeJson(e)) == Some(e) && c.envelopeJson(e) != "")
  }

  /** Serializing the hashed part of a result loses nothing. */
  ghost predicate OutputsDistinct(c: Crypto) {
    forall a, b :: c.outputsJson(a) == c.outputsJson(b) ==> a == b
  }

  // ----- signing

  function Sign(c: Crypto, key: Bytes, payload: Payload): Receipt {
    Receipt(payload, c.hex(c.public(key)), c.hex(c.sign(key, c.payloadJson(payload))))
  }

  function StripPrefix(s: string, prefix: string): string {
    if prefix <= s then s[|prefix|..] else s
  }

  function StatementFromPayload(p: Payload): Statement {
    Statement(STATEMENT_TYPE, p.image.reference, StripPrefix(p.image.manifest_digest, "sha256:"), PREDICATE_TYPE, p)
  }

  function SignDsse(c: Crypto, key: Bytes, payload: Payload): Envelope {
    var raw := c.statementJson(StatementFromPayload(payload));
    var pae := Dsse.Pae(Ascii(DSSE_PAYLOAD_TYPE), raw);
    Envelope(DSSE_PAYLOAD_TYPE, c.base64(raw), [Signature(c.sha256(c.public(key)), c.base64(c.sign(key, pae)))])
  }

  // ----- verification

  predicate VerifyReceipt(c: Crypto, r: Receipt) {
    && r.payload.schema == EXECUTION_RECEIPT_SCHEMA
    && c.unhex(r.public_key).Some? && |c.unhex(r.public_key).value| == 32
    && c.unhex(r.signature).Some? && |c.unhex(r.signature).value| == 64
    && c.verifyStrict(c.unhex(r.public_key).value, c.payloadJson(r.payload), c.unhex(r.signature).value)
  }

  function VerifyEnvelope(c: Crypto, e: Envelope, publicHex: string): Option<Statement> {
    if c.unhex(publicHex).None? || |c.unhex(publicHex).value| != 32 then None
    else if e.payloadType != DSSE_PAYLOAD_TYPE then None
    else if c.unbase64(e.payload).None? || e.signatures == [] then None
    else
      var raw := c.unbase64(e.payload).value;
      var sig := c.unbase64(e.signatures[0].sig);
      if sig.None? || |sig.value| != 64 then None
      else if !c.verify(c.unhex(publicHex).value, Dsse.Pae(Ascii(e.payloadType), raw), sig.value) then None
      else
        match c.parseStatement(raw)
        case None => None
        case Some(s) =>
          if s.type_ == STATEMENT_TYPE && s.predicateType == PREDICATE_TYPE && s.body.schema == EXECUTION_RECEIPT_SCHEMA
          then Some(s) else None
  }

  function OrEmpty(s: Option<string>): string { if s.Some? then s.value else "" }

  /** The signed payload agrees with every covered field of the result. */
  predicate Matches(c: Crypto, p: Payload, r: SandboxResult) {
    && p.task_id == r.task_id && p.zone_id == r.zone_id
    && p.status == r.status && p.exit_code == r.exit_code
    && OrEmpty(p.started_at) == r.started_at && OrEmpty(p.finished_at) == r.finished_at
    && p.unavailable_controls == r.unavailable_controls
    && p.capture_issues == r.capture_issues
    && c.sha256(c.outputsJson(OutputsOf(r))) == p.outputs_sha256
  }

  datatype Verdict = Verdict(receipt: Option<Receipt>, envelope: Option<Envelope>, problem: bool)

  /** The client's check of both receipt forms. A bad envelope does not discard a good receipt. */
  function VerifyReceipts(c: Crypto, r: SandboxResult): Verdict {
    match c.parseReceipt(r.receipt_json)
    case None => Verdict(None, None, true)
    case Some(receipt) =>
      if !VerifyReceipt(c, receipt) then Verdict(None, None, true)
      else if !Matches(c, receipt.payload, r) then Verdict(None, None, true)
      else if r.receipt_dsse_json == "" then Verdict(Some(receipt), None, false)
      else
        match c.parseEnvelope(r.receipt_dsse_json)
        case None => Verdict(Some(receipt), None, true)
        case Some(e) =>
          match VerifyEnvelope(c, e, receipt.public_key)
          case None => Verdict(Some(receipt), None, true)
          case Some(s) =>
            if s == StatementFromPayload(receipt.payload) then Verdict(Some(receipt), Some(e), false)
            else Verdict(Some(receipt), None, true)
  }

  /** A freshly signed receipt verifies exactly when it carries the supported schema. */
  lemma SignedReceiptVerifies(c: Crypto, key: Bytes, p: Payload)
    requires Lawful(c)
    ensures VerifyReceipt(c, Sign(c, key, p)) <==> p.schema == EXECUTION_RECEIPT_SCHEMA
  {
    var m := c.payloadJson(p);
    assert c.verifyStrict(c.public(key), m, c.sign(key, m));
  }

  /** The statement is about the image: its reference, and its digest without the algorithm's name. */
  predicate StatementAbout(s: Statement, p: Payload) {
    && s.type_ == STATEMENT_TYPE && s.predicateType == PREDICATE_TYPE && s.body == p
    && s.subjectName == p.image.reference
    && (if "sha256:" <= p.image.manifest_digest then p.image.manifest_digest == "sha256:" + s.subjectDigest
        else p.image.manifest_digest == s.subjectDigest)
  }

  /** A freshly signed envelope verifies, and yields a statement about the image with the whole payload. */
  lemma SignedEnvelopeVerifies(c: Crypto, key: Bytes, p: Payload)
    requires Lawful(c) && p.schema == EXECUTION_RECEIPT_SCHEMA
    ensures VerifyEnvelope(c, SignDsse(c, key, p), c.hex(c.public(key))) == Some(StatementFromPayload(p))
    ensures StatementAbout(StatementFromPayload(p), p)
    ensures
      var signatures := SignDsse(c, key, p).signatures;
      |signatures| == 1 && signatures[0].keyid == c.sha256(c.public(key))
  {
    var raw := c.statementJson(StatementFromPayload(p));
    var pae := Dsse.Pae(Ascii(DSSE_PAYLOAD_TYPE), raw);
    assert c.verify(c.public(key), pae, c.sign(key, pae));
  }

  /** Two different outputs with the same hash. */
  ghost predicate OutputsCollide(c: Crypto, a: SandboxResult, b: SandboxResult) {
    c.outputsJson(OutputsOf(a)) != c.outputsJson(OutputsOf(b))
    && c.sha256(c.outputsJson(OutputsOf(a))) == c.sha256(c.outputsJson(OutputsOf(b)))
  }

  /**
   Tamper evidence. Whoever keeps a verified result's receipt but changes any covered field
   (either id, the status, exit code, times, unavailable controls, capture issues, stdout or
   stderr) gets no receipt back from the check, short of a hash collision.
   */
  lemma ReceiptCoversResult(c: Crypto, r: SandboxResult, forged: SandboxResult)
    requires OutputsDistinct(c)
    requires VerifyReceipts(c, r).receipt.Some? && forged.receipt_json == r.receipt_json
    requires forged.task_id != r.task_id || forged.zone_id != r.zone_id || forged.status != r.status
      || forged.exit_code != r.exit_code || forged.started_at != r.started_at || forged.finished_at != r.finished_at
      || forged.unavailable_controls != r.unavailable_controls || forged.capture_issues != r.capture_issues
      || forged.stdout != r.stdout || forged.stderr != r.stderr
    ensures VerifyReceipts(c, forged) == Verdict(None, None, true) || OutputsCollide(c, r, forged)
  {
    var receipt := c.parseReceipt(r.receipt_json).value;
    assert Matches(c, receipt.payload, r);
    if Matches(c, receipt.payload, forged) {
      assert OutputsOf(forged) != OutputsOf(r);
    }
  }

  // ----- acceptance needs a signature

  /** The key named in hexadecimal verifies a 64-byte signature of the payload's JSON. */
  ghost predicate StrictlySigned(c: Crypto, t: Receipt) {
    exists key, sig ::
      && c.unhex(t.public_key) == Some(key) && |key| == 32
      && c.unhex(t.signature) == Some(sig) && |sig| == 64
      && c.verifyStrict(key, c.payloadJson(t.payload), sig)
  }

  /** The payload says of the result what the result says of itself. */
  ghost predicate Agrees(c: Crypto, p: Payload, r: SandboxResult) {
    && p.task_id == r.task_id && p.zone_id == r.zone_id && p.status == r.status && p.exit_code == r.exit_code
    && p.started_at in {None, Some(r.started_at)} && (p.started_at.None? ==> r.started_at == "")
    && p.finished_at in {None, Some(r.finished_at)} && (p.finished_at.None? ==> r.finished_at == "")
    && p.unavailable_controls == r.unavailable_controls && p.capture_issues == r.capture_issues
    && p.outputs_sha256 == c.sha256(c.outputsJson(Outputs(r.task_id, r.status, r.exit_code, r.stdout, r.stderr)))
  }

  /** The client accepts a receipt if and only if it is supported, signed, and about this result. */
  lemma AcceptedReceiptIff(c: Crypto, r: SandboxResult, t: Receipt)
    ensures VerifyReceipts(c, r).receipt == Some(t) <==>
      && c.parseReceipt(r.receipt_json) == Some(t) && t.payload.schema == EXECUTION_RECEIPT_SCHEMA
      && StrictlySigned(c, t) && Agrees(c, t.payload, r)
  {
    if VerifyReceipt(c, t) {
      assert c.unhex(t.public_key) == Some(c.unhex(t.public_key).value);
    }
  }

  /** The envelope's first signature verifies the pre-authentication encoding of what it carries. */
  ghost predicate EnvelopeSigned(c: Crypto, e: Envelope, publicHex: string, raw: Bytes) {
    && e.payloadType == DSSE_PAYLOAD_TYPE && c.unbase64(e.payload) == Some(raw)
    && c.unhex(publicHex).Some? && |c.unhex(publicHex).value| == 32
    && e.signatures != [] && c.unbase64(e.signatures[0].sig).Some? && |c.unbase64(e.signatures[0].sig).value| == 64
    && c.verify(c.unhex(publicHex).value, Dsse.Pae(Ascii(DSSE_PAYLOAD_TYPE), raw), c.unbase64(e.signatures[0].sig).value)
  }

  /** A signed envelope with this statement in it. */
  ghost predicate Carries(c: Crypto, e: Envelope, publicHex: string, s: Statement) {
    exists raw :: EnvelopeSigned(c, e, publicHex, raw) && c.parseStatement(raw) == Some(s)
  }

  lemma EnvelopeVerifiesIff(c: Crypto, e: Envelope, publicHex: string, s: Statement)
    ensures VerifyEnvelope(c, e, publicHex) == Some(s) <==>
      && s.type_ == STATEMENT_TYPE && s.predicateType == PREDICATE_TYPE && s.body.schema == EXECUTION_RECEIPT_SCHEMA
      && Carries(c, e, publicHex, s)
  {
    hide Dsse.Pae, Ascii;
    if VerifyEnvelope(c, e, publicHex) == Some(s) {
      assert EnvelopeSigned(c, e, publicHex, c.unbase64(e.payload).value);
    }
  }

  lemma StatementIsDetermined(p: Payload, s: Statement)
    ensures StatementAbout(s, p) <==> s == StatementFromPayload(p)
  {
    assert "sha256:" <= p.image.manifest_digest ==> ("sha256:" + s.subjectDigest)[7..] == s.subjectDigest;
  }

  /**
   The client accepts an envelope if and only if it accepts the receipt, the envelope is signed
   by the same key, and what it carries is the statement about that receipt's payload.
   */
  lemma AcceptedEnvelopeIff(c: Crypto, r: SandboxResult, t: Receipt, e: Envelope)
    ensures VerifyReceipts(c, r) == Verdict(Some(t), Some(e), false) <==>
      && VerifyReceipts(c, r).receipt == Some(t)
      && r.receipt_dsse_json != "" && c.parseEnvelope(r.receipt_dsse_json) == Some(e)
      && exists s :: Carries(c, e, t.public_key, s) && StatementAbout(s, t.payload)
  {
    hide VerifyEnvelope, Matches, Carries, StatementAbout;
    var s := StatementFromPayload(t.payload);
    StatementIsDetermined(t.payload, s);
    forall s' ensures StatementAbout(s', t.payload) <==> s' == s {
      StatementIsDetermined(t.payload, s');
    }
    EnvelopeVerifiesIff(c, e, t.public_key, s);
  }

  // ----- only what was issued is accepted

  /** The message signed for a payload in the legacy form, and in the envelope. */
  function PlainMessage(c: Crypto, p: Payload): Bytes { c.payloadJson(p) }
  function EnvelopeMessage(c: Crypto, p: Payload): Bytes {
    Dsse.Pae(Ascii(DSSE_PAYLOAD_TYPE), c.statementJson(StatementFromPayload(p)))
  }

  /** Under this key nothing verifies but the two messages of payloads that were issued. */
  ghost predicate OnlyIssued(c: Crypto, key: Bytes, issued: iset<Payload>) {
    forall m, sig | c.verify(key, m, sig) || c.verifyStrict(key, m, sig) :: WasIssued(c, m, issued)
  }

  ghost predicate WasIssued(c: Crypto, m: Bytes, issued: iset<Payload>) {
    exists p :: p in issued && (m == PlainMessage(c, p) || m == EnvelopeMessage(c, p))
  }

  /** Payloads are serialized as JSON objects, and distinctly. */
  ghost predicate PayloadsDistinct(c: Crypto) {
    && (forall p :: c.payloadJson(p) != [] && c.payloadJson(p)[0] == '{' as int)
    && forall p, q :: c.payloadJson(p) == c.payloadJson(q) ==> p == q
  }

  /** The two kinds of message are never confused: one starts with a brace, the other with a D. */
  lemma MessagesAreSeparate(c: Crypto, p: Payload, payload: Bytes)
    requires PayloadsDistinct(c)
    ensures PlainMessage(c, p) != Dsse.Pae(Ascii(DSSE_PAYLOAD_TYPE), payload)
  {
    PaeStartsWithD(payload);
  }

  lemma PaeStartsWithD(payload: Bytes)
    ensures
      var m := Dsse.Pae(Ascii(DSSE_PAYLOAD_TYPE), payload);
      m != [] && m[0] == 'D' as int
  {
  }

  /**
   Unforgeability, given that of the signatures: under a key that verifies only issued
   messages, the client accepts only issued payloads, in both forms. A signature made for one
   form does not serve the other.
   */
  lemma AcceptedWasIssued(c: Crypto, key: Bytes, issued: iset<Payload>, r: SandboxResult)
    requires PayloadsDistinct(c) && OnlyIssued(c, key, issued)
    ensures
      var t := VerifyReceipts(c, r).receipt;
      t.Some? && c.unhex(t.value.public_key) == Some(key) ==> t.value.payload in issued
  {
    var verdict := VerifyReceipts(c, r);
    if verdict.receipt.Some? && c.unhex(verdict.receipt.value.public_key) == Some(key) {
      var t := verdict.receipt.value;
      AcceptedReceiptIff(c, r, t);
      var m := c.payloadJson(t.payload);
      assert WasIssued(c, m, issued);
      var p :| p in issued && (m == PlainMessage(c, p) || m == EnvelopeMessage(c, p));
      MessagesAreSeparate(c, t.payload, c.statementJson(StatementFromPayload(p)));
    }
  }

  lemma VerifiedEnvelopeWasIssued(c: Crypto, key: Bytes, issued: iset<Payload>, e: Envelope, publicHex: string)
    requires Lawful(c) && PayloadsDistinct(c) && OnlyIssued(c, key, issued) && c.unhex(publicHex) == Some(key)
    ensures
      var s := VerifyEnvelope(c, e, publicHex);
      s.Some? ==> s.value.body in issued && s.value == StatementFromPayload(s.value.body)
  {
    if VerifyEnvelope(c, e, publicHex).Some? {
      var raw := c.unbase64(e.payload).value;
      var m := Dsse.Pae(Ascii(DSSE_PAYLOAD_TYPE), raw);
      assert WasIssued(c, m, issued);
      var p :| p in issued && (m == PlainMessage(c, p) || m == EnvelopeMessage(c, p));
      MessagesAreSeparate(c, p, raw);
      Dsse.PaeInjective(Ascii(DSSE_PAYLOAD_TYPE), raw, Ascii(DSSE_PAYLOAD_TYPE), c.statementJson(StatementFromPayload(p)));
    }
  }
}
