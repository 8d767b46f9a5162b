/**
 The root attestation: the canonical bytes of a payload, and why two payloads
 with the same bytes are the same payload up to the floor of `createdAt`.
 */
module Attestation {
  import opened Results
  import opened Strings
  import opened Base58
  import opened DidKey
  import opened CanonicalJson

  datatype Logs = Logs(data: Text16, keyDelivery: Text16, blobs: Option<Text16>)

  datatype Payload = Payload(
    workspaceId: Text16, createdAt: real, formatVersion: int, topicId: Text16, logs: Option<Logs>)

  // ---------------------------------------------------------------------
  // The canonical text, each field followed by the rest of the text
  // ---------------------------------------------------------------------

  function StringField(intro: string, value: Text16, rest: Text16): Text16 {
    Lit(intro) + (Quote(value) + rest)
  }

  function IntField(intro: string, value: int, rest: Text16): Text16 {
    Lit(intro) + (IntText(value) + [COMMA] + rest)
  }

  function TailText(p: Payload): Text16 {
    StringField("\"topicId\":", p.topicId, StringField(",\"workspaceId\":", p.workspaceId, Lit("}")))
  }

  function DataText(logs: Logs, rest: Text16): Text16 {
    StringField("\"data\":", logs.data, StringField(",\"keyDelivery\":", logs.keyDelivery, Lit("},") + rest))
  }

  function LogsBody(logs: Logs, rest: Text16): Text16 {
    match logs.blobs
    case None => DataText(logs, rest)
    case Some(key) => StringField("\"blobs\":", key, Lit(",") + DataText(logs, rest))
  }

  function LogsText(p: Payload): Text16 {
    match p.logs
    case None => TailText(p)
    case Some(logs) => Lit("\"logs\":{") + LogsBody(logs, TailText(p))
  }

  function Canonical(p: Payload): Text16 {
    IntField("{\"createdAt\":", p.createdAt.Floor, IntField("\"formatVersion\":", p.formatVersion, LogsText(p)))
  }

  function BuildPayload(p: Payload): seq<nat> {
    Utf8(Canonical(p))
  }

  // ---------------------------------------------------------------------
  // Reading it back, field by field
  // ---------------------------------------------------------------------

  lemma DropSame(l: Text16, x: Text16, y: Text16)
    requires l + x == l + y
    ensures x == y
  {
    assert x == (l + x)[|l|..] && y == (l + y)[|l|..];
  }

  lemma StringFieldIsDetermined(intro: string, a: Text16, b: Text16, x: Text16, y: Text16)
    requires StringField(intro, a, x) == StringField(intro, b, y)
    ensures a == b && x == y
  {
    hide Lit, Quote;
    DropSame(Lit(intro), Quote(a) + x, Quote(b) + y);
    QuoteIsDetermined(a, b, x, y);
  }

  lemma IntFieldIsDetermined(intro: string, m: int, n: int, x: Text16, y: Text16)
    requires IntField(intro, m, x) == IntField(intro, n, y)
    ensures m == n && x == y
  {
    hide Lit, IntText;
    DropSame(Lit(intro), IntText(m) + [COMMA] + x, IntText(n) + [COMMA] + y);
    IntIsDetermined(m, n, x, y);
  }

  /** The second unit tells an optional field's label from the label that follows when it is left out. */
  lemma LabelsDiffer(x: Text16, y: Text16)
    ensures Lit("\"blobs\":") + x != Lit("\"data\":") + y
    ensures Lit("\"logs\":{") + x != Lit("\"topicId\":") + y
  {
    var blobs, data, logs, topic := "\"blobs\":", "\"data\":", "\"logs\":{", "\"topicId\":";
    assert blobs[1] == 'b' && data[1] == 'd' && logs[1] == 'l' && topic[1] == 't';
    assert (Lit(blobs) + x)[1] == 0x62 && (Lit(data) + y)[1] == 0x64;
    assert (Lit(logs) + x)[1] == 0x6c && (Lit(topic) + y)[1] == 0x74;
  }

  lemma TailIsDetermined(p: Payload, q: Payload)
    requires TailText(p) == TailText(q)
    ensures p.topicId == q.topicId && p.workspaceId == q.workspaceId
  {
    hide StringField, Lit;
    var w := ",\"workspaceId\":";
    StringFieldIsDetermined("\"topicId\":", p.topicId, q.topicId,
                            StringField(w, p.workspaceId, Lit("}")), StringField(w, q.workspaceId, Lit("}")));
    StringFieldIsDetermined(w, p.workspaceId, q.workspaceId, Lit("}"), Lit("}"));
  }

  lemma DataIsDetermined(a: Logs, b: Logs, x: Text16, y: Text16)
    requires DataText(a, x) == DataText(b, y)
    ensures a.data == b.data && a.keyDelivery == b.keyDelivery && x == y
  {
    hide StringField, Lit;
    var k, e := ",\"keyDelivery\":", Lit("},");
    StringFieldIsDetermined("\"data\":", a.data, b.data,
                            StringField(k, a.keyDelivery, e + x), StringField(k, b.keyDelivery, e + y));
    StringFieldIsDetermined(k, a.keyDelivery, b.keyDelivery, e + x, e + y);
    DropSame(e, x, y);
  }

  /** A log map without blobs never reads as one with blobs. */
  lemma BlobsShow(a: Logs, b: Logs, x: Text16, y: Text16)
    requires a.blobs.None? && b.blobs.Some?
    ensures LogsBody(a, x) != LogsBody(b, y)
  {
    hide Lit, Quote;
    LabelsDiffer(
      Quote(b.blobs.value) + (Lit(",") + DataText(b, y)),
      Quote(a.data) + StringField(",\"keyDelivery\":", a.keyDelivery, Lit("},") + x));
  }

  lemma LogsAreDetermined(a: Logs, b: Logs, x: Text16, y: Text16)
    requires LogsBody(a, x) == LogsBody(b, y)
    ensures a == b && x == y
  {
    hide StringField, Lit, DataText;
    if a.blobs.Some? && b.blobs.Some? {
      StringFieldIsDetermined("\"blobs\":", a.blobs.value, b.blobs.value,
                              Lit(",") + DataText(a, x), Lit(",") + DataText(b, y));
      DropSame(Lit(","), DataText(a, x), DataText(b, y));
      DataIsDetermined(a, b, x, y);
    } else if a.blobs.Some? {
      BlobsShow(b, a, y, x);
    } else if b.blobs.Some? {
      BlobsShow(a, b, x, y);
    } else {
      DataIsDetermined(a, b, x, y);
    }
  }

  /** A payload without logs never reads as one with logs. */
  lemma LogsShow(p: Payload, q: Payload)
    requires p.logs.None? && q.logs.Some?
    ensures LogsText(p) != LogsText(q)
  {
    hide Lit, Quote, LogsBody;
    LabelsDiffer(
      LogsBody(q.logs.value, TailText(q)),
      Quote(p.topicId) + StringField(",\"workspaceId\":", p.workspaceId, Lit("}")));
  }

  lemma OptionalLogsAreDetermined(p: Payload, q: Payload)
    requires LogsText(p) == LogsText(q)
    ensures p.logs == q.logs && TailText(p) == TailText(q)
  {
    hide Lit, LogsBody, TailText;
    if p.logs.Some? && q.logs.Some? {
      var a, b := p.logs.value, q.logs.value;
      DropSame(Lit("\"logs\":{"), LogsBody(a, TailText(p)), LogsBody(b, TailText(q)));
      LogsAreDetermined(a, b, TailText(p), TailText(q));
    } else if p.logs.Some? {
      LogsShow(q, p);
    } else if q.logs.Some? {
      LogsShow(p, q);
    }
  }

  /** The payload as far as the signed bytes can tell: `createdAt` in whole seconds. */
  function Floored(p: Payload): Payload {
    p.(createdAt := p.createdAt.Floor as real)
  }

  lemma CanonicalIsInjective(p: Payload, q: Payload)
    requires Canonical(p) == Canonical(q)
    ensures Floored(p) == Floored(q)
  {
    hide IntField, LogsText, TailText;
    var f := "\"formatVersion\":";
    IntFieldIsDetermined("{\"createdAt\":", p.createdAt.Floor, q.createdAt.Floor,
                         IntField(f, p.formatVersion, LogsText(p)), IntField(f, q.formatVersion, LogsText(q)));
    IntFieldIsDetermined(f, p.formatVersion, q.formatVersion, LogsText(p), LogsText(q));
    OptionalLogsAreDetermined(p, q);
    TailIsDetermined(p, q);
  }

  // ---------------------------------------------------------------------
  // From text to bytes
  // ---------------------------------------------------------------------

  lemma LitIsWellFormed(s: string)
    ensures WellFormed(Lit(s))
  {
    NoSurrogates(Lit(s));
  }

  lemma StringFieldIsWellFormed(intro: string, value: Text16, rest: Text16)
    requires WellFormed(rest)
    ensures WellFormed(StringField(intro, value, rest))
  {
    LitIsWellFormed(intro);
    QuoteIsWellFormed(value);
    hide Lit, Quote, WellFormed;
    WellFormedConcat(Quote(value), rest);
    WellFormedConcat(Lit(intro), Quote(value) + rest);
  }

  lemma IntFieldIsWellFormed(intro: string, value: int, rest: Text16)
    requires WellFormed(rest)
    ensures WellFormed(IntField(intro, value, rest))
  {
    LitIsWellFormed(intro);
    IntTextUnits(value);
    NoSurrogates(IntText(value) + [COMMA]);
    hide Lit, IntText, WellFormed;
    WellFormedConcat(IntText(value) + [COMMA], rest);
    WellFormedConcat(Lit(intro), IntText(value) + [COMMA] + rest);
  }

  lemma LogsBodyIsWellFormed(logs: Logs, rest: Text16)
    requires WellFormed(rest)
    ensures WellFormed(LogsBody(logs, rest))
  {
    hide StringField, Lit, WellFormed;
    LitIsWellFormed("},");
    LitIsWellFormed(",");
    WellFormedConcat(Lit("},"), rest);
    StringFieldIsWellFormed(",\"keyDelivery\":", logs.keyDelivery, Lit("},") + rest);
    StringFieldIsWellFormed("\"data\":", logs.data,
                            StringField(",\"keyDelivery\":", logs.keyDelivery, Lit("},") + rest));
    if logs.blobs.Some? {
      WellFormedConcat(Lit(","), DataText(logs, rest));
      StringFieldIsWellFormed("\"blobs\":", logs.blobs.value, Lit(",") + DataText(logs, rest));
    }
  }

  lemma CanonicalIsWellFormed(p: Payload)
    ensures WellFormed(Canonical(p))
  {
    hide StringField, IntField, Lit, WellFormed, LogsBody;
    LitIsWellFormed("}");
    LitIsWellFormed("\"logs\":{");
    StringFieldIsWellFormed(",\"workspaceId\":", p.workspaceId, Lit("}"));
    StringFieldIsWellFormed("\"topicId\":", p.topicId, StringField(",\"workspaceId\":", p.workspaceId, Lit("}")));
    if p.logs.Some? {
      LogsBodyIsWellFormed(p.logs.value, TailText(p));
      WellFormedConcat(Lit("\"logs\":{"), LogsBody(p.logs.value, TailText(p)));
    }
    IntFieldIsWellFormed("\"formatVersion\":", p.formatVersion, LogsText(p));
    IntFieldIsWellFormed("{\"createdAt\":", p.createdAt.Floor,
                         IntField("\"formatVersion\":", p.formatVersion, LogsText(p)));
  }

  /** The signed bytes are the same exactly when every field is, up to the floor of `createdAt`. */
  lemma SameBytesIffSamePayload(p: Payload, q: Payload)
    ensures BuildPayload(p) == BuildPayload(q) <==> Floored(p) == Floored(q)
  {
    if BuildPayload(p) == BuildPayload(q) {
      CanonicalIsWellFormed(p);
      CanonicalIsWellFormed(q);
      Utf8IsInjective(Canonical(p), Canonical(q));
      CanonicalIsInjective(p, q);
    }
    if Floored(p) == Floored(q) {
      assert p.createdAt.Floor == q.createdAt.Floor;
      assert TailText(p) == TailText(q) && LogsText(p) == LogsText(q);
    }
  }

  // ---------------------------------------------------------------------
  // Signing and verifying
  // ---------------------------------------------------------------------

  /** An ideal signature is whose key made it over which bytes; anything else is junk, of a right or wrong length. */
  datatype Signature = By(key: seq<nat>, message: seq<nat>) | Junk | WrongLength

  datatype SignedAttestation = SignedAttestation(
    payload: Payload, payloadBytes: seq<nat>, signature: Signature, rootDid: string)

  const SECRET_BYTES: nat := 64

  /** Bytes 32 to 64 of a sodium-form secret key are the public key. */
  function PublicHalf(secret: seq<nat>): seq<nat>
    requires |secret| == SECRET_BYTES
  {
    secret[32..64]
  }

  /** None when the secret key has the wrong length. */
  function SignAttestation(p: Payload, secret: seq<nat>): Option<SignedAttestation> {
    if |secret| != SECRET_BYTES then None
    else
      var bytes := BuildPayload(p);
      Some(SignedAttestation(Floored(p), bytes, By(PublicHalf(secret), bytes),
                             DidFromPublicKey(PublicHalf(secret)).value))
  }

  datatype Check = Holds | Fails | Throws

  /** Recompute the bytes, compare, then check the signature against the claimed root. */
  function VerifyAttestation(a: SignedAttestation): Check {
    if BuildPayload(a.payload) != a.payloadBytes then Fails
    else
      match PublicKeyFromDid(a.rootDid)
      case Err(_) => Throws
      case Ok(key) =>
        if |key| != KEY_BYTES || a.signature.WrongLength? then Throws
        else if a.signature == By(key, a.payloadBytes) then Holds
        else Fails
  }

  /** What a root signs verifies against that root's own DID. */
  lemma SignedVerifies(p: Payload, secret: seq<nat>)
    requires |secret| == SECRET_BYTES && IsBytes(secret)
    ensures var a := SignAttestation(p, secret).value;
            VerifyAttestation(a) == Holds && a.rootDid == DidOf(PublicHalf(secret))
  {
    KeyComesBack(PublicHalf(secret));
    SameBytesIffSamePayload(p, Floored(p));
  }

  /** No signature over one payload verifies for a payload that differs in any whole-second field. */
  lemma VerifiedPayloadIsTheSignedOne(a: SignedAttestation, q: Payload)
    requires VerifyAttestation(a) == Holds && a.signature.message == BuildPayload(q)
    ensures Floored(a.payload) == Floored(q)
    ensures PublicKeyFromDid(a.rootDid) == Ok(a.signature.key) && a.rootDid == DidOf(a.signature.key)
  {
    SameBytesIffSamePayload(a.payload, q);
    DidComesBack(a.rootDid, a.signature.key);
  }
}
