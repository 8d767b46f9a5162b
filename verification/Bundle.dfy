/**
 Portable bundles: a manifest signed by the root, and envelopes carrying a
 delegation and a wrapped key to each recipient.
 */
module Bundle {
  import opened Results
  import opened Strings
  import opened Base58
  import opened DidKey
  import opened CanonicalJson
  import opened Delegation
  import opened Issuing
  import Attestation

  const FORMAT_VERSION: int := 2
  const DID_KEY_PREFIX: string := "did:key:"

  datatype Manifest = Manifest(
    formatVersion: int, workspaceId: Text16, createdAt: real, rootDid: string,
    topicId: Text16, logs: Option<Attestation.Logs>)

  /** A key sealed to a public key; only the matching secret key opens it. */
  datatype Wrapped = WrappedFor(recipient: seq<nat>, key: seq<nat>) | Broken

  datatype Envelope = SealedEnvelope(recipient: string, resource: string, ucan: Wire, wrapped: Wrapped)

  datatype Bundle = Bundle(manifest: Manifest, attestation: Attestation.SignedAttestation, envelopes: seq<Envelope>)

  datatype BundleError =
    | BadSecretKey | WrongFormat | NotAttested | NotTheSignedManifest | IdIsNotRootKey
    | BadRoot | SecretIsNotRoots | BadRecipient | BadProof | OtherAudience | InvalidDelegation | CannotUnwrap

  /** The signed payload a manifest stands for. */
  function PayloadOf(m: Manifest): Attestation.Payload {
    Attestation.Payload(m.workspaceId, m.createdAt, m.formatVersion, m.topicId, m.logs)
  }

  /** The id a root DID makes; only a did:key of 32 bytes has one. */
  function WorkspaceIdForRoot(rootDid: string): Result<Text16, BundleError> {
    match PublicKeyFromDid(rootDid)
    case Err(_) => Err(BadRoot)
    case Ok(key) =>
      if |key| != KEY_BYTES || |rootDid| < |DID_KEY_PREFIX| then Err(BadRoot)
      else Ok(Lit(rootDid[|DID_KEY_PREFIX|..]))
  }

  // ---------------------------------------------------------------------
  // Creating
  // ---------------------------------------------------------------------

  /** One recipient's input; `expiration` is the effective one, one year ahead when none is given. */
  datatype Recipient = Recipient(
    did: string, resource: string, key: seq<nat>, capability: Capability, expiration: real, nonce: nat, signature: nat)

  function GrantFor(r: Recipient, rootDid: string): Grant {
    Grant(rootDid, r.did, [r.capability], Some(r.expiration), None, r.nonce, r.signature)
  }

  function Wrap(key: seq<nat>, recipient: seq<nat>): Wrapped {
    WrappedFor(recipient, key)
  }

  function Unwrap(w: Wrapped, secret: seq<nat>): Option<seq<nat>> {
    if w.WrappedFor? && |secret| == Attestation.SECRET_BYTES && w.recipient == Attestation.PublicHalf(secret)
    then Some(w.key) else None
  }

  function CreateEnvelope(r: Recipient, rootDid: string): Result<Envelope, BundleError> {
    match PublicKeyFromDid(r.did)
    case Err(_) => Err(BadRecipient)
    case Ok(key) =>
      if |key| != KEY_BYTES then Err(BadRecipient)
      else Ok(SealedEnvelope(r.did, r.resource, ToBytes(Issue(GrantFor(r, rootDid), []).value), Wrap(r.key, key)))
  }

  function CreateEnvelopes(recipients: seq<Recipient>, rootDid: string): Result<seq<Envelope>, BundleError> {
    if recipients == [] then Ok([])
    else
      match CreateEnvelope(recipients[0], rootDid)
      case Err(e) => Err(e)
      case Ok(first) =>
        match CreateEnvelopes(recipients[1..], rootDid)
        case Err(e) => Err(e)
        case Ok(rest) => Ok([first] + rest)
  }

  /** `topicId` is the hash of the root's key, computed outside this model. */
  function CreateBundle(
    createdAt: real, rootDid: string, secret: seq<nat>, topicId: Text16,
    logs: Option<Attestation.Logs>, recipients: seq<Recipient>): Result<Bundle, BundleError>
  {
    if |secret| != Attestation.SECRET_BYTES then Err(BadSecretKey)
    else
      match WorkspaceIdForRoot(rootDid)
      case Err(e) => Err(e)
      case Ok(id) =>
        var m := Manifest(FORMAT_VERSION, id, createdAt.Floor as real, rootDid, topicId, logs);
        var a := Attestation.SignAttestation(PayloadOf(m), secret).value;
        if a.rootDid != rootDid then Err(SecretIsNotRoots)
        else
          match CreateEnvelopes(recipients, rootDid)
          case Err(e) => Err(e)
          case Ok(envelopes) => Ok(Bundle(m, a, envelopes))
  }

  // ---------------------------------------------------------------------
  // Consuming
  // ---------------------------------------------------------------------

  datatype Mine = Mine(resource: string, key: seq<nat>, chain: seq<Link>, capability: Capability)

  datatype Consumed = Consumed(workspaceId: Text16, rootDid: string, mine: Option<Mine>)

  /** What a consumer knows when it validates delegations. */
  datatype Reader = Reader(signed: set<(Did, Link)>, holds: (Statement, string) -> bool, now: int)

  function ContextFor(r: Reader, rootDid: string): Context {
    Context(r.signed, r.holds, (resource: string) => Some(rootDid), r.now)
  }

  function ConsumeEnvelope(r: Reader, e: Envelope, self: string, secret: seq<nat>, rootDid: string)
    : Result<Mine, BundleError>
  {
    if |secret| != Attestation.SECRET_BYTES then Err(BadSecretKey)
    else
      match Restore(e.ucan)
      case Err(_) => Err(BadProof)
      case Ok(chain) =>
        if chain == [] || chain[0].aud != self then Err(OtherAudience)
        else
          match Validate(ContextFor(r, rootDid), chain)
          case Refused(_) => Err(InvalidDelegation)
          case Valid(_, capability) =>
            match Unwrap(e.wrapped, secret)
            case None => Err(CannotUnwrap)
            case Some(key) => Ok(Mine(e.resource, key, chain, capability))
  }

  /** The first envelope addressed to `self`. */
  function FindEnvelope(envelopes: seq<Envelope>, self: string): Option<Envelope> {
    if envelopes == [] then None
    else if envelopes[0].recipient == self then Some(envelopes[0])
    else FindEnvelope(envelopes[1..], self)
  }

  /** The checks on the manifest, before any envelope is looked at. */
  function CheckManifest(b: Bundle): Option<BundleError> {
    var signed, m := b.attestation.payload, b.manifest;
    if m.formatVersion != FORMAT_VERSION then Some(WrongFormat)
    else if Attestation.VerifyAttestation(b.attestation) != Attestation.Holds then Some(NotAttested)
    else if signed.workspaceId != m.workspaceId || signed.createdAt != m.createdAt
         || signed.formatVersion != m.formatVersion || signed.topicId != m.topicId
         || signed.logs != m.logs || b.attestation.rootDid != m.rootDid then Some(NotTheSignedManifest)
    else
      match WorkspaceIdForRoot(m.rootDid)
      case Err(e) => Some(e)
      case Ok(id) => if m.workspaceId != id then Some(IdIsNotRootKey) else None
  }

  function ConsumeBundle(r: Reader, b: Bundle, self: string, secret: seq<nat>): Result<Consumed, BundleError> {
    if |secret| != Attestation.SECRET_BYTES then Err(BadSecretKey)
    else
      match CheckManifest(b)
      case Some(e) => Err(e)
      case None =>
        match FindEnvelope(b.envelopes, self)
        case None => Ok(Consumed(b.manifest.workspaceId, b.manifest.rootDid, None))
        case Some(e) =>
          match ConsumeEnvelope(r, e, self, secret, b.manifest.rootDid)
          case Err(error) => Err(error)
          case Ok(mine) => Ok(Consumed(b.manifest.workspaceId, b.manifest.rootDid, Some(mine)))
  }

  // ---------------------------------------------------------------------
  // What acceptance means
  // ---------------------------------------------------------------------

  /**
   A bundle that is accepted carries the manifest its root signed: the signature
   is by the key in the root DID, the workspace id is that DID without its
   prefix, and whatever payload the root signed agrees with the manifest in
   every field, up to the floor of `createdAt`.
   */
  lemma AcceptedManifestIsTheSignedOne(r: Reader, b: Bundle, self: string, secret: seq<nat>, q: Attestation.Payload)
    requires ConsumeBundle(r, b, self, secret).Ok?
    ensures b.attestation.signature.By?
    ensures b.manifest.rootDid == DID_PREFIX + Encode(MULTICODEC + b.attestation.signature.key)
    ensures b.manifest.workspaceId == Lit(b.manifest.rootDid[|DID_KEY_PREFIX|..])
    ensures b.attestation.signature.message == Attestation.BuildPayload(PayloadOf(b.manifest))
    ensures b.attestation.signature.message == Attestation.BuildPayload(q) ==>
              Attestation.Floored(PayloadOf(b.manifest)) == Attestation.Floored(q)
  {
    var key := b.attestation.signature.key;
    DidComesBack(b.attestation.rootDid, key);
    assert b.attestation.payload == PayloadOf(b.manifest);
    Attestation.SameBytesIffSamePayload(PayloadOf(b.manifest), q);
  }

  /** The manifest as the root signed it, with a fraction of a second added in both places the check looks. */
  function Shifted(b: Bundle, fraction: real): Bundle {
    b.(manifest := b.manifest.(createdAt := b.manifest.createdAt + fraction),
       attestation := b.attestation.(payload := b.attestation.payload.(createdAt := b.attestation.payload.createdAt + fraction)))
  }

  /**
   The floor is as far as it goes: an accepted bundle whose creation time is
   shifted where the check looks passes the check again if and only if the floor
   stays, and then it is consumed just the same.
   */
  lemma FractionIsNotSigned(r: Reader, b: Bundle, self: string, secret: seq<nat>, fraction: real)
    requires ConsumeBundle(r, b, self, secret).Ok?
    ensures CheckManifest(Shifted(b, fraction)).None? <==>
              b.manifest.createdAt.Floor == (b.manifest.createdAt + fraction).Floor
    ensures ConsumeBundle(r, Shifted(b, fraction), self, secret) ==
              if b.manifest.createdAt.Floor == (b.manifest.createdAt + fraction).Floor
              then ConsumeBundle(r, b, self, secret) else Err(NotAttested)
  {
    ShiftedPassesIff(b, fraction);
    hide CheckManifest, ConsumeEnvelope, FindEnvelope;
  }

  /** Half a second added to a whole creation time: another manifest, consumed just the same. */
  lemma HalfASecondIsNotSigned(r: Reader, b: Bundle, self: string, secret: seq<nat>)
    requires ConsumeBundle(r, b, self, secret).Ok? && b.manifest.createdAt == b.manifest.createdAt.Floor as real
    ensures Shifted(b, 0.5).manifest != b.manifest
    ensures ConsumeBundle(r, Shifted(b, 0.5), self, secret) == ConsumeBundle(r, b, self, secret)
  {
    FractionIsNotSigned(r, b, self, secret, 0.5);
    hide ConsumeBundle, CheckManifest;
  }

  lemma ShiftedPassesIff(b: Bundle, fraction: real)
    requires CheckManifest(b).None?
    ensures CheckManifest(Shifted(b, fraction)) ==
              if b.manifest.createdAt.Floor == (b.manifest.createdAt + fraction).Floor then None else Some(NotAttested)
  {
    hide Attestation.BuildPayload, PublicKeyFromDid, WorkspaceIdForRoot;
    Attestation.SameBytesIffSamePayload(b.attestation.payload, Shifted(b, fraction).attestation.payload);
  }

  /** An accepted manifest is the payload as the root stored it exactly when its creation time is whole. */
  lemma AcceptedIsSignedIffWhole(r: Reader, b: Bundle, self: string, secret: seq<nat>, q: Attestation.Payload)
    requires ConsumeBundle(r, b, self, secret).Ok?
    requires b.attestation.signature.By? && b.attestation.signature.message == Attestation.BuildPayload(q)
    ensures PayloadOf(b.manifest) == Attestation.Floored(q) <==>
              b.manifest.createdAt == b.manifest.createdAt.Floor as real
  {
    AcceptedManifestIsTheSignedOne(r, b, self, secret, q);
    hide ConsumeBundle, Attestation.BuildPayload;
  }

  // ---------------------------------------------------------------------
  // Exactly what is accepted, and what it delivers
  // ---------------------------------------------------------------------

  /** The manifest of this format, signed whole by the key that its root DID and its id name. */
  predicate SignedByItsRoot(b: Bundle) {
    var a, m := b.attestation, b.manifest;
    && m.formatVersion == FORMAT_VERSION
    && a.payload == PayloadOf(m) && a.rootDid == m.rootDid
    && a.payloadBytes == Attestation.BuildPayload(PayloadOf(m))
    && a.signature.By? && a.signature.message == a.payloadBytes
    && IsKey(a.signature.key) && m.rootDid == DidOf(a.signature.key)
    && m.workspaceId == Lit(m.rootDid[|DID_KEY_PREFIX|..])
  }

  lemma ManifestPassesIff(b: Bundle)
    ensures CheckManifest(b).None? <==> SignedByItsRoot(b)
  {
    hide Attestation.BuildPayload, PublicKeyFromDid, DidOf, Lit;
    var a := b.attestation;
    if CheckManifest(b).None? {
      DidComesBack(a.rootDid, a.signature.key);
    }
    if SignedByItsRoot(b) {
      KeyComesBack(a.signature.key);
      RootIdExists(a.signature.key);
    }
  }

  /**
   The envelope carries, for `self` and the holder of `secret`, what `mine` says:
   a chain that is a derivation of its own claim from the root at the reader's
   time, and the key wrapped for that holder.
   */
  ghost predicate Delivers(r: Reader, e: Envelope, self: string, secret: seq<nat>, rootDid: string, mine: Mine) {
    && Restore(e.ucan) == Ok(mine.chain) && mine.chain != []
    && mine.resource == e.resource && mine.capability == ClaimOf(mine.chain)
    && |secret| == Attestation.SECRET_BYTES && e.wrapped == WrappedFor(Attestation.PublicHalf(secret), mine.key)
    && Derives(r, rootDid, mine.chain, self, mine.capability.resource)
  }

  /** The chain is the links of a derivation, from the root and valid now, of its leaf's command for `self`. */
  ghost predicate Derives(r: Reader, rootDid: string, chain: seq<Link>, self: string, resource: string) {
    exists d :: LinksOf(d) == chain && d.link.aud == self && Proves(ContextFor(r, rootDid), d, rootDid, d.link.cmd, resource)
  }

  lemma ValidIffDerives(r: Reader, rootDid: string, chain: seq<Link>, self: string)
    requires chain != []
    ensures chain[0].aud == self && Validate(ContextFor(r, rootDid), chain).Valid? <==>
              Derives(r, rootDid, chain, self, ClaimOf(chain).resource)
    ensures Validate(ContextFor(r, rootDid), chain).Valid? ==>
              Validate(ContextFor(r, rootDid), chain) == Valid(chain[0].aud, ClaimOf(chain))
  {
    hide Validate, ClaimOf;
    var c := ContextFor(r, rootDid);
    var resource := ClaimOf(chain).resource;
    ValidIffDerivable(c, chain);
    assert c.rootFor(resource) == Some(rootDid);
    if chain[0].aud == self && Validate(c, chain).Valid? {
      var d :| LinksOf(d) == chain && Proves(c, d, rootDid, chain[0].cmd, resource);
      assert d.link == chain[0];
    }
    if d :| LinksOf(d) == chain && d.link.aud == self && Proves(c, d, rootDid, d.link.cmd, resource) {
      DerivationIsValid(c, d, rootDid);
    }
  }

  lemma EnvelopeOpensIff(r: Reader, e: Envelope, self: string, secret: seq<nat>, rootDid: string, mine: Mine)
    ensures ConsumeEnvelope(r, e, self, secret, rootDid) == Ok(mine) <==> Delivers(r, e, self, secret, rootDid, mine)
  {
    hide Restore, Validate, ClaimOf, Derives;
    if Restore(e.ucan).Ok? && Restore(e.ucan).value != [] {
      ValidIffDerives(r, rootDid, Restore(e.ucan).value, self);
    }
  }

  /** `e` is the first of the envelopes addressed to `self`. */
  ghost predicate FirstFor(envelopes: seq<Envelope>, self: string, e: Envelope) {
    exists k :: 0 <= k < |envelopes| && envelopes[k] == e && NamedFirst(envelopes, self, k)
  }

  predicate NamedFirst(envelopes: seq<Envelope>, self: string, k: int)
    requires 0 <= k < |envelopes|
  {
    envelopes[k].recipient == self && forall j :: 0 <= j < k ==> envelopes[j].recipient != self
  }

  lemma {:induction false} FindsFirst(envelopes: seq<Envelope>, self: string)
    ensures match FindEnvelope(envelopes, self)
            case None => forall k :: 0 <= k < |envelopes| ==> envelopes[k].recipient != self
            case Some(e) => FirstFor(envelopes, self, e)
  {
    if envelopes != [] {
      var rest := envelopes[1..];
      FindsFirst(rest, self);
      assert forall k :: 0 < k < |envelopes| ==> envelopes[k] == rest[k - 1];
      if envelopes[0].recipient == self {
        assert NamedFirst(envelopes, self, 0);
      } else if FindEnvelope(rest, self).Some? {
        var k :| 0 <= k < |rest| && rest[k] == FindEnvelope(rest, self).value && NamedFirst(rest, self, k);
        assert NamedFirst(envelopes, self, k + 1);
      }
    }
  }

  lemma FirstIsUnique(envelopes: seq<Envelope>, self: string, e: Envelope)
    requires FirstFor(envelopes, self, e)
    ensures FindEnvelope(envelopes, self) == Some(e)
  {
    FindsFirst(envelopes, self);
    var k :| 0 <= k < |envelopes| && envelopes[k] == e && NamedFirst(envelopes, self, k);
    assert FindEnvelope(envelopes, self).Some?;
    var j :| 0 <= j < |envelopes| && envelopes[j] == FindEnvelope(envelopes, self).value && NamedFirst(envelopes, self, j);
    assert j == k;
  }

  /** What consuming a trusted bundle yields to `self`. */
  ghost predicate Yields(r: Reader, b: Bundle, self: string, secret: seq<nat>, mine: Option<Mine>) {
    match mine
    case None => forall k :: 0 <= k < |b.envelopes| ==> b.envelopes[k].recipient != self
    case Some(m) => exists e :: FirstFor(b.envelopes, self, e) && Delivers(r, e, self, secret, b.manifest.rootDid, m)
  }

  lemma FoundYields(r: Reader, b: Bundle, self: string, secret: seq<nat>, mine: Option<Mine>)
    ensures Yields(r, b, self, secret, mine) <==>
      match FindEnvelope(b.envelopes, self)
      case None => mine == None
      case Some(e) => mine.Some? && ConsumeEnvelope(r, e, self, secret, b.manifest.rootDid) == Ok(mine.value)
  {
    hide FindEnvelope, ConsumeEnvelope, Delivers, FirstFor;
    FindsFirst(b.envelopes, self);
    match mine {
      case None =>
        if FindEnvelope(b.envelopes, self).Some? {
          SomeoneIsNamed(b.envelopes, self, FindEnvelope(b.envelopes, self).value);
        }
      case Some(m) =>
        if e :| FirstFor(b.envelopes, self, e) && Delivers(r, e, self, secret, b.manifest.rootDid, m) {
          FirstIsUnique(b.envelopes, self, e);
          EnvelopeOpensIff(r, e, self, secret, b.manifest.rootDid, m);
        }
        if FindEnvelope(b.envelopes, self).Some? {
          EnvelopeOpensIff(r, FindEnvelope(b.envelopes, self).value, self, secret, b.manifest.rootDid, m);
        }
    }
  }

  lemma SomeoneIsNamed(envelopes: seq<Envelope>, self: string, e: Envelope)
    requires FirstFor(envelopes, self, e)
    ensures exists k :: 0 <= k < |envelopes| && envelopes[k].recipient == self
  {
    var k :| 0 <= k < |envelopes| && envelopes[k] == e && NamedFirst(envelopes, self, k);
  }

  /**
   Over every bundle, reader and time: what consuming yields. It succeeds exactly
   when the manifest is signed by its root and either no envelope names `self`,
   and nothing is delivered, or the first one that does delivers a key wrapped
   for this very holder under a chain that derives from the root.
   */
  lemma ConsumedIff(r: Reader, b: Bundle, self: string, secret: seq<nat>, c: Consumed)
    ensures ConsumeBundle(r, b, self, secret) == Ok(c) <==>
      && |secret| == Attestation.SECRET_BYTES && SignedByItsRoot(b)
      && c.workspaceId == b.manifest.workspaceId && c.rootDid == b.manifest.rootDid
      && Yields(r, b, self, secret, c.mine)
  {
    hide CheckManifest, SignedByItsRoot, FindEnvelope, ConsumeEnvelope, Yields;
    ManifestPassesIff(b);
    FoundYields(r, b, self, secret, c.mine);
  }

  // ---------------------------------------------------------------------
  // Round trip
  // ---------------------------------------------------------------------

  lemma EnvelopeNamesRecipient(r: Recipient, rootDid: string)
    ensures CreateEnvelope(r, rootDid).Ok? ==> CreateEnvelope(r, rootDid).value.recipient == r.did
  {
  }

  lemma {:induction false} FirstOwnEnvelope(recipients: seq<Recipient>, rootDid: string, i: nat)
    requires CreateEnvelopes(recipients, rootDid).Ok? && i < |recipients|
    requires forall k :: 0 <= k < i ==> recipients[k].did != recipients[i].did
    ensures CreateEnvelope(recipients[i], rootDid).Ok?
    ensures FindEnvelope(CreateEnvelopes(recipients, rootDid).value, recipients[i].did) ==
              Some(CreateEnvelope(recipients[i], rootDid).value)
  {
    hide CreateEnvelope;
    var all := CreateEnvelopes(recipients, rootDid).value;
    EnvelopeNamesRecipient(recipients[0], rootDid);
    if i > 0 {
      FirstOwnEnvelope(recipients[1..], rootDid, i - 1);
      assert all[1..] == CreateEnvelopes(recipients[1..], rootDid).value;
    }
  }

  /** A DID that names an ed25519 key. */
  predicate NamesKey(did: string) {
    PublicKeyFromDid(did).Ok? && |PublicKeyFromDid(did).value| == KEY_BYTES
  }

  lemma {:induction false} EnvelopesSucceedIff(recipients: seq<Recipient>, rootDid: string)
    ensures CreateEnvelopes(recipients, rootDid).Ok? <==>
              forall k :: 0 <= k < |recipients| ==> NamesKey(recipients[k].did)
  {
    hide PublicKeyFromDid;
    if recipients != [] {
      EnvelopesSucceedIff(recipients[1..], rootDid);
      var rest := recipients[1..];
      assert forall k :: 0 < k < |recipients| ==> recipients[k] == rest[k - 1];
      assert forall k :: 0 <= k < |rest| ==> rest[k] == recipients[k + 1];
    }
  }

  /** A bundle is made exactly for the secret key of the root DID and recipients whose DIDs name keys. */
  lemma CreateBundleSucceedsIff(
    createdAt: real, rootDid: string, secret: seq<nat>, topicId: Text16,
    logs: Option<Attestation.Logs>, recipients: seq<Recipient>)
    requires IsBytes(secret)
    ensures CreateBundle(createdAt, rootDid, secret, topicId, logs, recipients).Ok? <==>
              Owns(secret, rootDid) && forall k :: 0 <= k < |recipients| ==> NamesKey(recipients[k].did)
  {
    hide PublicKeyFromDid, CreateEnvelopes, DidOf;
    EnvelopesSucceedIff(recipients, rootDid);
    if |secret| == Attestation.SECRET_BYTES {
      var key := Attestation.PublicHalf(secret);
      assert IsKey(key);
      KeyComesBack(key);
      RootIdExists(key);
    }
  }

  lemma RootIdExists(key: seq<nat>)
    requires IsKey(key)
    ensures WorkspaceIdForRoot(DidOf(key)).Ok?
  {
    KeyComesBack(key);
  }

  lemma CreatedManifestIsAccepted(
    createdAt: real, rootDid: string, secret: seq<nat>, topicId: Text16,
    logs: Option<Attestation.Logs>, recipients: seq<Recipient>)
    requires IsBytes(secret)
    requires CreateBundle(createdAt, rootDid, secret, topicId, logs, recipients).Ok?
    ensures CheckManifest(CreateBundle(createdAt, rootDid, secret, topicId, logs, recipients).value).None?
  {
    var b := CreateBundle(createdAt, rootDid, secret, topicId, logs, recipients).value;
    Attestation.SignedVerifies(PayloadOf(b.manifest), secret);
  }

  /** The secret key of the identity `did` names. */
  predicate Owns(secret: seq<nat>, did: string) {
    && IsBytes(secret) && |secret| == Attestation.SECRET_BYTES
    && did == DidOf(Attestation.PublicHalf(secret))
  }

  lemma CreatedParts(
    createdAt: real, rootDid: string, secret: seq<nat>, topicId: Text16,
    logs: Option<Attestation.Logs>, recipients: seq<Recipient>)
    requires CreateBundle(createdAt, rootDid, secret, topicId, logs, recipients).Ok?
    ensures CreateEnvelopes(recipients, rootDid).Ok?
    ensures var b := CreateBundle(createdAt, rootDid, secret, topicId, logs, recipients).value;
            b.manifest.rootDid == rootDid && b.envelopes == CreateEnvelopes(recipients, rootDid).value
  {
  }

  lemma {:induction false} OwnEnvelopeOpens(r: Reader, recipient: Recipient, self: seq<nat>, rootDid: string)
    requires Owns(self, recipient.did) && CreateEnvelope(recipient, rootDid).Ok?
    requires r.now < recipient.expiration.Floor && ReadsResources(r.holds)
    requires AllSigned(r.signed, Issue(GrantFor(recipient, rootDid), []).value)
    ensures var e := CreateEnvelope(recipient, rootDid).value;
            ConsumeEnvelope(r, e, recipient.did, self, rootDid) ==
              Ok(Mine(recipient.resource, recipient.key, Issue(GrantFor(recipient, rootDid), []).value, recipient.capability))
  {
    OwnChainIsValid(r, recipient, rootDid);
    KeyComesBack(Attestation.PublicHalf(self));
    hide Validate, Restore, ToBytes, DidOf, IsBytes;
  }

  lemma {:induction false} OwnChainIsValid(r: Reader, recipient: Recipient, rootDid: string)
    requires r.now < recipient.expiration.Floor && ReadsResources(r.holds)
    requires AllSigned(r.signed, Issue(GrantFor(recipient, rootDid), []).value)
    ensures var chain := Issue(GrantFor(recipient, rootDid), []).value;
            && chain != [] && chain[0].aud == recipient.did && Restore(ToBytes(chain)) == Ok(chain)
            && Validate(ContextFor(r, rootDid), chain) == Valid(recipient.did, recipient.capability)
  {
    var grants := [GrantFor(recipient, rootDid)];
    assert grants[..0] == [];
    assert IssueAll(grants) == Issue(grants[0], []);
    IssuedChainIsValid(ContextFor(r, rootDid), grants, rootDid, recipient.capability.resource);
    BytesRoundTrip(Issue(GrantFor(recipient, rootDid), []).value);
  }

  /** A bundle its root created is accepted, and its first envelope for a recipient gives that recipient the key it was sealed with. */
  lemma CreatedBundleDelivers(
    r: Reader, createdAt: real, rootDid: string, secret: seq<nat>, topicId: Text16,
    logs: Option<Attestation.Logs>, recipients: seq<Recipient>, i: nat, self: seq<nat>)
    requires i < |recipients| && Owns(self, recipients[i].did) && IsBytes(secret)
    requires CreateBundle(createdAt, rootDid, secret, topicId, logs, recipients).Ok?
    requires forall k :: 0 <= k < i ==> recipients[k].did != recipients[i].did
    requires r.now < recipients[i].expiration.Floor && ReadsResources(r.holds)
    requires AllSigned(r.signed, Issue(GrantFor(recipients[i], rootDid), []).value)
    ensures var b := CreateBundle(createdAt, rootDid, secret, topicId, logs, recipients).value;
            ConsumeBundle(r, b, recipients[i].did, self) ==
              Ok(Consumed(b.manifest.workspaceId, rootDid,
                          Some(Mine(recipients[i].resource, recipients[i].key,
                                    Issue(GrantFor(recipients[i], rootDid), []).value, recipients[i].capability))))
  {
    CreatedManifestIsAccepted(createdAt, rootDid, secret, topicId, logs, recipients);
    CreatedParts(createdAt, rootDid, secret, topicId, logs, recipients);
    hide CreateBundle, CheckManifest, FindEnvelope, ConsumeEnvelope, CreateEnvelope, CreateEnvelopes, DidOf, AllSigned;
    FirstOwnEnvelope(recipients, rootDid, i);
    OwnEnvelopeOpens(r, recipients[i], self, rootDid);
  }
}
