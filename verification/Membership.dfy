/**
 The connect-time membership decision: the presented delegation is bound to the
 key the connection authenticated.
 */
module Membership {
  import opened Results
  import opened Strings
  import opened Base58
  import opened DidKey
  import opened Delegation
  import opened Issuing

  /** The gate's own policy: its workspace, its root, and what it knows when it decides. */
  datatype Gatekeeper = Gatekeeper(
    signed: set<(Did, Link)>, holds: (Statement, string) -> bool,
    rootDid: Did, resource: string, revoked: set<Did>)

  datatype Rejection =
    | BadRemoteKey | UndecodableProof | AudienceMismatch | Revoked | InvalidChain(why: Refusal) | OtherCapability

  datatype Verdict = Member(did: Did, capability: Capability) | Rejected(why: Rejection)

  const MEMBER_COMMAND: string := "workspace/"

  function ContextAt(g: Gatekeeper, now: int): Context {
    Context(g.signed, g.holds, (resource: string) => Some(g.rootDid), now)
  }

  function VerifyMembership(g: Gatekeeper, remoteKey: seq<nat>, proof: Wire, now: int): Verdict {
    match DidFromPublicKey(remoteKey)
    case Err(_) => Rejected(BadRemoteKey)
    case Ok(peer) =>
      match Restore(proof)
      case Err(_) => Rejected(UndecodableProof)
      case Ok(chain) =>
        if chain == [] || chain[0].aud != peer then Rejected(AudienceMismatch)
        else if peer in g.revoked then Rejected(Revoked)
        else
          match Validate(ContextAt(g, now), chain)
          case Refused(why) => Rejected(InvalidChain(why))
          case Valid(_, claim) =>
            if claim.resource != g.resource || !StartsWith(claim.can, MEMBER_COMMAND) then Rejected(OtherCapability)
            else Member(peer, claim)
  }

  /** Restoring never yields an empty chain, so the membership check always has a leaf to look at. */
  lemma RestoredIsNonempty(proof: Wire)
    requires Restore(proof).Ok?
    ensures Restore(proof).value != []
  {
    assert |proof.items| > 0;
  }

  /**
   `d` is a derivation, from the root, of a workspace capability on this
   workspace for the one who controls `key`.
   */
  ghost predicate Authorises(g: Gatekeeper, d: Derivation, key: seq<nat>, now: int) {
    var claim := ClaimOf(LinksOf(d));
    && IsKey(key) && d.link.aud == DidOf(key) && DidOf(key) !in g.revoked
    && claim.resource == g.resource && StartsWith(claim.can, MEMBER_COMMAND)
    && Proves(ContextAt(g, now), d, g.rootDid, d.link.cmd, g.resource)
  }

  /** A peer is a member exactly when its proof is the links of a derivation that authorises its own key. */
  lemma {:induction false} MemberIffAuthorised(g: Gatekeeper, key: seq<nat>, proof: Wire, now: int)
    requires IsBytes(key)
    ensures VerifyMembership(g, key, proof, now).Member? <==>
              exists d :: Restore(proof) == Ok(LinksOf(d)) && Authorises(g, d, key, now)
    ensures VerifyMembership(g, key, proof, now).Member? ==>
              VerifyMembership(g, key, proof, now).did == DidFromPublicKey(key).value
  {
    if Restore(proof).Ok? {
      RestoredIsNonempty(proof);
      var chain := Restore(proof).value;
      ValidIffDerivable(ContextAt(g, now), chain);
      if VerifyMembership(g, key, proof, now).Member? {
        var d :| LinksOf(d) == chain
              && Proves(ContextAt(g, now), d, g.rootDid, chain[0].cmd, ClaimOf(chain).resource);
        assert Authorises(g, d, key, now);
      }
    }
  }

  /** A peer holding a chain issued to its DID, for a workspace command on this workspace, is admitted. */
  lemma {:induction false} IssuedMemberIsAdmitted(g: Gatekeeper, grants: seq<Grant>, key: seq<nat>, now: int)
    requires IsKey(key) && Chained(grants, g.rootDid, g.resource, now)
    requires IssueAll(grants).Ok? && AllSigned(g.signed, IssueAll(grants).value) && ReadsResources(g.holds)
    requires var last := grants[|grants| - 1];
             && last.audience == DidOf(key) && DidOf(key) !in g.revoked
             && StartsWith(last.capabilities[0].can, MEMBER_COMMAND)
    ensures VerifyMembership(g, key, ToBytes(IssueAll(grants).value), now).Member?
  {
    var chain := IssueAll(grants).value;
    IssuedChainIsValid(ContextAt(g, now), grants, g.rootDid, g.resource);
    ValidIffDerivable(ContextAt(g, now), chain);
    BytesRoundTrip(chain);
    KeyComesBack(key);
  }
}
