/** Issuing delegations, one on top of another, and carrying a chain as bytes. */
module Issuing {
  import opened Results
  import opened Strings
  import opened Delegation

  /** The options of one `issueDelegation` call, apart from its proofs. */
  datatype Grant = Grant(
    issuer: Did, audience: Did, capabilities: seq<Capability>,
    expiration: Option<real>, notBefore: Option<real>, nonce: nat, signature: nat)

  datatype IssueError = NotOneCapability(count: nat)

  function Floored(t: Option<real>): Option<int> {
    match t
    case None => None
    case Some(x) => Some(x.Floor)
  }

  /** The chain a grant makes on top of `parent`, leaf first. */
  function Issue(g: Grant, parent: seq<Link>): Result<seq<Link>, IssueError> {
    if |g.capabilities| != 1 then Err(NotOneCapability(|g.capabilities|))
    else
      var capability := g.capabilities[0];
      var link := Link(
        g.issuer, g.audience,
        if parent == [] then Some(g.issuer) else parent[|parent| - 1].sub,
        "/" + capability.can,
        [Equal(RESOURCE_SELECTOR, Text(capability.resource))],
        Floored(g.notBefore), Floored(g.expiration), g.nonce, g.signature);
      Ok([link] + parent)
  }

  /** Issuing one grant after another, the first with no proofs. */
  function IssueAll(grants: seq<Grant>): Result<seq<Link>, IssueError> {
    if grants == [] then Ok([])
    else
      match IssueAll(grants[..|grants| - 1])
      case Err(e) => Err(e)
      case Ok(chain) => Issue(grants[|grants| - 1], chain)
  }

  function CommandOf(g: Grant): string
    requires |g.capabilities| == 1
  {
    "/" + g.capabilities[0].can
  }

  predicate Timely(g: Grant, now: int) {
    && (g.expiration.Some? ==> now < g.expiration.value.Floor)
    && (g.notBefore.Some? ==> g.notBefore.value.Floor <= now)
  }

  /**
   Each grant is issued by the audience of the one before it, on the same
   resource, for a command its parent's covers, and now is inside its window.
   */
  predicate Chained(grants: seq<Grant>, root: Did, resource: string, now: int) {
    && grants != []
    && (forall k :: 0 <= k < |grants| ==>
          |grants[k].capabilities| == 1 && grants[k].capabilities[0].resource == resource && Timely(grants[k], now))
    && grants[0].issuer == root
    && (forall k :: 0 < k < |grants| ==>
          grants[k].issuer == grants[k - 1].audience && CommandCovers(CommandOf(grants[k - 1]), CommandOf(grants[k])))
  }

  /** The policy engine reads `["==", ".resource", r]` as equality with the resource. */
  ghost predicate ReadsResources(holds: (Statement, string) -> bool) {
    forall text, resource :: holds(Equal(RESOURCE_SELECTOR, Text(text)), resource) <==> text == resource
  }

  ghost predicate AllSigned(signed: set<(Did, Link)>, chain: seq<Link>) {
    forall k :: 0 <= k < |chain| ==> (chain[k].iss, chain[k]) in signed
  }

  predicate IsGrantOf(link: Link, g: Grant, root: Did, resource: string, now: int) {
    && |g.capabilities| == 1
    && link.iss == g.issuer && link.aud == g.audience && link.sub == Some(root)
    && link.cmd == CommandOf(g)
    && link.pol == [Equal(RESOURCE_SELECTOR, Text(resource))]
    && !PastExpiry(link, now) && !BeforeStart(link, now)
  }

  /** Issuing stops at the first grant that does not have exactly one capability, and otherwise makes a link per grant. */
  lemma {:induction false} IssueFailsIff(grants: seq<Grant>, count: nat)
    ensures IssueAll(grants) == Err(NotOneCapability(count)) <==> exists k :: FailsFirst(grants, k, count)
    ensures IssueAll(grants).Ok? <==> forall k :: 0 <= k < |grants| ==> |grants[k].capabilities| == 1
    ensures IssueAll(grants).Ok? ==> |IssueAll(grants).value| == |grants|
  {
    if grants != [] {
      var n := |grants| - 1;
      var before := grants[..n];
      IssueFailsIff(before, count);
      assert forall k :: 0 <= k < n ==> before[k] == grants[k];
      forall k ensures FailsFirst(before, k, count) ==> FailsFirst(grants, k, count) {
      }
      if k :| FailsFirst(grants, k, count) {
        assert k < n ==> FailsFirst(before, k, count);
      }
      if IssueAll(before).Ok? && |grants[n].capabilities| == count != 1 {
        assert FailsFirst(grants, n, count);
      }
    }
  }

  predicate FailsFirst(grants: seq<Grant>, k: int, count: nat) {
    && 0 <= k < |grants| && |grants[k].capabilities| == count != 1
    && forall i :: 0 <= i < k ==> |grants[i].capabilities| == 1
  }

  /** What the links of an issued chain say, link by link: the leaf is the last grant. */
  lemma {:induction false} IssuedLinks(grants: seq<Grant>, root: Did, resource: string, now: int)
    requires Chained(grants, root, resource, now)
    ensures IssueAll(grants).Ok? && |IssueAll(grants).value| == |grants|
    ensures forall k :: 0 <= k < |grants| ==>
              IsGrantOf(IssueAll(grants).value[|grants| - 1 - k], grants[k], root, resource, now)
  {
    var n := |grants| - 1;
    var g := grants[n];
    assert grants[..n][..] == grants[..n];
    if n == 0 {
      assert IssueAll(grants[..0]) == Ok([]);
    } else {
      hide CommandCovers;
      IssuedLinks(grants[..n], root, resource, now);
      var chain := IssueAll(grants[..n]).value;
      assert chain[n - 1].sub == Some(root) by {
        assert chain[n - 1 - 0].sub == Some(root);
      }
      var links := IssueAll(grants).value;
      assert links[1..] == chain;
      forall k | 0 <= k < |grants| ensures IsGrantOf(links[n - k], grants[k], root, resource, now) {
        if k < n {
          assert IsGrantOf(chain[n - 1 - k], grants[..n][k], root, resource, now);
          assert links[n - k] == chain[n - 1 - k];
        }
      }
    }
  }

  lemma {:induction false} CommandsDescend(grants: seq<Grant>, root: Did, resource: string, now: int, i: nat, k: nat)
    requires Chained(grants, root, resource, now) && i <= k < |grants|
    ensures CommandCovers(CommandOf(grants[i]), CommandOf(grants[k]))
    decreases k
  {
    if i < k {
      CommandsDescend(grants, root, resource, now, i, k - 1);
      TransitiveIff(CommandOf(grants[i]), CommandOf(grants[k - 1]), CommandOf(grants[k]));
    }
  }

  /** Issuing is complete: a chain issued this way validates against its root, and says what the last grant granted. */
  lemma {:induction false} IssuedChainIsValid(c: Context, grants: seq<Grant>, root: Did, resource: string)
    requires Chained(grants, root, resource, c.now)
    requires IssueAll(grants).Ok? && AllSigned(c.signed, IssueAll(grants).value)
    requires ReadsResources(c.holds) && c.rootFor(resource) == Some(root)
    ensures IssueAll(grants).value != []
    ensures var last := grants[|grants| - 1];
            Validate(c, IssueAll(grants).value) ==
              Valid(last.audience, Capability(last.capabilities[0].can, resource))
  {
    var chain := IssueAll(grants).value;
    var n := |grants|;
    IssuedLinks(grants, root, resource, c.now);
    assert chain[0].cmd == CommandOf(grants[n - 1]) by {
      assert chain[n - 1 - (n - 1)] == chain[0];
    }
    assert ClaimOf(chain).resource == resource;
    assert c.holds(Equal(RESOURCE_SELECTOR, Text(resource)), resource);
    assert chain[n - 1 - 0] == chain[n - 1];
    forall k | 0 <= k < n ensures CheckLink(c, chain, k).None? {
      var g := n - 1 - k;
      assert IsGrantOf(chain[n - 1 - g], grants[g], root, resource, c.now);
      assert chain[n - 1 - g] == chain[k];
      CommandsDescend(grants, root, resource, c.now, g, n - 1);
      if k + 1 < n {
        assert IsGrantOf(chain[n - 1 - (g - 1)], grants[g - 1], root, resource, c.now);
        assert grants[g].issuer == grants[g - 1].audience;
      }
      assert k + 1 < n ==> chain[k].iss == chain[k + 1].aud;
      assert PolicyAllows(c.holds, chain[k].pol, resource);
    }
    ChecksPassIff(c, chain, 0);
    assert (CommandOf(grants[n - 1]))[1..] == grants[n - 1].capabilities[0].can;
  }

  // ---------------------------------------------------------------------
  // toBytes and fromBytes
  // ---------------------------------------------------------------------

  /** One element of the decoded array: an envelope's bytes, which may or may not decode, or something else. */
  datatype Item = Envelope(link: Link) | BadEnvelope | NotBytes

  datatype Wire = Items(items: seq<Item>) | NotAnArray | Garbage

  datatype WireError = Undecodable | NotEnvelopes | BadLink(depth: nat)

  function ToBytes(chain: seq<Link>): Wire {
    Items(seq(|chain|, k requires 0 <= k < |chain| => Envelope(chain[k])))
  }

  /** The links of the items from `i` on. */
  function LinksFrom(items: seq<Item>, i: nat): Result<seq<Link>, WireError>
    requires i <= |items|
    decreases |items| - i
  {
    if i == |items| then Ok([])
    else if !items[i].Envelope? then Err(BadLink(i))
    else
      match LinksFrom(items, i + 1)
      case Err(e) => Err(e)
      case Ok(rest) => Ok([items[i].link] + rest)
  }

  function Restore(wire: Wire): Result<seq<Link>, WireError> {
    match wire
    case Garbage => Err(Undecodable)
    case NotAnArray => Err(NotEnvelopes)
    case Items(items) =>
      if items == [] || exists k :: 0 <= k < |items| && items[k].NotBytes? then Err(NotEnvelopes)
      else LinksFrom(items, 0)
  }

  method FromBytes(wire: Wire) returns (result: Result<seq<Link>, WireError>)
    ensures result == Restore(wire)
    ensures result.Ok? ==> result.value != []
  {
    if wire.Garbage? {
      return Err(Undecodable);
    }
    if wire.NotAnArray? || wire.items == [] || exists k :: 0 <= k < |wire.items| && wire.items[k].NotBytes? {
      return Err(NotEnvelopes);
    }
    var items := wire.items;
    var chain: seq<Link> := [];
    assert forall rest: seq<Link> :: [] + rest == rest;
    for i := 0 to |items|
      invariant |chain| == i
      invariant LinksFrom(items, i).Ok? ==> LinksFrom(items, 0) == Ok(chain + LinksFrom(items, i).value)
      invariant LinksFrom(items, i).Err? ==> LinksFrom(items, 0) == LinksFrom(items, i)
    {
      if !items[i].Envelope? {
        return Err(BadLink(i));
      }
      assert LinksFrom(items, i + 1).Ok? ==>
          chain + ([items[i].link] + LinksFrom(items, i + 1).value) ==
          (chain + [items[i].link]) + LinksFrom(items, i + 1).value;
      chain := chain + [items[i].link];
    }
    assert chain + [] == chain;
    result := Ok(chain);
  }

  lemma {:induction false} LinksComeBack(chain: seq<Link>, i: nat)
    requires i <= |chain|
    ensures LinksFrom(ToBytes(chain).items, i) == Ok(chain[i..])
    decreases |chain| - i
  {
    if i == |chain| {
      assert chain[i..] == [];
    } else {
      LinksComeBack(chain, i + 1);
      assert chain[i..] == [chain[i]] + chain[i + 1..];
    }
  }

  lemma {:induction false} LinksAreEnvelopes(items: seq<Item>, i: nat)
    requires i <= |items| && LinksFrom(items, i).Ok?
    ensures var links := LinksFrom(items, i).value;
            |links| == |items| - i && forall k :: i <= k < |items| ==> items[k] == Envelope(links[k - i])
    decreases |items| - i
  {
    if i < |items| {
      LinksAreEnvelopes(items, i + 1);
    }
  }

  /** Bytes restore to a chain exactly if they are the bytes of that chain, which then has a link. */
  lemma RestoreIff(wire: Wire, chain: seq<Link>)
    ensures Restore(wire) == Ok(chain) <==> chain != [] && wire == ToBytes(chain)
  {
    if Restore(wire) == Ok(chain) {
      LinksAreEnvelopes(wire.items, 0);
      assert wire.items == ToBytes(chain).items;
    }
    if chain != [] {
      BytesRoundTrip(chain);
    }
  }

  /** A token's chain survives its bytes, in order, leaf first. */
  lemma BytesRoundTrip(chain: seq<Link>)
    requires chain != []
    ensures Restore(ToBytes(chain)) == Ok(chain)
  {
    LinksComeBack(chain, 0);
    assert chain[0..] == chain;
    forall k | 0 <= k < |chain| ensures !ToBytes(chain).items[k].NotBytes? {
    }
  }
}
