/**
 UCAN delegation chains: what a link carries, when one command covers another,
 and the link-by-link validation. Signatures are an ideal relation, and policy
 statements are judged by an engine that is a parameter.
 */
module Delegation {
  import opened Results
  import opened Strings

  type Did = string

  datatype Operand = Text(text: string) | NotText(tag: nat)

  /** `["==", selector, operand]`, or any other statement of the policy language. */
  datatype Statement = Equal(selector: string, operand: Operand) | OtherStatement(tag: nat)

  datatype Link = Link(
    iss: Did, aud: Did, sub: Option<Did>, cmd: string, pol: seq<Statement>,
    nbf: Option<int>, exp: Option<int>, nonce: nat, signature: nat)

  datatype Capability = Capability(can: string, resource: string)

  /** What a validation depends on besides the chain. */
  datatype Context = Context(
    signed: set<(Did, Link)>,              // who has signed what
    holds: (Statement, string) -> bool,    // a policy statement admits a resource
    rootFor: string -> Option<Did>,
    now: int)

  const RESOURCE_SELECTOR: string := ".resource"

  // ---------------------------------------------------------------------
  // Commands
  // ---------------------------------------------------------------------

  predicate CommandCovers(parent: string, child: string) {
    parent == "/" || child == parent || StartsWith(child, parent + "/")
  }

  predicate Rooted(cmd: string) {
    StartsWith(cmd, "/")
  }

  /** The segments of a rooted command; "/" has none. */
  function Segments(cmd: string): seq<string>
    requires Rooted(cmd)
  {
    if cmd == "/" then [] else Split(cmd[1..], '/')
  }

  /** On rooted commands, covering is being a list prefix, segment by segment. */
  lemma CoversIsSegmentPrefix(parent: string, child: string)
    requires Rooted(parent) && Rooted(child)
    ensures CommandCovers(parent, child) <==> Segments(parent) <= Segments(child)
  {
    if parent != "/" && child != "/" {
      var p, c := parent[1..], child[1..];
      assert parent == "/" + p && child == "/" + c;
      SplitPrefix(p, c, '/');
      assert parent + "/" == "/" + (p + ['/']);
      if StartsWith(child, parent + "/") {
        assert child[1..][..|p| + 1] == (parent + "/")[1..];
        assert StartsWith(c, p + ['/']);
      }
      if StartsWith(c, p + ['/']) {
        assert child[..|parent| + 1] == parent + "/";
      }
    }
  }

  lemma SegmentsAreUnique(a: string, b: string)
    requires Rooted(a) && Rooted(b) && Segments(a) == Segments(b)
    ensures a == b
  {
    if a != "/" && b != "/" {
      JoinOfSplit(a[1..], '/');
      JoinOfSplit(b[1..], '/');
      assert a == "/" + a[1..] && b == "/" + b[1..];
    }
  }

  /** Two different commands cover each other only if they are the empty command and "/". */
  lemma MutualCoverIff(a: string, b: string)
    requires a != b
    ensures CommandCovers(a, b) && CommandCovers(b, a) <==> {a, b} == {"", "/"}
  {
    if CommandCovers(a, b) && CommandCovers(b, a) {
      if a == "/" {
        assert StartsWith(a, b + "/");
        assert |b| == 0;
      } else if b == "/" {
        assert StartsWith(b, a + "/");
        assert |a| == 0;
      }
      assert a == "/" || b == "/";
    }
    if {a, b} == {"", "/"} {
      assert a in {"", "/"} && b in {"", "/"} && "" in {a, b} && "/" in {a, b};
      assert "" + "/" == "/";
    }
  }

  /** Covering carries over a chain of two except from the empty command over "/" to an unrooted one. */
  lemma TransitiveIff(a: string, b: string, c: string)
    requires CommandCovers(a, b) && CommandCovers(b, c)
    ensures CommandCovers(a, c) <==> !(a == "" && b == "/" && c != "" && !Rooted(c))
  {
    assert "" + "/" == "/";
    if a != "/" && a != b && b != c {
      assert a + "/" <= b;
      if b == "/" {
        assert |a| == 0;
      } else {
        assert b + "/" <= c;
        assert b <= c;
        assert c[..|a| + 1] == b[..|a| + 1] == a + "/";
      }
    }
  }

  ghost predicate IsPartialOrderOn(commands: set<string>) {
    && (forall a :: a in commands ==> CommandCovers(a, a))
    && (forall a, b :: a in commands && b in commands && CommandCovers(a, b) && CommandCovers(b, a) ==> a == b)
    && (forall a, b, c :: a in commands && b in commands && c in commands ==>
          (CommandCovers(a, b) && CommandCovers(b, c) ==> CommandCovers(a, c)))
  }

  lemma SameOrBothEnds(commands: set<string>, a: string, b: string)
    requires a in commands && b in commands && CommandCovers(a, b) && CommandCovers(b, a)
    ensures a == b || ("" in commands && "/" in commands)
  {
    hide CommandCovers;
    if a != b {
      MutualCoverIff(a, b);
      assert "" in {a, b} && "/" in {a, b};
    }
  }

  /** On any set of commands, rooted or not, covering is a partial order exactly when "" and "/" are not both in it. */
  lemma PartialOrderIff(commands: set<string>)
    ensures IsPartialOrderOn(commands) <==> !("" in commands && "/" in commands)
  {
    hide CommandCovers;
    if !("" in commands && "/" in commands) {
      forall a, b | a in commands && b in commands && CommandCovers(a, b) && CommandCovers(b, a) ensures a == b {
        SameOrBothEnds(commands, a, b);
      }
      forall a, b, c | a in commands && b in commands && c in commands && CommandCovers(a, b) && CommandCovers(b, c)
        ensures CommandCovers(a, c)
      {
        TransitiveIff(a, b, c);
      }
      forall a | a in commands ensures CommandCovers(a, a) {
        CoversItself(a);
      }
    } else {
      MutualCoverIff("", "/");
    }
  }

  lemma CoversItself(a: string)
    ensures CommandCovers(a, a) && CommandCovers("/", a)
  {
  }

  // ---------------------------------------------------------------------
  // Policies
  // ---------------------------------------------------------------------

  /** The first statement that names a resource, if any. */
  function ResourceOf(pol: seq<Statement>): Option<string> {
    if pol == [] then None
    else
      match pol[0]
      case Equal(selector, Text(text)) =>
        if selector == RESOURCE_SELECTOR then Some(text) else ResourceOf(pol[1..])
      case _ => ResourceOf(pol[1..])
  }

  method FindResource(pol: seq<Statement>) returns (resource: Option<string>)
    ensures resource == ResourceOf(pol)
  {
    for k := 0 to |pol|
      invariant ResourceOf(pol) == ResourceOf(pol[k..])
    {
      var statement := pol[k];
      assert pol[k..][1..] == pol[k + 1..];
      if statement.Equal? && statement.selector == RESOURCE_SELECTOR && statement.operand.Text? {
        return Some(statement.operand.text);
      }
    }
    return None;
  }

  predicate NamesResource(statement: Statement, resource: string) {
    statement == Equal(RESOURCE_SELECTOR, Text(resource))
  }

  ghost predicate NamesSome(statement: Statement) {
    exists resource :: NamesResource(statement, resource)
  }

  ghost predicate FirstNamed(pol: seq<Statement>, k: nat, resource: string) {
    k < |pol| && NamesResource(pol[k], resource) && forall i :: 0 <= i < k ==> !NamesSome(pol[i])
  }

  /** The resource of a policy is what its first statement that names one names. */
  lemma {:induction false} ResourceOfIff(pol: seq<Statement>, resource: string)
    ensures ResourceOf(pol) == Some(resource) <==> exists k: nat :: FirstNamed(pol, k, resource)
    ensures ResourceOf(pol).None? <==> forall k :: 0 <= k < |pol| ==> !NamesSome(pol[k])
  {
    if pol != [] {
      var rest := pol[1..];
      ResourceOfIff(rest, resource);
      assert NamesSome(pol[0]) <==> pol[0].Equal? && pol[0].selector == RESOURCE_SELECTOR && pol[0].operand.Text? by {
        if pol[0].Equal? && pol[0].selector == RESOURCE_SELECTOR && pol[0].operand.Text? {
          assert NamesResource(pol[0], pol[0].operand.text);
        }
      }
      assert forall k :: 0 <= k < |rest| ==> rest[k] == pol[k + 1];
      if !NamesSome(pol[0]) {
        forall k: nat ensures FirstNamed(pol, k + 1, resource) <==> FirstNamed(rest, k, resource) {
        }
        if k: nat :| FirstNamed(pol, k, resource) {
          assert k > 0 && FirstNamed(rest, k - 1, resource);
        }
      } else if NamesResource(pol[0], resource) {
        assert FirstNamed(pol, 0, resource);
      }
    }
  }

  predicate PolicyAllows(holds: (Statement, string) -> bool, pol: seq<Statement>, resource: string) {
    forall k :: 0 <= k < |pol| ==> holds(pol[k], resource)
  }

  // ---------------------------------------------------------------------
  // Tokens
  // ---------------------------------------------------------------------

  /** The capability a chain's leaf claims. */
  function ClaimOf(chain: seq<Link>): Capability
    requires chain != []
  {
    var leaf := chain[0];
    Capability(
      if leaf.cmd == "" then "" else leaf.cmd[1..],
      match ResourceOf(leaf.pol)
      case Some(resource) => resource
      case None => "")
  }

  datatype Refusal =
    | Expired | NotYetValid | NoRootKnown | WrongRoot
    | NotSigned(depth: nat) | ChainBreak(depth: nat) | OtherSubject(depth: nat)
    | NotCarried(depth: nat) | LinkExpired(depth: nat) | LinkNotYetValid(depth: nat)

  datatype Validation = Valid(audience: Did, capability: Capability) | Refused(why: Refusal)

  predicate PastExpiry(l: Link, now: int) {
    l.exp.Some? && l.exp.value <= now
  }

  predicate BeforeStart(l: Link, now: int) {
    l.nbf.Some? && now < l.nbf.value
  }

  /** The checks on the link at depth `i`, in the order they are made. */
  function CheckLink(c: Context, chain: seq<Link>, i: nat): Option<Refusal>
    requires i < |chain|
  {
    var link := chain[i];
    if (link.iss, link) !in c.signed then Some(NotSigned(i))
    else if i + 1 < |chain| && link.iss != chain[i + 1].aud then Some(ChainBreak(i))
    else if link.sub != chain[|chain| - 1].sub then Some(OtherSubject(i))
    else if !CommandCovers(link.cmd, chain[0].cmd)
         || !PolicyAllows(c.holds, link.pol, ClaimOf(chain).resource) then Some(NotCarried(i))
    else if PastExpiry(link, c.now) then Some(LinkExpired(i))
    else if BeforeStart(link, c.now) then Some(LinkNotYetValid(i))
    else None
  }

  function CheckLinks(c: Context, chain: seq<Link>, i: nat): Option<Refusal>
    requires i <= |chain|
    decreases |chain| - i
  {
    if i == |chain| then None
    else
      var refusal := CheckLink(c, chain, i);
      if refusal.Some? then refusal else CheckLinks(c, chain, i + 1)
  }

  function Validate(c: Context, chain: seq<Link>): Validation
    requires chain != []
  {
    var claim := ClaimOf(chain);
    var root := chain[|chain| - 1];
    if PastExpiry(chain[0], c.now) then Refused(Expired)
    else if BeforeStart(chain[0], c.now) then Refused(NotYetValid)
    else
      match c.rootFor(claim.resource)
      case None => Refused(NoRootKnown)
      case Some(expected) =>
        if root.iss != expected || root.sub != Some(root.iss) then Refused(WrongRoot)
        else
          match CheckLinks(c, chain, 0)
          case Some(refusal) => Refused(refusal)
          case None => Valid(chain[0].aud, claim)
  }

  method ValidateDelegation(c: Context, chain: seq<Link>) returns (result: Validation)
    requires chain != []
    ensures result == Validate(c, chain)
  {
    hide CommandCovers, PolicyAllows;
    var leaf, root := chain[0], chain[|chain| - 1];
    var resource := FindResource(leaf.pol);
    var claim := Capability(if leaf.cmd == "" then "" else leaf.cmd[1..],
                            if resource.Some? then resource.value else "");
    if leaf.exp.Some? && leaf.exp.value <= c.now {
      return Refused(Expired);
    }
    if leaf.nbf.Some? && c.now < leaf.nbf.value {
      return Refused(NotYetValid);
    }
    var expected := c.rootFor(claim.resource);
    if expected.None? {
      return Refused(NoRootKnown);
    }
    if root.iss != expected.value || root.sub != Some(root.iss) {
      return Refused(WrongRoot);
    }
    for i := 0 to |chain|
      invariant CheckLinks(c, chain, 0) == CheckLinks(c, chain, i)
    {
      var link := chain[i];
      if (link.iss, link) !in c.signed {
        return Refused(NotSigned(i));
      }
      if i + 1 < |chain| && link.iss != chain[i + 1].aud {
        return Refused(ChainBreak(i));
      }
      if link.sub != root.sub {
        return Refused(OtherSubject(i));
      }
      if !CommandCovers(link.cmd, leaf.cmd) || !PolicyAllows(c.holds, link.pol, claim.resource) {
        return Refused(NotCarried(i));
      }
      if link.exp.Some? && link.exp.value <= c.now {
        return Refused(LinkExpired(i));
      }
      if link.nbf.Some? && c.now < link.nbf.value {
        return Refused(LinkNotYetValid(i));
      }
    }
    return Valid(leaf.aud, claim);
  }

  // ---------------------------------------------------------------------
  // The meaning of a valid chain
  // ---------------------------------------------------------------------

  /** A derivation of authority: the root's own statement, or a statement on top of another's. */
  datatype Derivation = Root(link: Link) | Delegated(link: Link, parent: Derivation)

  /** The links of a derivation, leaf first. */
  function LinksOf(d: Derivation): (links: seq<Link>)
    ensures links != [] && links[0] == d.link
  {
    match d
    case Root(l) => [l]
    case Delegated(l, p) => [l] + LinksOf(p)
  }

  /** One link, on its own, carries `cmd` on `resource` from `root`, now. */
  predicate Carries(c: Context, l: Link, root: Did, cmd: string, resource: string) {
    && (l.iss, l) in c.signed
    && l.sub == Some(root)
    && CommandCovers(l.cmd, cmd)
    && PolicyAllows(c.holds, l.pol, resource)
    && !PastExpiry(l, c.now) && !BeforeStart(l, c.now)
  }

  /** The derivation proves that the audience of its first link holds `cmd` on `resource` from `root`. */
  predicate Proves(c: Context, d: Derivation, root: Did, cmd: string, resource: string) {
    Carries(c, d.link, root, cmd, resource) &&
    match d
    case Root(l) => l.iss == root
    case Delegated(l, p) => l.iss == p.link.aud && Proves(c, p, root, cmd, resource)
  }

  function DerivationOf(chain: seq<Link>): (d: Derivation)
    requires chain != []
    ensures LinksOf(d) == chain
  {
    if |chain| == 1 then Root(chain[0]) else Delegated(chain[0], DerivationOf(chain[1..]))
  }

  lemma {:induction false} LinksDetermineDerivation(d: Derivation)
    ensures DerivationOf(LinksOf(d)) == d
  {
    match d
    case Root(_) =>
    case Delegated(l, p) =>
      LinksDetermineDerivation(p);
      assert LinksOf(d)[1..] == LinksOf(p);
  }

  /** Checking the links from `i` on is checking the derivation they form. */
  lemma {:induction false} LinksProve(c: Context, chain: seq<Link>, root: Did, i: nat)
    requires i < |chain|
    requires chain[|chain| - 1].sub == Some(root) && chain[|chain| - 1].iss == root
    ensures CheckLinks(c, chain, i).None? <==>
              Proves(c, DerivationOf(chain[i..]), root, chain[0].cmd, ClaimOf(chain).resource)
    decreases |chain| - i
  {
    if i + 1 < |chain| {
      LinksProve(c, chain, root, i + 1);
      assert chain[i..][1..] == chain[i + 1..];
    }
  }

  lemma {:induction false} RootOfProof(c: Context, d: Derivation, root: Did, cmd: string, resource: string)
    requires Proves(c, d, root, cmd, resource)
    ensures LinksOf(d)[|LinksOf(d)| - 1].iss == root && LinksOf(d)[|LinksOf(d)| - 1].sub == Some(root)
  {
    if d.Delegated? {
      RootOfProof(c, d.parent, root, cmd, resource);
    }
  }

  /**
   Validation is sound and complete: it accepts exactly the chains that are the
   links of a derivation of the leaf's own claim from the expected root.
   */
  lemma ValidIffDerivable(c: Context, chain: seq<Link>)
    requires chain != []
    ensures Validate(c, chain).Valid? <==>
              && c.rootFor(ClaimOf(chain).resource).Some?
              && exists d :: LinksOf(d) == chain
                  && Proves(c, d, c.rootFor(ClaimOf(chain).resource).value, chain[0].cmd, ClaimOf(chain).resource)
    ensures Validate(c, chain).Valid? ==> Validate(c, chain) == Valid(chain[0].aud, ClaimOf(chain))
  {
    var expected := c.rootFor(ClaimOf(chain).resource);
    if expected.Some? {
      var root := expected.value;
      var last := chain[|chain| - 1];
      if last.iss == root && last.sub == Some(root) {
        LinksProve(c, chain, root, 0);
        assert chain[0..] == chain;
      }
      forall d | LinksOf(d) == chain && Proves(c, d, root, chain[0].cmd, ClaimOf(chain).resource)
        ensures Validate(c, chain).Valid?
      {
        RootOfProof(c, d, root, chain[0].cmd, ClaimOf(chain).resource);
        LinksDetermineDerivation(d);
      }
      if Validate(c, chain).Valid? {
        assert LinksOf(DerivationOf(chain)) == chain;
      }
    }
  }

  /** A derivation at hand makes its links valid. */
  lemma DerivationIsValid(c: Context, d: Derivation, root: Did)
    requires c.rootFor(ClaimOf(LinksOf(d)).resource) == Some(root)
    requires Proves(c, d, root, d.link.cmd, ClaimOf(LinksOf(d)).resource)
    ensures Validate(c, LinksOf(d)) == Valid(d.link.aud, ClaimOf(LinksOf(d)))
  {
    ValidIffDerivable(c, LinksOf(d));
  }

  // ---------------------------------------------------------------------
  // When a chain is valid
  // ---------------------------------------------------------------------

  /** The latest start of any link. */
  function LatestStart(chain: seq<Link>): Option<int> {
    if chain == [] then None
    else
      var rest := LatestStart(chain[1..]);
      if chain[0].nbf.None? then rest
      else if rest.None? || rest.value < chain[0].nbf.value then chain[0].nbf
      else rest
  }

  /** The earliest expiry of any link. */
  function EarliestExpiry(chain: seq<Link>): Option<int> {
    if chain == [] then None
    else
      var rest := EarliestExpiry(chain[1..]);
      if chain[0].exp.None? then rest
      else if rest.None? || chain[0].exp.value < rest.value then chain[0].exp
      else rest
  }

  /** The half-open interval from the latest start to the earliest expiry. */
  predicate InWindow(chain: seq<Link>, now: int) {
    && (LatestStart(chain).Some? ==> LatestStart(chain).value <= now)
    && (EarliestExpiry(chain).Some? ==> now < EarliestExpiry(chain).value)
  }

  lemma {:induction false} WindowOfLinks(chain: seq<Link>, now: int)
    ensures InWindow(chain, now) <==>
              forall k :: 0 <= k < |chain| ==> !PastExpiry(chain[k], now) && !BeforeStart(chain[k], now)
  {
    if chain != [] {
      WindowOfLinks(chain[1..], now);
      assert chain == [chain[0]] + chain[1..];
      assert forall k :: 0 <= k < |chain| - 1 ==> chain[k + 1] == chain[1..][k];
      assert InWindow(chain, now) <==>
          !PastExpiry(chain[0], now) && !BeforeStart(chain[0], now) && InWindow(chain[1..], now);
    }
  }

  /** Everything validation asks of a chain except its times. */
  predicate Sound(c: Context, chain: seq<Link>)
    requires chain != []
  {
    var root := chain[|chain| - 1];
    && c.rootFor(ClaimOf(chain).resource) == Some(root.iss) && root.sub == Some(root.iss)
    && forall i :: 0 <= i < |chain| ==>
         && (chain[i].iss, chain[i]) in c.signed
         && (i + 1 < |chain| ==> chain[i].iss == chain[i + 1].aud)
         && chain[i].sub == root.sub
         && CommandCovers(chain[i].cmd, chain[0].cmd)
         && PolicyAllows(c.holds, chain[i].pol, ClaimOf(chain).resource)
  }

  lemma {:induction false} ChecksPassIff(c: Context, chain: seq<Link>, i: nat)
    requires i <= |chain|
    ensures CheckLinks(c, chain, i).None? <==> forall k :: i <= k < |chain| ==> CheckLink(c, chain, k).None?
    decreases |chain| - i
  {
    if i < |chain| {
      ChecksPassIff(c, chain, i + 1);
    }
  }

  // ---------------------------------------------------------------------
  // Which refusal is reported
  // ---------------------------------------------------------------------

  /** What is wrong with the chain when the refusal is `why`. */
  predicate IsWrong(c: Context, chain: seq<Link>, why: Refusal)
    requires chain != []
  {
    var root := chain[|chain| - 1];
    match why
    case Expired => PastExpiry(chain[0], c.now)
    case NotYetValid => BeforeStart(chain[0], c.now)
    case NoRootKnown => c.rootFor(ClaimOf(chain).resource).None?
    case WrongRoot => c.rootFor(ClaimOf(chain).resource) != Some(root.iss) || root.sub != Some(root.iss)
    case NotSigned(i) => i < |chain| && (chain[i].iss, chain[i]) !in c.signed
    case ChainBreak(i) => i + 1 < |chain| && chain[i].iss != chain[i + 1].aud
    case OtherSubject(i) => i < |chain| && chain[i].sub != root.sub
    case NotCarried(i) => i < |chain| && !(CommandCovers(chain[i].cmd, chain[0].cmd)
                                           && PolicyAllows(c.holds, chain[i].pol, ClaimOf(chain).resource))
    case LinkExpired(i) => i < |chain| && PastExpiry(chain[i], c.now)
    case LinkNotYetValid(i) => i < |chain| && BeforeStart(chain[i], c.now)
  }

  /** Where a check stands in the order: the four on the whole chain, then six for each link, leaf first. */
  function Place(why: Refusal): nat {
    match why
    case Expired => 0
    case NotYetValid => 1
    case NoRootKnown => 2
    case WrongRoot => 3
    case NotSigned(i) => 4 + 6 * i
    case ChainBreak(i) => 5 + 6 * i
    case OtherSubject(i) => 6 + 6 * i
    case NotCarried(i) => 7 + 6 * i
    case LinkExpired(i) => 8 + 6 * i
    case LinkNotYetValid(i) => 9 + 6 * i
  }

  ghost predicate FirstWrong(c: Context, chain: seq<Link>, why: Refusal)
    requires chain != []
  {
    IsWrong(c, chain, why) && forall other :: IsWrong(c, chain, other) ==> Place(why) <= Place(other)
  }

  lemma PlaceIsUnique(a: Refusal, b: Refusal)
    requires Place(a) == Place(b)
    ensures a == b
  {
  }

  /** The first link from `i` on that fails a check gives the first failing check of the links. */
  lemma {:induction false} FirstRefusal(c: Context, chain: seq<Link>, i: nat, other: Refusal)
    requires chain != [] && i <= |chain|
    ensures CheckLinks(c, chain, i).Some? ==>
              IsWrong(c, chain, CheckLinks(c, chain, i).value) && Place(CheckLinks(c, chain, i).value) >= 4 + 6 * i
    ensures IsWrong(c, chain, other) && Place(other) >= 4 + 6 * i ==>
              CheckLinks(c, chain, i).Some? && Place(CheckLinks(c, chain, i).value) <= Place(other)
    decreases |chain| - i
  {
    hide CommandCovers, PolicyAllows, ClaimOf;
    if i < |chain| {
      FirstRefusal(c, chain, i + 1, other);
    }
  }

  /** A chain is refused for a reason exactly if that is the first thing wrong with it, in the order of the checks. */
  lemma RefusedIff(c: Context, chain: seq<Link>, why: Refusal)
    requires chain != []
    ensures Validate(c, chain) == Refused(why) <==> FirstWrong(c, chain, why)
    ensures Validate(c, chain).Valid? <==> forall other :: !IsWrong(c, chain, other)
  {
    hide CommandCovers, PolicyAllows, ClaimOf, CheckLinks;
    forall other | IsWrong(c, chain, other)
      ensures Validate(c, chain).Refused? && Place(Validate(c, chain).why) <= Place(other)
    {
      FirstRefusal(c, chain, 0, other);
    }
    FirstRefusal(c, chain, 0, why);
    if Validate(c, chain).Refused? {
      var given := Validate(c, chain).why;
      assert IsWrong(c, chain, given);
      if FirstWrong(c, chain, why) {
        PlaceIsUnique(given, why);
      }
    }
  }

  /** For a sound chain the accepting times are exactly one half-open interval; for any other there are none. */
  lemma AcceptingTimes(c: Context, chain: seq<Link>, now: int)
    requires chain != []
    ensures Validate(c.(now := now), chain).Valid? <==> Sound(c, chain) && InWindow(chain, now)
  {
    var at := c.(now := now);
    WindowOfLinks(chain, now);
    ChecksPassIff(at, chain, 0);
    if Sound(c, chain) && InWindow(chain, now) {
      forall k | 0 <= k < |chain| ensures CheckLink(at, chain, k).None? {
      }
    }
    if Validate(at, chain).Valid? {
      forall i | 0 <= i < |chain|
        ensures
          && (chain[i].iss, chain[i]) in c.signed
          && (i + 1 < |chain| ==> chain[i].iss == chain[i + 1].aud)
          && chain[i].sub == chain[|chain| - 1].sub
          && CommandCovers(chain[i].cmd, chain[0].cmd)
          && PolicyAllows(c.holds, chain[i].pol, ClaimOf(chain).resource)
          && !PastExpiry(chain[i], now) && !BeforeStart(chain[i], now)
      {
        assert CheckLink(at, chain, i).None?;
      }
    }
  }

  /**
   Every command the leaf of a valid chain grants, every link of the chain
   grants, but for one case: an unrooted command under a leaf for "/" and a link
   for the empty command.
   */
  lemma ValidChainAttenuates(c: Context, chain: seq<Link>, i: nat, cmd: string)
    requires chain != [] && i < |chain| && Validate(c, chain).Valid?
    requires CommandCovers(chain[0].cmd, cmd)
    ensures CommandCovers(chain[i].cmd, cmd) <==>
              !(chain[i].cmd == "" && chain[0].cmd == "/" && cmd != "" && !Rooted(cmd))
  {
    AcceptingTimes(c, chain, c.now);
    assert c.(now := c.now) == c;
    TransitiveIff(chain[i].cmd, chain[0].cmd, cmd);
  }
}
