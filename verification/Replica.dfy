/**
 A cold replica of one log, as the transport form needs it: how long the signed
 log is, which blocks are held, and the effect of verifying one proof message.
 */
module Replicas {
  import opened Results
  import opened Sealing

  datatype Replica = Replica(length: nat, have: map<nat, Block>)

  const EMPTY: Replica := Replica(0, map[])

  /** The part of a proof that moves a reader of length `start` to length `end`. */
  datatype Upgrade = Upgrade(start: nat, end: nat)

  datatype Data = Data(index: nat, value: Block)

  datatype Message = Message(fork: nat, upgrade: Option<Upgrade>, block: Option<Data>)

  /** `verify` resolves with true, resolves with false (another fork), or throws. */
  datatype Outcome = Accepted(after: Replica) | Declined | Rejected

  const FORK: nat := 0

  /** The length after the upgrade, if the writer signed it for a reader of this length. */
  function UpgradedLength(log: seq<Block>, length: nat, upgrade: Option<Upgrade>): Option<nat> {
    match upgrade
    case None => Some(length)
    case Some(u) => if u.start == length && length < u.end <= |log| then Some(u.end) else None
  }

  /**
   `core.verify` against the log its writer has signed so far. Signatures and
   the hash tree are ideal: what passes is what the writer's log contains.
   */
  function Verify(log: seq<Block>, r: Replica, m: Message): Outcome {
    if m.fork != FORK then Declined
    else
      match UpgradedLength(log, r.length, m.upgrade)
      case None => Rejected
      case Some(length) =>
        match m.block
        case None => Accepted(r.(length := length))
        case Some(d) =>
          if d.index < length && d.index < |log| && log[d.index] == d.value then
            Accepted(Replica(length, r.have[d.index := d.value]))
          else Rejected
  }

  function After(r: Replica, o: Outcome): Replica {
    if o.Accepted? then o.after else r
  }

  /** The replica holds only blocks of this log, inside the length it has verified. */
  ghost predicate Genuine(log: seq<Block>, r: Replica) {
    && r.length <= |log|
    && forall i :: i in r.have ==> i < r.length && r.have[i] == log[i]
  }

  /** `b` is at least as long as `a` and still holds every block `a` held. */
  ghost predicate Extends(a: Replica, b: Replica) {
    && a.length <= b.length
    && forall i :: i in a.have ==> i in b.have && b.have[i] == a.have[i]
  }

  predicate HoldsBelow(r: Replica, n: nat) {
    forall i: nat :: i < n ==> i in r.have
  }

  lemma VerifyIsGenuine(log: seq<Block>, r: Replica, m: Message)
    requires Genuine(log, r)
    ensures Genuine(log, After(r, Verify(log, r, m)))
    ensures Extends(r, After(r, Verify(log, r, m)))
  {
  }

  /** What passed once passes for every longer log, with the same effect. */
  lemma VerifyIsStable(log: seq<Block>, longer: seq<Block>, r: Replica, m: Message)
    requires log <= longer && !Verify(log, r, m).Rejected?
    ensures Verify(longer, r, m) == Verify(log, r, m)
  {
  }

  /** Block-only messages that pass at one replica pass in either order, and end in one state. */
  lemma BlocksCommute(log: seq<Block>, r: Replica, a: Message, b: Message)
    requires a.upgrade.None? && b.upgrade.None?
    requires !Verify(log, r, a).Rejected? && !Verify(log, r, b).Rejected?
    ensures var ra, rb := After(r, Verify(log, r, a)), After(r, Verify(log, r, b));
            && !Verify(log, ra, b).Rejected? && !Verify(log, rb, a).Rejected?
            && After(ra, Verify(log, ra, b)) == After(rb, Verify(log, rb, a))
  {
  }

  // ---------------------------------------------------------------------
  // The contiguous prefix
  // ---------------------------------------------------------------------

  function ContiguousFrom(r: Replica, i: nat): (n: nat)
    ensures i <= n
    decreases r.length - i
  {
    if i < r.length && i in r.have then ContiguousFrom(r, i + 1) else i
  }

  function ContiguousLength(r: Replica): nat {
    ContiguousFrom(r, 0)
  }

  lemma {:induction false} ContiguousIsHeld(r: Replica, i: nat)
    requires i <= r.length && HoldsBelow(r, i)
    ensures ContiguousFrom(r, i) <= r.length && HoldsBelow(r, ContiguousFrom(r, i))
    ensures ContiguousFrom(r, i) < r.length ==> ContiguousFrom(r, i) !in r.have
    decreases r.length - i
  {
    if i < r.length && i in r.have {
      ContiguousIsHeld(r, i + 1);
    }
  }

  lemma HeldIsKnown(log: seq<Block>, r: Replica, n: nat)
    requires Genuine(log, r) && HoldsBelow(r, n)
    ensures n <= r.length
  {
    assert n == 0 || (n - 1) as nat in r.have;
  }

  lemma ContiguousCovers(r: Replica, n: nat)
    requires n <= r.length
    ensures n <= ContiguousLength(r) <==> HoldsBelow(r, n)
  {
    ContiguousIsHeld(r, 0);
  }
}
