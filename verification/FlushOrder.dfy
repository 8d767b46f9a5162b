/**
 Replaying the proofs a replica took in some other order than it took them in.
 The replay skips none of them exactly when no proof comes before an upgrade it
 needs, and then it ends where the replica ended.
 */
module FlushOrder {
  import opened Results
  import opened Sealing
  import opened Replicas
  import opened Transport

  predicate Moves(m: Message) {
    m.fork == FORK && m.upgrade.Some?
  }

  predicate Carries(m: Message, index: nat) {
    m.fork == FORK && m.block.Some? && m.block.value.index == index
  }

  /**
   `m` cannot pass before the upgrade `u` has: `u` starts below where `m`'s own
   upgrade starts, or `m` carries a block and no upgrade, and `u` starts at or
   below that block.
   */
  predicate Needs(m: Message, u: Message) {
    && m.fork == FORK && Moves(u)
    && match m.upgrade
       case Some(own) => u.upgrade.value.start < own.start
       case None => m.block.Some? && u.upgrade.value.start <= m.block.value.index
  }

  /** No proof comes before an upgrade it needs. */
  predicate NeedsMet(ms: seq<Message>) {
    forall j, k :: 0 <= j < k < |ms| ==> !Needs(ms[j], ms[k])
  }

  function EncodeAll(ms: seq<Message>): (bodies: seq<FileBody>)
    ensures |bodies| == |ms|
    ensures forall k :: 0 <= k < |ms| ==> bodies[k] == Encoded(ms[k])
  {
    seq(|ms|, k requires 0 <= k < |ms| => Encoded(ms[k]))
  }

  /** The replica after the proofs, some of which may have been skipped. */
  function Played(log: seq<Block>, r: Replica, ms: seq<Message>): Replica {
    Replay(log, r, EncodeAll(ms)).replica
  }

  ghost predicate Clean(log: seq<Block>, r: Replica, ms: seq<Message>) {
    Replay(log, r, EncodeAll(ms)).skipped == 0
  }

  // ---------------------------------------------------------------------
  // What a replay that skips nothing looks like
  // ---------------------------------------------------------------------

  lemma OneMore(log: seq<Block>, r: Replica, ms: seq<Message>)
    requires ms != []
    ensures var n := |ms| - 1;
            var before := Played(log, r, ms[..n]);
            && Played(log, r, ms) == After(before, Verify(log, before, ms[n]))
            && (Clean(log, r, ms) <==> Clean(log, r, ms[..n]) && !Verify(log, before, ms[n]).Rejected?)
  {
    var n := |ms| - 1;
    assert EncodeAll(ms)[..n] == EncodeAll(ms[..n]);
  }

  lemma {:induction false} CleanPrefix(log: seq<Block>, r: Replica, ms: seq<Message>, k: nat)
    requires Clean(log, r, ms) && k <= |ms|
    ensures Clean(log, r, ms[..k])
    ensures k < |ms| ==> !Verify(log, Played(log, r, ms[..k]), ms[k]).Rejected?
    decreases |ms| - k
  {
    if k < |ms| {
      CleanPrefix(log, r, ms, k + 1);
      assert ms[..k + 1][..k] == ms[..k];
      OneMore(log, r, ms[..k + 1]);
    } else {
      assert ms[..k] == ms;
    }
  }

  ghost predicate LengthIs(r: Replica, ms: seq<Message>, length: nat) {
    && r.length <= length
    && (length == r.length || exists k :: 0 <= k < |ms| && Moves(ms[k]) && ms[k].upgrade.value.end == length)
    && (forall k :: 0 <= k < |ms| && Moves(ms[k]) ==> r.length <= ms[k].upgrade.value.start < ms[k].upgrade.value.end <= length)
  }

  /** The length is the furthest end of an upgrade, and the blocks are the old ones and those carried. */
  lemma {:induction false} CleanLength(log: seq<Block>, r: Replica, ms: seq<Message>)
    requires Clean(log, r, ms)
    ensures LengthIs(r, ms, Played(log, r, ms).length)
  {
    hide Replay, EncodeAll;
    if ms == [] {
      NothingPlayed(log, r);
    } else {
      var n := |ms| - 1;
      OneMore(log, r, ms);
      CleanLength(log, r, ms[..n]);
      assert forall k :: 0 <= k < n ==> ms[..n][k] == ms[k];
      assert Moves(ms[n]) ==> ms[n].upgrade.value.end == Played(log, r, ms).length;
    }
  }

  lemma NothingPlayed(log: seq<Block>, r: Replica)
    ensures Played(log, r, []) == r && Clean(log, r, [])
  {
    assert EncodeAll([]) == [];
  }

  ghost predicate HeldAre(r: Replica, ms: seq<Message>, have: map<nat, Block>) {
    forall i: nat :: i in have <==> i in r.have || exists k :: 0 <= k < |ms| && Carries(ms[k], i)
  }

  lemma {:induction false} CleanHeld(log: seq<Block>, r: Replica, ms: seq<Message>)
    requires Clean(log, r, ms)
    ensures HeldAre(r, ms, Played(log, r, ms).have)
  {
    hide Replay, EncodeAll;
    if ms == [] {
      NothingPlayed(log, r);
    } else {
      var n := |ms| - 1;
      OneMore(log, r, ms);
      CleanHeld(log, r, ms[..n]);
      var before, after := Played(log, r, ms[..n]), Played(log, r, ms);
      forall i: nat ensures i in after.have <==> i in r.have || exists k :: 0 <= k < |ms| && Carries(ms[k], i) {
        assert i in after.have <==> i in before.have || Carries(ms[n], i);
        if k :| 0 <= k < n && Carries(ms[..n][k], i) {
          assert Carries(ms[k], i);
        }
        if k :| 0 <= k < |ms| && Carries(ms[k], i) {
          assert k < n ==> Carries(ms[..n][k], i);
        }
      }
    }
  }

  /** Every index between the two lengths is covered by an upgrade. */
  lemma {:induction false} CoveredBy(log: seq<Block>, r: Replica, ms: seq<Message>, index: nat) returns (k: nat)
    requires Clean(log, r, ms) && r.length <= index < Played(log, r, ms).length
    ensures k < |ms| && Moves(ms[k]) && ms[k].upgrade.value.start <= index < ms[k].upgrade.value.end
  {
    hide Replay, EncodeAll;
    NothingPlayed(log, r);
    var n := |ms| - 1;
    OneMore(log, r, ms);
    if index < Played(log, r, ms[..n]).length {
      k := CoveredBy(log, r, ms[..n], index);
    } else {
      k := n;
    }
  }

  lemma {:induction false} LengthGrows(log: seq<Block>, r: Replica, ms: seq<Message>, j: nat, k: nat)
    requires Clean(log, r, ms) && j <= k <= |ms|
    ensures Played(log, r, ms[..j]).length <= Played(log, r, ms[..k]).length
    decreases k
  {
    hide Replay, EncodeAll;
    if j < k {
      LengthGrows(log, r, ms, j, k - 1);
      assert ms[..k][..k - 1] == ms[..k - 1];
      OneMore(log, r, ms[..k]);
    }
  }

  /** One direction, for any sequence of proofs: a replay that skips nothing meets every need. */
  lemma CleanMeetsNeeds(log: seq<Block>, r: Replica, ms: seq<Message>)
    requires Clean(log, r, ms)
    ensures NeedsMet(ms)
  {
    hide Replay, EncodeAll, Clean;
    forall j, k | 0 <= j < k < |ms| ensures !Needs(ms[j], ms[k]) {
      CleanPrefix(log, r, ms, j);
      CleanPrefix(log, r, ms, j + 1);
      CleanPrefix(log, r, ms, k);
      assert ms[..j + 1][..j] == ms[..j];
      OneMore(log, r, ms[..j + 1]);
      LengthGrows(log, r, ms, j + 1, k);
    }
  }

  // ---------------------------------------------------------------------
  // The same proofs in another order
  // ---------------------------------------------------------------------

  predicate IsPermutation(order: seq<nat>, n: nat) {
    && (forall j :: 0 <= j < |order| ==> order[j] < n)
    && (forall j, k :: 0 <= j < k < |order| ==> order[j] != order[k])
    && (forall i :: 0 <= i < n ==> i in order)
  }

  lemma {:induction false} PermutationLength(order: seq<nat>, n: nat)
    requires IsPermutation(order, n)
    ensures |order| == n
  {
    if n > 0 {
      assert n - 1 in order;
      var j :| 0 <= j < |order| && order[j] == n - 1;
      var rest := order[..j] + order[j + 1..];
      forall i | 0 <= i < n - 1 ensures i in rest {
        assert i in order;
        var k :| 0 <= k < |order| && order[k] == i;
        assert rest[if k < j then k else k - 1] == i;
      }
      PermutationLength(rest, n - 1);
    }
  }

  function Permuted(ms: seq<Message>, order: seq<nat>): (p: seq<Message>)
    requires forall j :: 0 <= j < |order| ==> order[j] < |ms|
    ensures |p| == |order|
    ensures forall j :: 0 <= j < |order| ==> p[j] == ms[order[j]]
  {
    seq(|order|, j requires 0 <= j < |order| => ms[order[j]])
  }

  /** An upgrade taken before `ms[order[j]]`, and needed by it, comes before it in the other order too. */
  lemma NeededComesFirst(ms: seq<Message>, order: seq<nat>, j: nat, b: nat) returns (k: nat)
    requires IsPermutation(order, |ms|) && NeedsMet(Permuted(ms, order))
    requires j < |order| && b < |ms| && b != order[j] && Needs(ms[order[j]], ms[b])
    ensures k < j && order[k] == b
  {
    assert b in order;
    k :| 0 <= k < |order| && order[k] == b;
    var p := Permuted(ms, order);
    assert p[j] == ms[order[j]] && p[k] == ms[b];
  }

  ghost predicate UpgradesIn(a: seq<Message>, b: seq<Message>) {
    forall i :: 0 <= i < |a| && Moves(a[i]) ==> a[i] in b
  }

  lemma SameUpgradesSameLength(r: Replica, a: seq<Message>, b: seq<Message>, m: nat, n: nat)
    requires UpgradesIn(a, b) && UpgradesIn(b, a) && LengthIs(r, a, m) && LengthIs(r, b, n)
    ensures m == n
  {
  }

  /** The upgrades taken before an upgrade come before it in the other order, and no others do. */
  lemma SameUpgradesBefore(log: seq<Block>, r: Replica, ms: seq<Message>, order: seq<nat>, j: nat)
    requires Clean(log, r, ms) && IsPermutation(order, |ms|) && NeedsMet(Permuted(ms, order))
    requires j < |order| && Moves(ms[order[j]])
    ensures UpgradesIn(ms[..order[j]], Permuted(ms, order)[..j])
    ensures UpgradesIn(Permuted(ms, order)[..j], ms[..order[j]])
  {
    hide Replay, EncodeAll, Clean, Needs;
    var p, a := Permuted(ms, order), order[j];
    forall b | 0 <= b < a && Moves(ms[b]) ensures ms[b] in p[..j] {
      EarlierIsNeeded(log, r, ms, b, a);
      var k := NeededComesFirst(ms, order, j, b);
      assert p[..j][k] == ms[b];
    }
    forall k | 0 <= k < j && Moves(p[k]) ensures p[k] in ms[..a] {
      if order[k] > a {
        LaterNeedsEarlier(log, r, ms, order, j, k);
      }
      assert ms[..a][order[k]] == p[k];
    }
  }

  lemma EarlierIsNeeded(log: seq<Block>, r: Replica, ms: seq<Message>, b: nat, a: nat)
    requires Clean(log, r, ms) && b < a < |ms| && Moves(ms[b]) && Moves(ms[a])
    ensures Needs(ms[a], ms[b])
  {
    hide Clean;
    LaterStartsLater(log, r, ms, b, a);
  }

  /** An upgrade finds the same length in both orders. */
  lemma UpgradeFindsItsStart(log: seq<Block>, r: Replica, ms: seq<Message>, order: seq<nat>, j: nat)
    requires Clean(log, r, ms) && IsPermutation(order, |ms|) && NeedsMet(Permuted(ms, order))
    requires j < |order| && Clean(log, r, Permuted(ms, order)[..j]) && Moves(ms[order[j]])
    ensures Played(log, r, Permuted(ms, order)[..j]).length == ms[order[j]].upgrade.value.start
  {
    hide Replay, EncodeAll, Clean, NeedsMet, LengthIs, UpgradesIn, Permuted;
    var p, a := Permuted(ms, order), order[j];
    CleanPrefix(log, r, ms, a);
    CleanLength(log, r, ms[..a]);
    CleanLength(log, r, p[..j]);
    SameUpgradesBefore(log, r, ms, order, j);
    SameUpgradesSameLength(r, ms[..a], p[..j], Played(log, r, ms[..a]).length, Played(log, r, p[..j]).length);
  }

  lemma LaterStartsLater(log: seq<Block>, r: Replica, ms: seq<Message>, a: nat, c: nat)
    requires Clean(log, r, ms) && a < c < |ms| && Moves(ms[a]) && Moves(ms[c])
    ensures ms[a].upgrade.value.start < ms[c].upgrade.value.start
  {
    hide Replay, EncodeAll, Clean;
    CleanPrefix(log, r, ms, a);
    CleanPrefix(log, r, ms, a + 1);
    CleanPrefix(log, r, ms, c);
    assert ms[..a + 1][..a] == ms[..a];
    OneMore(log, r, ms[..a + 1]);
    LengthGrows(log, r, ms, a + 1, c);
  }

  lemma LaterNeedsEarlier(log: seq<Block>, r: Replica, ms: seq<Message>, order: seq<nat>, j: nat, k: nat)
    requires Clean(log, r, ms) && IsPermutation(order, |ms|) && j < |order| && k < |order| && order[j] < order[k]
    requires Moves(ms[order[j]]) && Moves(ms[order[k]])
    ensures Needs(Permuted(ms, order)[k], Permuted(ms, order)[j])
  {
    hide Clean;
    LaterStartsLater(log, r, ms, order[j], order[k]);
  }

  /** A block finds a replica long enough for it. */
  lemma BlockFindsItsPlace(log: seq<Block>, r: Replica, ms: seq<Message>, order: seq<nat>, j: nat)
    requires Clean(log, r, ms) && IsPermutation(order, |ms|) && NeedsMet(Permuted(ms, order))
    requires j < |order| && Clean(log, r, Permuted(ms, order)[..j])
    requires var m := ms[order[j]]; m.fork == FORK && m.upgrade.None? && m.block.Some?
    ensures ms[order[j]].block.value.index < Played(log, r, Permuted(ms, order)[..j]).length
  {
    hide Replay, EncodeAll, Clean;
    var p, a := Permuted(ms, order), order[j];
    var index := ms[a].block.value.index;
    CleanPrefix(log, r, ms, a);
    CleanLength(log, r, p[..j]);
    if r.length <= index {
      var b := CoveredBy(log, r, ms[..a], index);
      assert ms[..a][b] == ms[b];
      var k := NeededComesFirst(ms, order, j, b);
      assert p[..j][k] == ms[b];
    }
  }

  lemma {:induction false} NeedsMetIsClean(log: seq<Block>, r: Replica, ms: seq<Message>, order: seq<nat>, j: nat)
    requires Clean(log, r, ms) && IsPermutation(order, |ms|) && NeedsMet(Permuted(ms, order))
    requires j <= |order|
    ensures Clean(log, r, Permuted(ms, order)[..j])
    decreases j
  {
    hide Replay, EncodeAll, Clean, NeedsMet;
    var p := Permuted(ms, order);
    if j == 0 {
      NothingPlayed(log, r);
      assert p[..0] == [];
    } else {
      NeedsMetIsClean(log, r, ms, order, j - 1);
      var m, a := p[j - 1], order[j - 1];
      CleanPrefix(log, r, ms, a);
      assert p[..j][..j - 1] == p[..j - 1];
      OneMore(log, r, p[..j]);
      if Moves(m) {
        UpgradeFindsItsStart(log, r, ms, order, j - 1);
      } else if m.fork == FORK && m.block.Some? {
        BlockFindsItsPlace(log, r, ms, order, j - 1);
      }
    }
  }

  /** Two clean replays of the same proofs end in the same replica. */
  lemma SameProofsSameReplica(log: seq<Block>, r: Replica, ms: seq<Message>, order: seq<nat>)
    requires Genuine(log, r) && IsPermutation(order, |ms|)
    requires Clean(log, r, ms) && Clean(log, r, Permuted(ms, order))
    ensures Played(log, r, Permuted(ms, order)) == Played(log, r, ms)
  {
    hide Replay, EncodeAll, Clean, Genuine, HeldAre, LengthIs, AllIn, UpgradesIn, Played;
    var p := Permuted(ms, order);
    var a, b := Played(log, r, ms), Played(log, r, p);
    PlayedIsGenuine(log, r, ms);
    PlayedIsGenuine(log, r, p);
    CleanLength(log, r, ms);
    CleanLength(log, r, p);
    CleanHeld(log, r, ms);
    CleanHeld(log, r, p);
    SameMembers(ms, order);
    AllInUpgradesIn(ms, p);
    AllInUpgradesIn(p, ms);
    SameUpgradesSameLength(r, ms, p, a.length, b.length);
    SameHeld(log, r, ms, p, a, b);
  }

  lemma PlayedIsGenuine(log: seq<Block>, r: Replica, ms: seq<Message>)
    requires Genuine(log, r)
    ensures Genuine(log, Played(log, r, ms))
  {
    hide Replay, Genuine;
    ReplayIsSafe(log, r, EncodeAll(ms));
  }

  ghost predicate AllIn(a: seq<Message>, b: seq<Message>) {
    forall i :: 0 <= i < |a| ==> a[i] in b
  }

  lemma AllInUpgradesIn(a: seq<Message>, b: seq<Message>)
    requires AllIn(a, b)
    ensures UpgradesIn(a, b)
  {
  }

  lemma SameMembers(ms: seq<Message>, order: seq<nat>)
    requires IsPermutation(order, |ms|)
    ensures AllIn(ms, Permuted(ms, order)) && AllIn(Permuted(ms, order), ms)
  {
    var p := Permuted(ms, order);
    forall i | 0 <= i < |ms| ensures ms[i] in p {
      assert i in order;
      var j :| 0 <= j < |order| && order[j] == i;
      assert p[j] == ms[i];
    }
  }

  lemma SameHeld(log: seq<Block>, r: Replica, ms: seq<Message>, p: seq<Message>, a: Replica, b: Replica)
    requires AllIn(ms, p) && AllIn(p, ms) && a.length == b.length
    requires HeldAre(r, ms, a.have) && HeldAre(r, p, b.have) && Genuine(log, a) && Genuine(log, b)
    ensures a == b
  {
    forall i: nat ensures i in a.have <==> i in b.have {
      if k :| 0 <= k < |ms| && Carries(ms[k], i) {
        assert ms[k] in p;
      }
      if k :| 0 <= k < |p| && Carries(p[k], i) {
        assert p[k] in ms;
      }
    }
    assert a.have.Keys == b.have.Keys;
    assert a.have == b.have;
  }

  /**
   Proofs a replica took one after another, replayed in any other order: all
   pass and the result is the same exactly when every need is met.
   */
  lemma ReorderedReplayIff(log: seq<Block>, r: Replica, ms: seq<Message>, order: seq<nat>)
    requires Genuine(log, r) && Clean(log, r, ms) && IsPermutation(order, |ms|)
    ensures Clean(log, r, Permuted(ms, order)) && Played(log, r, Permuted(ms, order)) == Played(log, r, ms)
       <==> NeedsMet(Permuted(ms, order))
    ensures Clean(log, r, Permuted(ms, order)) <==> NeedsMet(Permuted(ms, order))
  {
    hide Replay, EncodeAll, Clean, NeedsMet;
    var p := Permuted(ms, order);
    if Clean(log, r, p) {
      CleanMeetsNeeds(log, r, p);
      SameProofsSameReplica(log, r, ms, order);
    }
    if NeedsMet(p) {
      NeedsMetIsClean(log, r, ms, order, |order|);
      assert p[..|order|] == p;
      SameProofsSameReplica(log, r, ms, order);
    }
  }
}
