/**
 Pledge sums, the two-thirds threshold and the intersection of two quorums.

 A pledge list is the ordered list of block approvers of an epoch.  Both epochs
 that a block must satisfy are treated alike: `Epoch` selects the column.
 */
module Pledges {

  type AccountId = string

  datatype Epoch = ThisEpoch | NextEpoch

  datatype ApprovalPledge = ApprovalPledge(account: AccountId, thisEpoch: nat, nextEpoch: nat)

  function Amount(p: ApprovalPledge, e: Epoch): nat {
    if e.ThisEpoch? then p.thisEpoch else p.nextEpoch
  }

  function Accounts(ps: seq<ApprovalPledge>): set<AccountId> {
    set i | 0 <= i < |ps| :: ps[i].account
  }

  ghost predicate Distinct(ps: seq<ApprovalPledge>) {
    forall i, j :: 0 <= i < j < |ps| ==> ps[i].account != ps[j].account
  }

  /** The pledge held by the accounts of `s`. */
  function Weight(ps: seq<ApprovalPledge>, s: set<AccountId>, e: Epoch): nat {
    if ps == [] then 0
    else (if ps[0].account in s then Amount(ps[0], e) else 0) + Weight(ps[1..], s, e)
  }

  function Total(ps: seq<ApprovalPledge>, e: Epoch): nat {
    if ps == [] then 0 else Amount(ps[0], e) + Total(ps[1..], e)
  }

  function Threshold(total: nat): nat {
    total * 2 / 3
  }

  /** Above the threshold means more than two thirds, although it is rounded down. */
  lemma ThresholdMeans(weight: nat, total: nat)
    ensures weight > Threshold(total) <==> 3 * weight > 2 * total
  {
  }

  lemma {:induction false} WeightOfAll(ps: seq<ApprovalPledge>, s: set<AccountId>, e: Epoch)
    requires Accounts(ps) <= s
    ensures Weight(ps, s, e) == Total(ps, e)
  {
    if ps != [] {
      assert ps[0].account in Accounts(ps);
      assert forall i :: 0 <= i < |ps[1..]| ==> ps[1..][i].account == ps[i + 1].account;
      WeightOfAll(ps[1..], s, e);
    }
  }

  /** Weight is a modular (additive) set function. */
  lemma {:induction false} WeightModular(ps: seq<ApprovalPledge>, s: set<AccountId>, t: set<AccountId>, e: Epoch)
    ensures Weight(ps, s + t, e) + Weight(ps, s * t, e) == Weight(ps, s, e) + Weight(ps, t, e)
  {
    if ps != [] {
      WeightModular(ps[1..], s, t, e);
    }
  }

  /** Only the members of `s` that are on the list count. */
  lemma {:induction false} WeightMonotone(ps: seq<ApprovalPledge>, s: set<AccountId>, t: set<AccountId>, e: Epoch)
    requires s * Accounts(ps) <= t
    ensures Weight(ps, s, e) <= Weight(ps, t, e)
  {
    if ps != [] {
      assert ps[0].account in Accounts(ps);
      assert Accounts(ps[1..]) <= Accounts(ps) by {
        assert forall i :: 0 <= i < |ps[1..]| ==> ps[1..][i] == ps[i + 1];
      }
      WeightMonotone(ps[1..], s, t, e);
    }
  }

  lemma WeightAtMostTotal(ps: seq<ApprovalPledge>, s: set<AccountId>, e: Epoch)
    ensures Weight(ps, s, e) <= Total(ps, e)
  {
    WeightMonotone(ps, s, Accounts(ps), e);
    WeightOfAll(ps, Accounts(ps), e);
  }

  lemma {:induction false} WeightOfAbsent(ps: seq<ApprovalPledge>, s: set<AccountId>, e: Epoch)
    requires s !! Accounts(ps)
    ensures Weight(ps, s, e) == 0
  {
    WeightMonotone(ps, s, {}, e);
    WeightOfNobody(ps, e);
  }

  lemma {:induction false} WeightOfNobody(ps: seq<ApprovalPledge>, e: Epoch)
    ensures Weight(ps, {}, e) == 0
  {
    if ps != [] {
      WeightOfNobody(ps[1..], e);
    }
  }

  lemma {:induction false} WeightOfOne(ps: seq<ApprovalPledge>, i: nat, e: Epoch)
    requires Distinct(ps) && i < |ps|
    ensures Weight(ps, {ps[i].account}, e) == Amount(ps[i], e)
  {
    if i == 0 {
      assert ps[0].account !in Accounts(ps[1..]);
      WeightOfAbsent(ps[1..], {ps[0].account}, e);
    } else {
      WeightOfOne(ps[1..], i - 1, e);
    }
  }

  /** Taking an account into a set adds exactly its pledge; leaving takes it away. */
  lemma WeightAdd(ps: seq<ApprovalPledge>, s: set<AccountId>, i: nat, e: Epoch)
    requires Distinct(ps) && i < |ps| && ps[i].account !in s
    ensures Weight(ps, s + {ps[i].account}, e) == Weight(ps, s, e) + Amount(ps[i], e)
  {
    WeightModular(ps, s, {ps[i].account}, e);
    assert s * {ps[i].account} == {};
    WeightOfNobody(ps, e);
    WeightOfOne(ps, i, e);
  }

  /** Two disjoint groups cannot both pass the threshold. */
  lemma DisjointQuorumsImpossible(ps: seq<ApprovalPledge>, s: set<AccountId>, t: set<AccountId>, e: Epoch)
    requires s !! t
    ensures !(Weight(ps, s, e) > Threshold(Total(ps, e)) && Weight(ps, t, e) > Threshold(Total(ps, e)))
  {
    WeightModular(ps, s, t, e);
    assert s * t == {};
    WeightOfNobody(ps, e);
    WeightAtMostTotal(ps, s + t, e);
  }

  /** Two groups above two thirds share a listed account outside any group of at most one third. */
  lemma QuorumsShareHonest(ps: seq<ApprovalPledge>, s: set<AccountId>, t: set<AccountId>, faulty: set<AccountId>, e: Epoch)
    returns (a: AccountId)
    requires Weight(ps, s, e) > Threshold(Total(ps, e))
    requires Weight(ps, t, e) > Threshold(Total(ps, e))
    requires 3 * Weight(ps, faulty, e) <= Total(ps, e)
    ensures a in s && a in t && a !in faulty && a in Accounts(ps)
  {
    WeightModular(ps, s, t, e);
    WeightAtMostTotal(ps, s + t, e);
    if (s * t) * Accounts(ps) <= faulty {
      WeightMonotone(ps, s * t, faulty, e);
      assert false;
    }
    a :| a in (s * t) * Accounts(ps) && a !in faulty;
  }
}
