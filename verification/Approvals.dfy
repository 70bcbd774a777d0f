/**
 Approvals, ideal signatures, and the check a block's approvals must pass.
 */
module Approvals {
  import opened Prelude
  import opened Pledges

  // Block hashes are opaque identifiers.
  type Hash = nat

  datatype ApprovalInner = Endorsement(hash: Hash) | Skip(parentHeight: nat)

  /** An ideal signature names the signer and the signed message. */
  datatype Signature = Signature(account: AccountId, inner: ApprovalInner, target: nat)

  datatype Approval = Approval(inner: ApprovalInner, target: nat, account: AccountId, signature: Signature)

  datatype ThresholdMode = NoApprovals | TwoThirds

  function InnerOf(parentHash: Hash, parentHeight: nat, target: nat): ApprovalInner {
    if target == parentHeight + 1 then Endorsement(parentHash) else Skip(parentHeight)
  }

  function NewApproval(parentHash: Hash, parentHeight: nat, target: nat, signer: AccountId): Approval {
    var inner := InnerOf(parentHash, parentHeight, target);
    Approval(inner, target, signer, Signature(signer, inner, target))
  }

  /** Whether each signature present is the approver's own, for this parent and this height. */
  predicate VerifyApproval(ps: seq<ApprovalPledge>, prevHash: Hash, prevHeight: nat, height: nat,
                           approvals: seq<Option<Signature>>)
  {
    && |approvals| <= |ps|
    && forall i :: 0 <= i < |approvals| && approvals[i].Some? ==>
         approvals[i].value == Signature(ps[i].account, InnerOf(prevHash, prevHeight, height), height)
  }

  /** Approvals may be missing, one by one or at the end of the list. */
  lemma VerifyFewer(ps: seq<ApprovalPledge>, prevHash: Hash, prevHeight: nat, height: nat, approvals: seq<Option<Signature>>,
                    fewer: seq<Option<Signature>>)
    requires VerifyApproval(ps, prevHash, prevHeight, height, approvals) && |fewer| <= |approvals|
    requires forall i :: 0 <= i < |fewer| ==> fewer[i] == None || fewer[i] == approvals[i]
    ensures VerifyApproval(ps, prevHash, prevHeight, height, fewer)
  {
  }

  /** The pledges of a block's approvers as the threshold check reads them. */
  datatype Slot = Slot(thisEpoch: nat, nextEpoch: nat, slashed: bool)

  function SlotAmount(s: Slot, e: Epoch): nat {
    if e.ThisEpoch? then s.thisEpoch else s.nextEpoch
  }

  function SlotTotal(slots: seq<Slot>, e: Epoch): nat {
    if slots == [] then 0 else SlotAmount(slots[0], e) + SlotTotal(slots[1..], e)
  }

  /** Zips the approvals with the pledges (the shorter one ends it) and sums the unslashed ones present. */
  function SlotApproved(approvals: seq<Option<Signature>>, slots: seq<Slot>, e: Epoch): nat {
    if approvals == [] || slots == [] then 0
    else
      (if approvals[0].Some? && !slots[0].slashed then SlotAmount(slots[0], e) else 0)
      + SlotApproved(approvals[1..], slots[1..], e)
  }

  predicate CanApprovedBlockBeProduced(mode: ThresholdMode, approvals: seq<Option<Signature>>, slots: seq<Slot>) {
    mode.NoApprovals? ||
    (var threshold1 := SlotTotal(slots, ThisEpoch) * 2 / 3;
     var threshold2 := SlotTotal(slots, NextEpoch) * 2 / 3;
     && (SlotApproved(approvals, slots, ThisEpoch) > threshold1 || threshold1 == 0)
     && (SlotApproved(approvals, slots, NextEpoch) > threshold2 || threshold2 == 0))
  }

  /** The approval of a slashed approver counts for nothing; that of another counts with its pledge. */
  lemma {:induction false} SlotCounts(approvals: seq<Option<Signature>>, slots: seq<Slot>, e: Epoch, i: nat)
    requires i < |approvals| && i < |slots|
    ensures SlotApproved(approvals, slots, e) ==
            SlotApproved(approvals[i := None], slots, e) +
            if approvals[i].Some? && !slots[i].slashed then SlotAmount(slots[i], e) else 0
  {
    if i > 0 {
      SlotCounts(approvals[1..], slots[1..], e, i - 1);
      assert approvals[i := None][1..] == approvals[1..][i - 1 := None];
    } else {
      assert approvals[0 := None][1..] == approvals[1..];
    }
  }

  function Slots(ps: seq<ApprovalPledge>): (r: seq<Slot>)
    ensures |r| == |ps|
    ensures forall i :: 0 <= i < |ps| ==> r[i] == Slot(ps[i].thisEpoch, ps[i].nextEpoch, false)
  {
    seq(|ps|, i requires 0 <= i < |ps| => Slot(ps[i].thisEpoch, ps[i].nextEpoch, false))
  }

  /** The accounts whose position in the list carries a signature. */
  function Signers(ps: seq<ApprovalPledge>, approvals: seq<Option<Signature>>): set<AccountId> {
    set i | 0 <= i < |ps| && i < |approvals| && approvals[i].Some? :: ps[i].account
  }

  lemma {:induction false} SlotTotalIsTotal(ps: seq<ApprovalPledge>, e: Epoch)
    ensures SlotTotal(Slots(ps), e) == Total(ps, e)
  {
    if ps != [] {
      assert Slots(ps)[1..] == Slots(ps[1..]);
      SlotTotalIsTotal(ps[1..], e);
    }
  }

  /** What the positional check adds up is the weight of the set of signers. */
  lemma {:induction false} SlotApprovedIsWeight(ps: seq<ApprovalPledge>, approvals: seq<Option<Signature>>, e: Epoch)
    requires Distinct(ps)
    ensures SlotApproved(approvals, Slots(ps), e) == Weight(ps, Signers(ps, approvals), e)
  {
    if ps == [] || approvals == [] {
      assert Signers(ps, approvals) == {};
      WeightOfNobody(ps, e);
    } else {
      var rest := Signers(ps[1..], approvals[1..]);
      assert Slots(ps)[1..] == Slots(ps[1..]);
      SlotApprovedIsWeight(ps[1..], approvals[1..], e);
      var all := Signers(ps, approvals);
      assert forall i :: 0 < i < |ps| ==> ps[i] == ps[1..][i - 1];
      assert forall i :: 0 < i < |approvals| ==> approvals[i] == approvals[1..][i - 1];
      assert ps[0].account in all <==> approvals[0].Some?;
      forall a | a in all && a != ps[0].account ensures a in rest {
        var i :| 0 <= i < |ps| && i < |approvals| && approvals[i].Some? && ps[i].account == a;
        assert ps[1..][i - 1].account == a && approvals[1..][i - 1].Some?;
      }
      forall a | a in rest ensures a in all {
        var i :| 0 <= i < |ps[1..]| && i < |approvals[1..]| && approvals[1..][i].Some? && ps[1..][i].account == a;
        assert ps[i + 1].account == a && approvals[i + 1].Some?;
      }
      assert ps[0].account !in Accounts(ps[1..]);
      WeightMonotone(ps[1..], all, rest, e);
      WeightMonotone(ps[1..], rest, all, e);
    }
  }

  /** The signers of one epoch's column suffice: above two thirds, or the threshold is zero. */
  predicate Enough(ps: seq<ApprovalPledge>, signers: set<AccountId>, e: Epoch) {
    Weight(ps, signers, e) > Threshold(Total(ps, e)) || Total(ps, e) <= 1
  }

  /** The positional check says exactly that the set of signers suffices in both epochs. */
  lemma ProducibleIffQuorum(ps: seq<ApprovalPledge>, approvals: seq<Option<Signature>>)
    requires Distinct(ps)
    ensures CanApprovedBlockBeProduced(TwoThirds, approvals, Slots(ps)) <==>
            Enough(ps, Signers(ps, approvals), ThisEpoch) && Enough(ps, Signers(ps, approvals), NextEpoch)
  {
    forall e: Epoch
      ensures SlotApproved(approvals, Slots(ps), e) == Weight(ps, Signers(ps, approvals), e)
      ensures SlotTotal(Slots(ps), e) == Total(ps, e)
    {
      SlotTotalIsTotal(ps, e);
      SlotApprovedIsWeight(ps, approvals, e);
    }
  }
}
