/**
 A Doomslug node: the timer, the approval trackers per target height, and the
 decision to produce a block.
 */
module Doomslug {
  import opened Prelude
  import opened Pledges
  import opened Approvals
  import opened Timer
  import opened Trackers

  const MAX_HEIGHTS_AHEAD_TO_STORE_APPROVALS: nat := 10_000
  const MAX_HEIGHTS_BEFORE_TO_STORE_APPROVALS: nat := 20

  function Sign(signer: Option<AccountId>, votes: seq<Vote>): seq<Approval> {
    if signer.None? then []
    else
      seq(|votes|, i requires 0 <= i < |votes| =>
        NewApproval(votes[i].hash, votes[i].parent, votes[i].target, signer.value))
  }

  lemma SignAppend(signer: Option<AccountId>, votes: seq<Vote>, more: seq<Vote>)
    ensures Sign(signer, votes + more) == Sign(signer, votes) + Sign(signer, more)
  {
  }

  ghost function Prepend(votes: seq<Vote>, r: (Node, seq<Vote>)): (Node, seq<Vote>) {
    (r.0, votes + r.1)
  }

  lemma PollUnroll(votes: seq<Vote>, s: Node, now: nat, iters: nat)
    requires iters > 0
    ensures var (s1, endorsed) := Endorse(s, now);
            Prepend(votes, Poll(s, now, iters)) ==
            if !SkipDue(s1, now) then (s1, votes + endorsed)
            else Prepend(votes + endorsed + [SkipOver(s1).1], Poll(SkipOver(s1).0, now, iters - 1))
  {
    var (s1, endorsed) := Endorse(s, now);
    if SkipDue(s1, now) {
      var skip, later := SkipOver(s1).1, Poll(SkipOver(s1).0, now, iters - 1).1;
      assert votes + (endorsed + [skip] + later) == votes + endorsed + [skip] + later;
    }
  }

  /** A block producer's approvals: the witness laid out along the pledge list. */
  function Layout(ps: seq<ApprovalPledge>, w: map<AccountId, Approval>): (r: seq<Option<Signature>>)
    ensures |r| == |ps|
  {
    seq(|ps|, i requires 0 <= i < |ps| =>
      if ps[i].account in w then Some(w[ps[i].account].signature) else None)
  }

  /** The caller hands over only approvals with valid signatures. */
  ghost predicate Authentic(a: Approval) {
    a.signature == Signature(a.account, a.inner, a.target)
  }

  lemma LayoutSigners(ps: seq<ApprovalPledge>, w: map<AccountId, Approval>)
    requires w.Keys <= Accounts(ps)
    ensures Signers(ps, Layout(ps, w)) == w.Keys
  {
    forall a | a in w.Keys ensures a in Signers(ps, Layout(ps, w)) {
      var i :| 0 <= i < |ps| && ps[i].account == a;
      assert Layout(ps, w)[i].Some?;
    }
  }

  /** Ready means producible: the witness of a quorum passes the check made of a block. */
  lemma QuorumIsProducible(ps: seq<ApprovalPledge>, w: map<AccountId, Approval>)
    requires Distinct(ps) && w.Keys <= Accounts(ps) && Quorum(ps, w.Keys)
    ensures CanApprovedBlockBeProduced(TwoThirds, Layout(ps, w), Slots(ps))
  {
    LayoutSigners(ps, w);
    ProducibleIffQuorum(ps, Layout(ps, w));
  }

  /** The other direction needs a pledge on the witness wherever a threshold rounds to zero; exactly then. */
  lemma ProducibleIsQuorumIff(ps: seq<ApprovalPledge>, w: map<AccountId, Approval>)
    requires Distinct(ps) && w.Keys <= Accounts(ps)
    requires CanApprovedBlockBeProduced(TwoThirds, Layout(ps, w), Slots(ps))
    ensures Quorum(ps, w.Keys) <==>
            && (Total(ps, ThisEpoch) >= 2 || Weight(ps, w.Keys, ThisEpoch) > 0)
            && (Total(ps, NextEpoch) != 1 || Weight(ps, w.Keys, NextEpoch) > 0)
  {
    LayoutSigners(ps, w);
    ProducibleIffQuorum(ps, Layout(ps, w));
  }

  /** With a total of one, a block with no approval at all passes the check, and is never ready. */
  lemma ProducibleButNotReady()
    ensures var ps := [ApprovalPledge("a", 1, 0)];
            CanApprovedBlockBeProduced(TwoThirds, Layout(ps, map[]), Slots(ps)) && !Quorum(ps, {})
  {
    var ps := [ApprovalPledge("a", 1, 0)];
    LayoutSigners(ps, map[]);
    ProducibleIffQuorum(ps, Layout(ps, map[]));
    assert Weight(ps, {}, ThisEpoch) == 0 by { WeightOfNobody(ps, ThisEpoch); }
    assert Total(ps[1..], ThisEpoch) == 0 && Total(ps[1..], NextEpoch) == 0;
  }

  /** A witness of authentic approvals for one candidate at one height verifies against that parent. */
  lemma LayoutVerifies(ps: seq<ApprovalPledge>, w: map<AccountId, Approval>, prevHash: Hash, prevHeight: nat, height: nat)
    requires forall a :: a in w ==>
               && Authentic(w[a]) && w[a].account == a
               && w[a].inner == InnerOf(prevHash, prevHeight, height) && w[a].target == height
    ensures VerifyApproval(ps, prevHash, prevHeight, height, Layout(ps, w))
  {
  }

  ghost predicate ForHeight(log: seq<Approval>, h: nat) {
    forall a :: a in log ==> a.target == h && Authentic(a)
  }

  /** The witness of a candidate holds listed accounts' own approvals of that candidate, and of nobody else. */
  lemma WitnessOfLog(ps: seq<ApprovalPledge>, log: seq<Approval>, inner: ApprovalInner, h: nat)
    requires ForHeight(log, h)
    ensures var w := WitnessOf(LastOf(ps, log), inner);
            && w.Keys <= Accounts(ps) && w.Keys == Backers(LastOf(ps, log), inner)
            && (forall a :: a in w ==> Authentic(w[a]) && w[a].account == a && w[a].inner == inner && w[a].target == h)
            && (Quorum(ps, w.Keys) ==> w != map[]) && (w != map[] <==> inner in Candidates(LastOf(ps, log)))
  {
    LastOfListed(ps, log);
    var last := LastOf(ps, log);
    var w := WitnessOf(last, inner);
    if w == map[] {
      assert w.Keys == {};
      WeightOfNobody(ps, ThisEpoch);
      assert forall a :: a in last ==> a !in w;
    } else {
      var a :| a in w;
      assert last[a].inner == inner;
    }
  }

  /** The heights worth tracking after a new tip at `height`. */
  function Retained<T>(tracking: map<nat, T>, height: nat): map<nat, T> {
    map h | h in tracking &&
            SaturatingSub(height, MAX_HEIGHTS_BEFORE_TO_STORE_APPROVALS) < h
            <= height + MAX_HEIGHTS_AHEAD_TO_STORE_APPROVALS :: tracking[h]
  }

  /** The approvals received, by target height: one group of trackers per height. */
  class ApprovalPool {
    var tracking: map<nat, TrackersAtHeight>
    const mode: ThresholdMode

    ghost function Trackers(): set<Tracker>
      reads this, tracking.Values
    {
      set h, t | h in tracking && t in tracking[h].Repr :: t
    }

    ghost predicate Separate()
      reads this, tracking.Values
    {
      forall h, k :: h in tracking && k in tracking && h != k ==>
        tracking[h] != tracking[k] && tracking[h].Repr !! tracking[k].Repr
    }

    /** At every tracked height the trackers are the function of the approvals received for that height. */
    ghost predicate Valid(ps: seq<ApprovalPledge>)
      reads this, tracking.Values, Trackers()
    {
      && Separate()
      && (forall h :: h in tracking ==> ValidAt(h, ps))
    }

    /** The group at one height: its approvals are for that height and its trackers the function of them. */
    ghost predicate ValidAt(h: nat, ps: seq<ApprovalPledge>)
      requires h in tracking
      reads this, tracking[h], tracking[h].Repr
    {
      ForHeight(ApprovalsIn(tracking[h].events), h) && tracking[h].Valid(ps, mode)
    }

    /** What happened at one height, with the times. */
    ghost function Events(h: nat): seq<Seen>
      reads this, tracking.Values
    {
      if h in tracking then tracking[h].events else []
    }

    /** One more event has been seen at height `target`, and nowhere else. */
    twostate predicate Recorded(target: nat, e: Seen)
      reads this, tracking.Values
    {
      forall h :: Events(h) == if h == target then old(Events(h)) + [e] else old(Events(h))
    }

    /** The candidate of this approval has its quorum. */
    ghost predicate Reached(approval: Approval, ps: seq<ApprovalPledge>)
      reads this, tracking.Values
    {
      && approval.account in Accounts(ps)
      && (mode.NoApprovals? || Quorum(ps, Backers(LastIn(ps, Events(approval.target)), approval.inner)))
    }

    constructor (mode: ThresholdMode)
      ensures tracking == map[] && this.mode == mode
    {
      tracking := map[];
      this.mode := mode;
    }

    method Retain(height: nat, ghost ps: seq<ApprovalPledge>)
      requires Valid(ps)
      modifies this
      ensures Valid(ps)
      ensures tracking == Retained(old(tracking), height)
      ensures forall h :: h in tracking <==>
                h in old(tracking) && (if height >= 20 then h > height - 20 else h > 0) && h <= height + 10_000
      ensures forall h :: h in tracking ==> Events(h) == old(Events(h))
    {
      tracking := Retained(tracking, height);
    }

    method Open(height: nat, ghost ps: seq<ApprovalPledge>)
      requires Distinct(ps) && Valid(ps) && height !in tracking
      modifies this
      ensures Valid(ps)
      ensures height in tracking && fresh(tracking[height]) && tracking == old(tracking)[height := tracking[height]]
      ensures Trackers() <= old(Trackers())
      ensures forall h :: Events(h) == old(Events(h))
    {
      var added := new TrackersAtHeight(ps, mode);
      Add(height, added, ps);
    }

    method Add(height: nat, added: TrackersAtHeight, ghost ps: seq<ApprovalPledge>)
      requires Valid(ps) && height !in tracking && added !in tracking.Values
      requires added.Valid(ps, mode) && added.Repr == {} && added.events == []
      modifies this
      ensures Valid(ps)
      ensures tracking == old(tracking)[height := added]
      ensures Trackers() <= old(Trackers())
      ensures forall h :: Events(h) == old(Events(h))
    {
      tracking := tracking[height := added];
      forall h | h in old(tracking) ensures ValidAt(h, ps) {
        assert old(ValidAt(h, ps));
      }
    }

    /** Only the group at `target` has changed, by one event. */
    twostate predicate OnlyAt(target: nat, e: Seen, ps: seq<ApprovalPledge>)
      requires target in old(tracking) && tracking == old(tracking)
      reads this, tracking.Values, Trackers()
    {
      && (forall h :: h in tracking && h != target ==>
           ValidAt(h, ps) && tracking[h].Repr == old(tracking[h].Repr) && tracking[h].events == old(tracking[h].events))
      && ValidAt(target, ps)
      && tracking[target].events == old(tracking[target].events) + [e]
      && fresh(tracking[target].Repr - old(tracking[target].Repr))
    }

    method RecordAt(now: nat, approval: Approval, ps: seq<ApprovalPledge>) returns (r: Readiness)
      requires Valid(ps) && Authentic(approval) && approval.target in tracking
      modifies tracking.Values, Trackers()
      ensures OnlyAt(approval.target, Arrived(now, approval), ps)
      ensures r.ReadySince? <==> Reached(approval, ps)
    {
      var at := tracking[approval.target];
      assert ValidAt(approval.target, ps);
      ApprovalsAppend(at.events, Arrived(now, approval));
      r := at.ProcessApproval(now, approval, ps, mode);
    }

    method Record(now: nat, approval: Approval, ps: seq<ApprovalPledge>) returns (r: Readiness)
      requires Valid(ps) && Authentic(approval) && approval.target in tracking
      modifies tracking.Values, Trackers()
      ensures Valid(ps)
      ensures Recorded(approval.target, Arrived(now, approval))
      ensures r.ReadySince? <==> Reached(approval, ps)
    {
      r := RecordAt(now, approval, ps);
    }

    /** Opens the height if it is new, and records the approval there. */
    method OnApproval(now: nat, approval: Approval, ps: seq<ApprovalPledge>) returns (r: Readiness)
      requires Distinct(ps) && Valid(ps) && Authentic(approval)
      modifies this, tracking.Values, Trackers()
      ensures Valid(ps)
      ensures Recorded(approval.target, Arrived(now, approval))
      ensures r.ReadySince? <==> Reached(approval, ps)
    {
      if approval.target !in tracking {
        Open(approval.target, ps);
      }
      r := Record(now, approval, ps);
    }

    /** The answer for a candidate, and since when it is ready. */
    method Readiness(now: nat, target: nat, inner: ApprovalInner, ghost ps: seq<ApprovalPledge>) returns (r: Readiness)
      requires Valid(ps)
      modifies tracking.Values, Trackers()
      ensures Valid(ps)
      ensures target in tracking ==> Recorded(target, Asked(now, inner))
      ensures target !in tracking ==> forall h :: Events(h) == old(Events(h))
      ensures Answers(ps, mode, Events(target), inner, r)
    {
      if target in tracking {
        r := Ask(now, target, inner, ps);
      } else {
        r := NotReady;
        NothingSeen(ps, mode, inner);
      }
    }

    method Ask(now: nat, target: nat, inner: ApprovalInner, ghost ps: seq<ApprovalPledge>) returns (r: Readiness)
      requires Valid(ps) && target in tracking
      modifies tracking.Values, Trackers()
      ensures Valid(ps)
      ensures Recorded(target, Asked(now, inner))
      ensures Answers(ps, mode, Events(target), inner, r)
    {
      r := AskAt(now, target, inner, ps);
    }

    method AskAt(now: nat, target: nat, inner: ApprovalInner, ghost ps: seq<ApprovalPledge>) returns (r: Readiness)
      requires Valid(ps) && target in tracking
      modifies tracking.Values, Trackers()
      ensures OnlyAt(target, Asked(now, inner), ps)
      ensures Answers(ps, mode, Events(target), inner, r)
    {
      var at := tracking[target];
      assert ValidAt(target, ps);
      ApprovalsAppend(at.events, Asked(now, inner));
      r := at.Readiness(now, inner, ps, mode);
    }

    method GetWitness(prevHash: Hash, parentHeight: nat, target: nat, ghost ps: seq<ApprovalPledge>)
      returns (w: map<AccountId, Approval>)
      requires Valid(ps)
      ensures w == WitnessOf(LastIn(ps, Events(target)), InnerOf(prevHash, parentHeight, target))
    {
      var inner := InnerOf(prevHash, parentHeight, target);
      if target in tracking && inner in tracking[target].trackers {
        w := tracking[target].trackers[inner].witnesses;
      } else {
        w := map[];
        ghost var last := LastIn(ps, Events(target));
        assert inner !in Candidates(last);
      }
    }
  }

  class Doomslug {
    const approvalTracking: ApprovalPool
    var largestTarget: nat
    var largestFinal: nat
    var largestThreshold: nat
    var largestApproval: nat
    var tipHash: Hash
    var tipHeight: nat
    var endorsementPending: bool
    var started: nat
    var lastEndorsementSent: nat
    var timerHeight: nat
    const delays: Delays
    const signer: Option<AccountId>

    ghost function View(): Node
      reads this
    {
      Node(delays, largestTarget, largestFinal, tipHash, tipHeight, endorsementPending, started, lastEndorsementSent,
           timerHeight)
    }

    constructor (largestTarget: nat, delays: Delays, signer: Option<AccountId>, mode: ThresholdMode, now: nat)
      ensures fresh(approvalTracking) && approvalTracking.tracking == map[] && approvalTracking.mode == mode
      ensures View() == New(largestTarget, delays, now) && largestThreshold == largestApproval == 0
      ensures this.largestTarget == largestTarget && largestFinal == tipHeight == timerHeight == 0 && !endorsementPending
      ensures started == lastEndorsementSent == now && this.delays == delays
      ensures this.signer == signer
    {
      approvalTracking := new ApprovalPool(mode);
      this.largestTarget := largestTarget;
      largestFinal, largestThreshold, largestApproval := 0, 0, 0;
      tipHash, tipHeight, endorsementPending := 0, 0, false;
      started, lastEndorsementSent, timerHeight := now, now, 0;
      this.delays, this.signer := delays, signer;
    }

    /** An approval of the tip, which passes the signature check of any block on the tip at that height. */
    method CreateApproval(target: nat) returns (r: seq<Approval>)
      ensures r == Sign(signer, [Vote(tipHash, tipHeight, target)])
      ensures |r| == if signer.Some? then 1 else 0
      ensures forall a :: a in r ==> Authentic(a) && Some(a.account) == signer && a.target == target
      ensures forall a, ps :: a in r ==> VerifyApproval(ps, tipHash, tipHeight, target, Layout(ps, map[a.account := a]))
    {
      if signer.Some? {
        r := [NewApproval(tipHash, tipHeight, target, signer.value)];
      } else {
        r := [];
      }
    }

    method ProcessTimer(now: nat) returns (ret: seq<Approval>)
      modifies this`largestTarget, this`endorsementPending, this`started, this`lastEndorsementSent, this`timerHeight
      ensures View() == Poll(old(View()), now, 20).0
      ensures ret == Sign(signer, Poll(old(View()), now, 20).1)
      ensures var votes := Poll(old(View()), now, 20).1;
              && |ret| == (if signer.Some? then |votes| else 0)
              && (forall i :: 0 <= i < |ret| ==>
                   ret[i] == NewApproval(votes[i].hash, votes[i].parent, votes[i].target, signer.value))
    {
      ret := TimerLoop(now, MAX_TIMER_ITERS);
    }

    method TimerLoop(now: nat, iters: nat) returns (ret: seq<Approval>)
      modifies this`largestTarget, this`endorsementPending, this`started, this`lastEndorsementSent, this`timerHeight
      ensures View() == Poll(old(View()), now, iters).0
      ensures ret == Sign(signer, Poll(old(View()), now, iters).1)
    {
      ret := [];
      ghost var s0 := View();
      ghost var votes: seq<Vote> := [];
      assert votes + Poll(s0, now, iters).1 == Poll(s0, now, iters).1;
      for i := 0 to iters
        invariant ret == Sign(signer, votes)
        invariant Poll(s0, now, iters) == Prepend(votes, Poll(View(), now, iters - i))
      {
        PollUnroll(votes, View(), now, iters - i);
        ghost var (s1, endorsed) := Endorse(View(), now);
        var skipDelay := GetDelay(delays, SaturatingSub(timerHeight, largestFinal));
        var approvals := EndorseTip(now);
        ret := ret + approvals;
        SignAppend(signer, votes, endorsed);
        votes := votes + endorsed;
        if now >= started + skipDelay {
          approvals := SkipTip();
          ret := ret + approvals;
          SignAppend(signer, votes, [SkipOver(s1).1]);
          votes := votes + [SkipOver(s1).1];
        } else {
          return;
        }
      }
      assert votes + [] == votes;
    }

    method SkipTip() returns (ret: seq<Approval>)
      modifies this`largestTarget, this`started, this`timerHeight
      ensures View() == SkipOver(old(View())).0
      ensures ret == Sign(signer, [SkipOver(old(View())).1])
    {
      var skipDelay := GetDelay(delays, SaturatingSub(timerHeight, largestFinal));
      largestTarget := Max(timerHeight + 1, largestTarget);
      ret := CreateApproval(timerHeight + 1);
      started := started + skipDelay;
      timerHeight := timerHeight + 1;
    }

    method EndorseTip(now: nat) returns (ret: seq<Approval>)
      modifies this`largestTarget, this`endorsementPending, this`lastEndorsementSent
      ensures View() == Endorse(old(View()), now).0
      ensures ret == Sign(signer, Endorse(old(View()), now).1)
    {
      ret := [];
      if endorsementPending && now >= lastEndorsementSent + delays.endorsement {
        if tipHeight >= largestTarget {
          largestTarget := tipHeight + 1;
          ret := CreateApproval(tipHeight + 1);
        }
        lastEndorsementSent := now;
        endorsementPending := false;
      }
    }

    method SetTip(now: nat, hash: Hash, height: nat, lastFinal: nat, ghost ps: seq<ApprovalPledge>)
      requires approvalTracking.Valid(ps)
      modifies this, approvalTracking
      ensures approvalTracking.Valid(ps)
      ensures View() == Timer.SetTip(old(View()), now, hash, height, lastFinal)
      ensures approvalTracking.tracking == Retained(old(approvalTracking.tracking), height)
      ensures forall h :: h in approvalTracking.tracking <==>
                && h in old(approvalTracking.tracking)
                && (if height >= 20 then h > height - 20 else h > 0) && h <= height + 10_000
      ensures largestThreshold == old(largestThreshold) && largestApproval == old(largestApproval)
    {
      RestartTimer(now, hash, height, lastFinal);
      approvalTracking.Retain(height, ps);
    }

    method RestartTimer(now: nat, hash: Hash, height: nat, lastFinal: nat)
      modifies this
      ensures View() == Timer.SetTip(old(View()), now, hash, height, lastFinal)
      ensures largestThreshold == old(largestThreshold) && largestApproval == old(largestApproval)
    {
      tipHash, tipHeight := hash, height;
      largestFinal := lastFinal;
      timerHeight := height + 1;
      started := now;
      endorsementPending := true;
    }

    predicate Near(target: nat)
      reads this
    {
      tipHeight <= target <= tipHeight + MAX_HEIGHTS_AHEAD_TO_STORE_APPROVALS
    }

    /** Approvals far from the tip are dropped. */
    method OnApprovalMessage(now: nat, approval: Approval, ps: seq<ApprovalPledge>)
      requires Distinct(ps) && approvalTracking.Valid(ps) && Authentic(approval)
      modifies this`largestApproval, this`largestThreshold
      modifies approvalTracking, approvalTracking.tracking.Values, approvalTracking.Trackers()
      ensures approvalTracking.Valid(ps)
      ensures if Near(approval.target) then approvalTracking.Recorded(approval.target, Arrived(now, approval))
              else forall h :: approvalTracking.Events(h) == old(approvalTracking.Events(h))
      ensures largestApproval == if Near(approval.target) then Max(old(largestApproval), approval.target) else old(largestApproval)
      ensures largestThreshold == if Near(approval.target) && approvalTracking.Reached(approval, ps)
                                  then Max(old(largestThreshold), approval.target) else old(largestThreshold)
    {
      if approval.target < tipHeight || approval.target > tipHeight + MAX_HEIGHTS_AHEAD_TO_STORE_APPROVALS {
        return;
      }
      Receive(now, approval, ps);
    }

    method Receive(now: nat, approval: Approval, ps: seq<ApprovalPledge>)
      requires Distinct(ps) && approvalTracking.Valid(ps) && Authentic(approval)
      modifies this`largestApproval, this`largestThreshold
      modifies approvalTracking, approvalTracking.tracking.Values, approvalTracking.Trackers()
      ensures approvalTracking.Valid(ps)
      ensures approvalTracking.Recorded(approval.target, Arrived(now, approval))
      ensures largestApproval == Max(old(largestApproval), approval.target)
      ensures largestThreshold == if approvalTracking.Reached(approval, ps)
                                  then Max(old(largestThreshold), approval.target) else old(largestThreshold)
    {
      var r := approvalTracking.OnApproval(now, approval, ps);
      UpdateLargest(approval.target, r != NotReady, ps);
    }

    method UpdateLargest(target: nat, ready: bool, ghost ps: seq<ApprovalPledge>)
      requires approvalTracking.Valid(ps)
      modifies this`largestApproval, this`largestThreshold
      ensures approvalTracking.Valid(ps) && forall h :: approvalTracking.Events(h) == old(approvalTracking.Events(h))
      ensures largestApproval == Max(old(largestApproval), target)
      ensures largestThreshold == if ready then Max(old(largestThreshold), target) else old(largestThreshold)
    {
      largestApproval := Max(largestApproval, target);
      if ready {
        largestThreshold := Max(largestThreshold, target);
      }
    }

    /** Whether a block on the current tip can be produced at `target`: there is a quorum, and enough chunks or enough
        waiting since it was first seen.  Then the witness for the tip, laid out along the pledge list, passes both checks
        made of the block. */
    method ReadyToProduceBlock(now: nat, target: nat, hasEnoughChunks: bool, ghost ps: seq<ApprovalPledge>)
      returns (ready: bool)
      requires approvalTracking.Valid(ps) && Distinct(ps)
      modifies approvalTracking.tracking.Values, approvalTracking.Trackers()
      ensures approvalTracking.Valid(ps)
      ensures var inner, events := InnerOf(tipHash, tipHeight, target), approvalTracking.Events(target);
              var w, since := WitnessOf(LastIn(ps, events), inner), SinceOf(ps, approvalTracking.mode, events, inner);
              && events == old(approvalTracking.Events(target)) +
                           (if target in approvalTracking.tracking then [Asked(now, inner)] else [])
              && (ready <==>
                   && w != map[] && (approvalTracking.mode.NoApprovals? || Quorum(ps, w.Keys))
                   && (hasEnoughChunks || (since.Some? && now > since.value + SkipDelay(View()) / 6)))
              && (ready ==>
                   && CanApprovedBlockBeProduced(approvalTracking.mode, Layout(ps, w), Slots(ps))
                   && VerifyApproval(ps, tipHash, tipHeight, target, Layout(ps, w)))
    {
      var inner := InnerOf(tipHash, tipHeight, target);
      var r := approvalTracking.Readiness(now, target, inner, ps);
      ghost var log := ApprovalsIn(approvalTracking.Events(target));
      WitnessOfLog(ps, log, inner, target);
      match r
      case NotReady =>
        ready := false;
      case ReadySince(when) =>
        if hasEnoughChunks {
          ready := true;
        } else {
          ready := now > when + GetDelay(delays, SaturatingSub(timerHeight, largestFinal)) / 6;
        }
      ghost var w := WitnessOf(LastOf(ps, log), inner);
      if Quorum(ps, w.Keys) {
        QuorumIsProducible(ps, w);
      }
      LayoutVerifies(ps, w, tipHash, tipHeight, target);
    }
  }
}
