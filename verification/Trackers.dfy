/**
 Approval trackers: which accounts back which candidate at one target height.

 The trackers are maps and counters updated in place.  What they must equal is a
 function of each listed account's last approval, `LastOf`.
 */
module Trackers {
  import opened Prelude
  import opened Pledges
  import opened Approvals

  datatype Readiness = NotReady | ReadySince(when: nat)

  /** Each listed account's last approval, after the approvals of `log` in order. */
  function LastOf(ps: seq<ApprovalPledge>, log: seq<Approval>): map<AccountId, Approval> {
    if log == [] then map[]
    else
      var n := |log| - 1;
      var before := LastOf(ps, log[..n]);
      if log[n].account in Accounts(ps) then before[log[n].account := log[n]] else before
  }

  /** The account's earlier approval is replaced; an unlisted account changes nothing. */
  function Updated(ps: seq<ApprovalPledge>, last: map<AccountId, Approval>, approval: Approval): map<AccountId, Approval> {
    if approval.account in Accounts(ps) then (last - {approval.account})[approval.account := approval] else last
  }

  /** The candidates by account are those of the approvals in `last`. */
  ghost predicate Indexes(inners: map<AccountId, ApprovalInner>, last: map<AccountId, Approval>) {
    inners.Keys == last.Keys && forall a :: a in inners ==> inners[a] == last[a].inner
  }

  lemma IndexesUpdated(inners: map<AccountId, ApprovalInner>, last: map<AccountId, Approval>, approval: Approval)
    requires Indexes(inners, last)
    ensures Indexes(inners[approval.account := approval.inner], (last - {approval.account})[approval.account := approval])
  {
  }

  function Backers(last: map<AccountId, Approval>, inner: ApprovalInner): set<AccountId> {
    set a | a in last && last[a].inner == inner
  }

  /** The approvals that name `inner`: the witness of that candidate. */
  function WitnessOf(last: map<AccountId, Approval>, inner: ApprovalInner): map<AccountId, Approval> {
    map a | a in last && last[a].inner == inner :: last[a]
  }

  function Candidates(last: map<AccountId, Approval>): set<ApprovalInner> {
    set a | a in last :: last[a].inner
  }

  /** Two thirds of this epoch, and of the next one unless it has no pledge. */
  predicate Quorum(ps: seq<ApprovalPledge>, backers: set<AccountId>) {
    && Weight(ps, backers, ThisEpoch) > Threshold(Total(ps, ThisEpoch))
    && (|| Weight(ps, backers, NextEpoch) > Threshold(Total(ps, NextEpoch))
        || Total(ps, NextEpoch) == 0)
  }

  // ---------------------------------------------------------------------------
  // Since when a candidate is ready
  // ---------------------------------------------------------------------------

  /** What happens at one height: an approval arrives, or the readiness of a candidate is asked for. */
  datatype Seen = Arrived(now: nat, approval: Approval) | Asked(now: nat, inner: ApprovalInner)

  function ApprovalsIn(events: seq<Seen>): seq<Approval> {
    if events == [] then []
    else
      var n := |events| - 1;
      ApprovalsIn(events[..n]) + (if events[n].Arrived? then [events[n].approval] else [])
  }

  function LastIn(ps: seq<ApprovalPledge>, events: seq<Seen>): map<AccountId, Approval> {
    LastOf(ps, ApprovalsIn(events))
  }

  /** The candidate keeps its tracker through the event: somebody else backs it too. */
  predicate Survives(ps: seq<ApprovalPledge>, before: seq<Seen>, e: Seen, x: ApprovalInner) {
    e.Arrived? ==> x in Candidates(LastIn(ps, before) - {e.approval.account})
  }

  /** The event looks whether the candidate is ready, and it is. */
  predicate FoundReady(ps: seq<ApprovalPledge>, mode: ThresholdMode, before: seq<Seen>, e: Seen, x: ApprovalInner) {
    var last := LastIn(ps, before + [e]);
    && (if e.Arrived? then e.approval.inner == x && e.approval.account in Accounts(ps)
        else e.inner == x && x in Candidates(last))
    && (mode.NoApprovals? || Quorum(ps, Backers(last, x)))
  }

  /** The time since which the candidate counts as ready, if any. */
  function SinceOf(ps: seq<ApprovalPledge>, mode: ThresholdMode, events: seq<Seen>, x: ApprovalInner): Option<nat> {
    if events == [] then None
    else
      var before, e := events[..|events| - 1], events[|events| - 1];
      var since := if Survives(ps, before, e, x) then SinceOf(ps, mode, before, x) else None;
      if since == None && FoundReady(ps, mode, before, e, x) then Some(e.now) else since
  }

  /** The times of all candidates, by the events. */
  ghost predicate Since(ps: seq<ApprovalPledge>, mode: ThresholdMode, events: seq<Seen>, times: map<ApprovalInner, nat>) {
    forall x :: SinceOf(ps, mode, events, x) == if x in times then Some(times[x]) else None
  }

  /** The right answer to a look at candidate `inner`: ready iff it has its quorum, since the time that the events give. */
  ghost predicate Answers(ps: seq<ApprovalPledge>, mode: ThresholdMode, events: seq<Seen>, inner: ApprovalInner, r: Readiness) {
    && (r.ReadySince? <==>
        inner in Candidates(LastIn(ps, events)) && (mode.NoApprovals? || Quorum(ps, Backers(LastIn(ps, events), inner))))
    && (r.ReadySince? ==> Some(r.when) == SinceOf(ps, mode, events, inner))
  }

  lemma NothingSeen(ps: seq<ApprovalPledge>, mode: ThresholdMode, inner: ApprovalInner)
    ensures Answers(ps, mode, [], inner, NotReady)
  {
    assert LastIn(ps, []) == map[];
  }

  function Only(times: map<ApprovalInner, nat>, keys: set<ApprovalInner>): map<ApprovalInner, nat> {
    map x | x in times && x in keys :: times[x]
  }

  /** The times after a look at candidate `inner`. */
  function TimesAfter(times: map<ApprovalInner, nat>, inner: ApprovalInner, ready: bool, now: nat): map<ApprovalInner, nat> {
    if ready && inner !in times then times[inner := now] else times
  }

  /** Event number `i` found the candidate ready, and the tracker it found has been kept until event number `n`. */
  ghost predicate ReadyFrom(ps: seq<ApprovalPledge>, mode: ThresholdMode, events: seq<Seen>, x: ApprovalInner, i: nat, n: nat)
    requires i < n <= |events|
  {
    && FoundReady(ps, mode, events[..i], events[i], x)
    && (forall k :: i < k < n ==> Survives(ps, events[..k], events[k], x))
  }

  ghost predicate NeverReady(ps: seq<ApprovalPledge>, mode: ThresholdMode, events: seq<Seen>, x: ApprovalInner, n: nat)
    requires n <= |events|
  {
    forall i :: 0 <= i < n ==> !ReadyFrom(ps, mode, events, x, i, n)
  }

  ghost predicate FirstReadyFrom(ps: seq<ApprovalPledge>, mode: ThresholdMode, events: seq<Seen>, x: ApprovalInner, i: nat, n: nat)
    requires n <= |events|
  {
    i < n && ReadyFrom(ps, mode, events, x, i, n) && forall j :: 0 <= j < i ==> !ReadyFrom(ps, mode, events, x, j, n)
  }

  lemma ReadyFromStep(ps: seq<ApprovalPledge>, mode: ThresholdMode, events: seq<Seen>, x: ApprovalInner, m: nat, n: nat)
    requires n == m + 1 <= |events|
    ensures ReadyFrom(ps, mode, events, x, m, n) <==> FoundReady(ps, mode, events[..m], events[m], x)
    ensures forall i {:trigger ReadyFrom(ps, mode, events, x, i, n)} :: 0 <= i < m ==>
              (ReadyFrom(ps, mode, events, x, i, n) <==>
               ReadyFrom(ps, mode, events, x, i, m) && Survives(ps, events[..m], events[m], x))
  {
  }

  lemma FirstReadyStep(ps: seq<ApprovalPledge>, mode: ThresholdMode, events: seq<Seen>, x: ApprovalInner, m: nat, n: nat, i: nat)
    requires n == m + 1 <= |events|
    ensures Survives(ps, events[..m], events[m], x) && FirstReadyFrom(ps, mode, events, x, i, m) ==>
              FirstReadyFrom(ps, mode, events, x, i, n)
    ensures !Survives(ps, events[..m], events[m], x) || NeverReady(ps, mode, events, x, m) ==>
              if FoundReady(ps, mode, events[..m], events[m], x) then FirstReadyFrom(ps, mode, events, x, m, n)
              else NeverReady(ps, mode, events, x, n)
  {
    ReadyFromStep(ps, mode, events, x, m, n);
  }

  lemma SinceOfStep(ps: seq<ApprovalPledge>, mode: ThresholdMode, before: seq<Seen>, e: Seen, x: ApprovalInner)
    ensures var since := if Survives(ps, before, e, x) then SinceOf(ps, mode, before, x) else None;
            SinceOf(ps, mode, before + [e], x) ==
            if since == None && FoundReady(ps, mode, before, e, x) then Some(e.now) else since
  {
    assert (before + [e])[..|before|] == before;
  }

  /** It is the time of the first event that found the candidate ready since its tracker was opened. */
  lemma {:induction false} SinceIsFirst(ps: seq<ApprovalPledge>, mode: ThresholdMode, events: seq<Seen>, x: ApprovalInner, n: nat)
    returns (i: nat)
    requires n <= |events|
    ensures SinceOf(ps, mode, events[..n], x) == None <==> NeverReady(ps, mode, events, x, n)
    ensures SinceOf(ps, mode, events[..n], x).Some? ==>
              FirstReadyFrom(ps, mode, events, x, i, n) && SinceOf(ps, mode, events[..n], x) == Some(events[i].now)
  {
    if n == 0 {
      i := 0;
    } else {
      var m := n - 1;
      i := SinceIsFirst(ps, mode, events, x, m);
      assert events[..n] == events[..m] + [events[m]];
      SinceOfStep(ps, mode, events[..m], events[m], x);
      FirstReadyStep(ps, mode, events, x, m, n, i);
      if !Survives(ps, events[..m], events[m], x) || SinceOf(ps, mode, events[..m], x) == None {
        i := m;
      }
    }
  }

  function PledgeMap(ps: seq<ApprovalPledge>): map<AccountId, ApprovalPledge> {
    if ps == [] then map[]
    else
      var n := |ps| - 1;
      PledgeMap(ps[..n])[ps[n].account := ps[n]]
  }

  lemma AccountsStep(ps: seq<ApprovalPledge>, n: nat)
    requires n < |ps|
    ensures Accounts(ps[..n + 1]) == Accounts(ps[..n]) + {ps[n].account}
  {
    assert forall i :: 0 <= i < n ==> ps[..n + 1][i] == ps[i] == ps[..n][i];
    assert ps[..n + 1][n] == ps[n];
  }

  lemma {:induction false} PledgeMapEntries(ps: seq<ApprovalPledge>)
    requires Distinct(ps)
    ensures PledgeMap(ps).Keys == Accounts(ps)
    ensures forall i :: 0 <= i < |ps| ==> ps[i].account in PledgeMap(ps) && PledgeMap(ps)[ps[i].account] == ps[i]
  {
    if ps != [] {
      var n := |ps| - 1;
      var init := ps[..n];
      PledgeMapEntries(init);
      assert Accounts(ps) == Accounts(init) + {ps[n].account} by {
        AccountsStep(ps, n);
        assert ps[..n + 1] == ps;
      }
      forall i | 0 <= i < n ensures ps[i].account in PledgeMap(ps) && PledgeMap(ps)[ps[i].account] == ps[i] {
        assert init[i] == ps[i];
      }
    }
  }

  lemma {:induction false} LastOfListed(ps: seq<ApprovalPledge>, log: seq<Approval>)
    ensures LastOf(ps, log).Keys <= Accounts(ps)
    ensures forall a :: a in LastOf(ps, log) ==> LastOf(ps, log)[a].account == a && LastOf(ps, log)[a] in log
  {
    if log != [] {
      LastOfListed(ps, log[..|log| - 1]);
    }
  }

  lemma LastOfAppend(ps: seq<ApprovalPledge>, log: seq<Approval>, approval: Approval)
    ensures LastOf(ps, log + [approval]) == Updated(ps, LastOf(ps, log), approval)
  {
    assert (log + [approval])[..|log|] == log;
    var last := LastOf(ps, log);
    assert (last - {approval.account})[approval.account := approval] == last[approval.account := approval];
  }

  /** `LastOf` means what it says: the approval at an account's greatest position in the log. */
  lemma {:induction false} LastOfIsLast(ps: seq<ApprovalPledge>, log: seq<Approval>, i: nat)
    requires i < |log| && log[i].account in Accounts(ps)
    requires forall j :: i < j < |log| ==> log[j].account != log[i].account
    ensures log[i].account in LastOf(ps, log) && LastOf(ps, log)[log[i].account] == log[i]
  {
    var n := |log| - 1;
    if i < n {
      LastOfIsLast(ps, log[..n], i);
    }
  }

  /** In two-thirds mode at most one candidate is ready at a time. */
  lemma AtMostOneReady(ps: seq<ApprovalPledge>, last: map<AccountId, Approval>, x: ApprovalInner, y: ApprovalInner)
    requires Quorum(ps, Backers(last, x)) && Quorum(ps, Backers(last, y))
    ensures x == y
  {
    if x != y {
      DisjointQuorumsImpossible(ps, Backers(last, x), Backers(last, y), ThisEpoch);
      assert false;
    }
  }

  lemma ApprovalsAppend(events: seq<Seen>, e: Seen)
    ensures ApprovalsIn(events + [e]) == ApprovalsIn(events) + if e.Arrived? then [e.approval] else []
  {
    assert (events + [e])[..|events|] == events;
  }

  lemma LastInAppend(ps: seq<ApprovalPledge>, events: seq<Seen>, now: nat, approval: Approval)
    ensures LastIn(ps, events).Keys <= Accounts(ps)
    ensures LastIn(ps, events + [Arrived(now, approval)]) == Updated(ps, LastIn(ps, events), approval)
  {
    ApprovalsAppend(events, Arrived(now, approval));
    LastOfListed(ps, ApprovalsIn(events));
    LastOfAppend(ps, ApprovalsIn(events), approval);
  }

  lemma LastInAsked(ps: seq<ApprovalPledge>, events: seq<Seen>, now: nat, inner: ApprovalInner)
    ensures LastIn(ps, events + [Asked(now, inner)]) == LastIn(ps, events)
  {
    ApprovalsAppend(events, Asked(now, inner));
    assert ApprovalsIn(events) + [] == ApprovalsIn(events);
  }

  lemma ArrivalTimes(ps: seq<ApprovalPledge>, mode: ThresholdMode, events: seq<Seen>, times: map<ApprovalInner, nat>, now: nat,
                     approval: Approval, ready: bool)
    requires Since(ps, mode, events, times)
    requires ready <==> && approval.account in Accounts(ps)
                        && (mode.NoApprovals? || Quorum(ps, Backers(Updated(ps, LastIn(ps, events), approval), approval.inner)))
    ensures var kept := Only(times, Candidates(LastIn(ps, events) - {approval.account}));
            Since(ps, mode, events + [Arrived(now, approval)], TimesAfter(kept, approval.inner, ready, now))
  {
    var kept := Only(times, Candidates(LastIn(ps, events) - {approval.account}));
    var times' := TimesAfter(kept, approval.inner, ready, now);
    forall x ensures SinceOf(ps, mode, events + [Arrived(now, approval)], x) == if x in times' then Some(times'[x]) else None {
      ArrivalTime(ps, mode, events, now, approval, x);
    }
  }

  lemma ArrivalTime(ps: seq<ApprovalPledge>, mode: ThresholdMode, events: seq<Seen>, now: nat, approval: Approval, x: ApprovalInner)
    ensures var last := LastIn(ps, events);
            var since := if x in Candidates(last - {approval.account}) then SinceOf(ps, mode, events, x) else None;
            var ready := && approval.account in Accounts(ps)
                         && (mode.NoApprovals? || Quorum(ps, Backers(Updated(ps, last, approval), approval.inner)));
            SinceOf(ps, mode, events + [Arrived(now, approval)], x) ==
            if since == None && x == approval.inner && ready then Some(now) else since
  {
    LastInAppend(ps, events, now, approval);
    SinceOfStep(ps, mode, events, Arrived(now, approval), x);
  }

  lemma AskingTimes(ps: seq<ApprovalPledge>, mode: ThresholdMode, events: seq<Seen>, times: map<ApprovalInner, nat>, now: nat,
                    inner: ApprovalInner, r: Readiness)
    requires Since(ps, mode, events, times)
    requires r.ReadySince? <==> && inner in Candidates(LastIn(ps, events))
                                && (mode.NoApprovals? || Quorum(ps, Backers(LastIn(ps, events), inner)))
    requires var times' := TimesAfter(times, inner, r.ReadySince?, now);
             r.ReadySince? ==> inner in times' && r.when == times'[inner]
    ensures Since(ps, mode, events + [Asked(now, inner)], TimesAfter(times, inner, r.ReadySince?, now))
    ensures Answers(ps, mode, events + [Asked(now, inner)], inner, r)
  {
    LastInAsked(ps, events, now, inner);
    var times' := TimesAfter(times, inner, r.ReadySince?, now);
    forall x ensures SinceOf(ps, mode, events + [Asked(now, inner)], x) == if x in times' then Some(times'[x]) else None {
      SinceOfStep(ps, mode, events, Asked(now, inner), x);
    }
  }

  class Tracker {
    var witnesses: map<AccountId, Approval>
    const pledges: map<AccountId, ApprovalPledge>
    const totalThis: nat
    const totalNext: nat
    var approvedThis: nat
    var approvedNext: nat
    var timePassedThreshold: Option<nat>
    const mode: ThresholdMode

    ghost predicate Valid(ps: seq<ApprovalPledge>)
      reads this
    {
      && Distinct(ps)
      && pledges == PledgeMap(ps)
      && totalThis == Total(ps, ThisEpoch) && totalNext == Total(ps, NextEpoch)
      && witnesses.Keys <= Accounts(ps)
      && (forall a :: a in witnesses ==> witnesses[a].account == a)
      && approvedThis == Weight(ps, witnesses.Keys, ThisEpoch)
      && approvedNext == Weight(ps, witnesses.Keys, NextEpoch)
    }

    ghost predicate Counts(ps: seq<ApprovalPledge>, mode: ThresholdMode, w: map<AccountId, Approval>)
      reads this
    {
      Valid(ps) && this.mode == mode && witnesses == w
    }

    // The totals are sums over the values of a hash map, whose order is arbitrary.
    constructor (pledges: map<AccountId, ApprovalPledge>, mode: ThresholdMode, ghost ps: seq<ApprovalPledge>)
      requires Distinct(ps) && pledges == PledgeMap(ps)
      ensures Valid(ps) && witnesses == map[] && timePassedThreshold == None && this.mode == mode
    {
      PledgeMapEntries(ps);
      var todo := pledges.Keys;
      var sumThis, sumNext := 0, 0;
      ghost var done: set<AccountId> := {};
      WeightOfNobody(ps, ThisEpoch);
      WeightOfNobody(ps, NextEpoch);
      while todo != {}
        invariant done !! todo && done + todo == Accounts(ps)
        invariant sumThis == Weight(ps, done, ThisEpoch) && sumNext == Weight(ps, done, NextEpoch)
        decreases todo
      {
        var a :| a in todo;
        ghost var i :| 0 <= i < |ps| && ps[i].account == a;
        WeightAdd(ps, done, i, ThisEpoch);
        WeightAdd(ps, done, i, NextEpoch);
        sumThis := sumThis + pledges[a].thisEpoch;
        sumNext := sumNext + pledges[a].nextEpoch;
        todo := todo - {a};
        done := done + {a};
      }
      WeightOfAll(ps, done, ThisEpoch);
      WeightOfAll(ps, done, NextEpoch);
      this.pledges := pledges;
      this.mode := mode;
      totalThis, totalNext := sumThis, sumNext;
      approvedThis, approvedNext := 0, 0;
      witnesses := map[];
      timePassedThreshold := None;
      new;
      assert witnesses.Keys == {};
    }

    /** Ready iff the witnesses are a quorum; the time is that of the first call that found it so. */
    method GetReadiness(now: nat, ghost ps: seq<ApprovalPledge>) returns (r: Readiness)
      requires Valid(ps)
      modifies this`timePassedThreshold
      ensures Valid(ps)
      ensures r.ReadySince? <==> Quorum(ps, witnesses.Keys) || mode.NoApprovals?
      ensures r.ReadySince? ==>
                r.when == (if old(timePassedThreshold).Some? then old(timePassedThreshold).value else now)
      ensures timePassedThreshold == if r.ReadySince? then Some(r.when) else old(timePassedThreshold)
    {
      if (approvedThis > totalThis * 2 / 3 && (approvedNext > totalNext * 2 / 3 || totalNext == 0))
         || mode == NoApprovals
      {
        if timePassedThreshold == None {
          timePassedThreshold := Some(now);
        }
        r := ReadySince(timePassedThreshold.value);
      } else {
        r := NotReady;
      }
    }

    method ProcessApproval(now: nat, approval: Approval, ghost ps: seq<ApprovalPledge>) returns (r: Readiness)
      requires Valid(ps) && approval.account in Accounts(ps)
      modifies this
      ensures Valid(ps)
      ensures witnesses == if approval.account in old(witnesses) then old(witnesses)
                         else old(witnesses)[approval.account := approval]
      ensures r.ReadySince? <==> Quorum(ps, witnesses.Keys) || mode.NoApprovals?
      ensures timePassedThreshold ==
              if old(timePassedThreshold) == None && r.ReadySince? then Some(now) else old(timePassedThreshold)
      ensures r.ReadySince? ==> timePassedThreshold == Some(r.when)
    {
      if approval.account !in witnesses {
        ghost var i :| 0 <= i < |ps| && ps[i].account == approval.account;
        PledgeMapEntries(ps);
        WeightAdd(ps, witnesses.Keys, i, ThisEpoch);
        WeightAdd(ps, witnesses.Keys, i, NextEpoch);
        witnesses := witnesses[approval.account := approval];
        assert witnesses.Keys == old(witnesses.Keys) + {approval.account};
        if approval.account in pledges {
          approvedThis := approvedThis + pledges[approval.account].thisEpoch;
          approvedNext := approvedNext + pledges[approval.account].nextEpoch;
        }
      }
      r := GetReadiness(now, ps);
    }

    // The subtractions of the counters never go below zero.
    method WithdrawApproval(account: AccountId, ghost ps: seq<ApprovalPledge>)
      requires Valid(ps)
      modifies this`witnesses, this`approvedThis, this`approvedNext
      ensures Valid(ps)
      ensures witnesses == old(witnesses) - {account}
    {
      if account in witnesses {
        ghost var i :| 0 <= i < |ps| && ps[i].account == account;
        PledgeMapEntries(ps);
        var rest := witnesses - {account};
        assert witnesses.Keys == rest.Keys + {account};
        WeightAdd(ps, rest.Keys, i, ThisEpoch);
        WeightAdd(ps, rest.Keys, i, NextEpoch);
        witnesses := rest;
        if account in pledges {
          approvedThis := approvedThis - pledges[account].thisEpoch;
          approvedNext := approvedNext - pledges[account].nextEpoch;
        }
      }
    }
  }

  class TrackersAtHeight {
    var trackers: map<ApprovalInner, Tracker>
    var lastApproval: map<AccountId, ApprovalInner>
    ghost var events: seq<Seen>
    // since when candidates have been ready
    ghost var times: map<ApprovalInner, nat>
    ghost var Repr: set<Tracker>

    /** One separate tracker for each of the candidates `keys`, each with exactly the approvals in `last` that name
        its candidate as witness and (by `Tracker.Valid`) exactly their pledge as sums. */
    ghost predicate Tracks(ps: seq<ApprovalPledge>, mode: ThresholdMode, last: map<AccountId, Approval>,
                           keys: set<ApprovalInner>)
      reads this`trackers, this`Repr, this`times, Repr
    {
      && Backed(ps, mode, last, keys)
      && (forall x :: x in times ==> x in keys)
      && (forall x :: x in trackers ==> trackers[x].timePassedThreshold == if x in times then Some(times[x]) else None)
    }

    ghost predicate Backed(ps: seq<ApprovalPledge>, mode: ThresholdMode, last: map<AccountId, Approval>,
                           keys: set<ApprovalInner>)
      reads this`trackers, this`Repr, Repr
    {
      && trackers.Keys == keys
      && (forall x :: x in trackers ==> trackers[x] in Repr)
      && (forall x, y :: x in trackers && y in trackers && x != y ==> trackers[x] != trackers[y])
      && (forall x :: x in trackers ==> trackers[x].Counts(ps, mode, WitnessOf(last, x)))
    }

    /** The trackers and the index by account are exactly the function of the approvals in `last`. */
    ghost predicate Holds(ps: seq<ApprovalPledge>, mode: ThresholdMode, last: map<AccountId, Approval>)
      reads this`trackers, this`lastApproval, this`Repr, this`times, Repr
    {
      Tracks(ps, mode, last, Candidates(last)) && Indexes(lastApproval, last)
    }

    ghost predicate Valid(ps: seq<ApprovalPledge>, mode: ThresholdMode)
      reads this, Repr
    {
      Distinct(ps) && Holds(ps, mode, LastIn(ps, events)) && Since(ps, mode, events, times)
    }

    constructor (ghost ps: seq<ApprovalPledge>, ghost mode: ThresholdMode)
      requires Distinct(ps)
      ensures Valid(ps, mode) && Repr == {} && events == []
    {
      trackers, lastApproval := map[], map[];
      events, times := [], map[];
      Repr := {};
    }

    method ProcessApproval(now: nat, approval: Approval, ps: seq<ApprovalPledge>, mode: ThresholdMode)
      returns (r: Readiness)
      requires Valid(ps, mode)
      modifies this, Repr
      ensures Valid(ps, mode) && fresh(Repr - old(Repr))
      ensures events == old(events) + [Arrived(now, approval)]
      ensures r.ReadySince? <==>
              && approval.account in Accounts(ps)
              && (mode.NoApprovals? || Quorum(ps, Backers(LastIn(ps, events), approval.inner)))
    {
      LastInAppend(ps, events, now, approval);
      r := Replace(now, approval, ps, mode, LastIn(ps, events));
      ArrivalTimes(ps, mode, events, old(times), now, approval, r.ReadySince?);
      Log(Arrived(now, approval), ps, mode);
    }

    /** First the account's earlier approval is withdrawn, then the new one is counted. */
    method Replace(now: nat, approval: Approval, ps: seq<ApprovalPledge>, mode: ThresholdMode,
                   ghost last: map<AccountId, Approval>)
      returns (r: Readiness)
      requires Distinct(ps) && Holds(ps, mode, last) && last.Keys <= Accounts(ps)
      modifies Repr, this`trackers, this`lastApproval, this`Repr, this`times
      ensures fresh(Repr - old(Repr))
      ensures Holds(ps, mode, Updated(ps, last, approval))
      ensures r.ReadySince? <==>
              && approval.account in Accounts(ps)
              && (mode.NoApprovals? || Quorum(ps, Backers(Updated(ps, last, approval), approval.inner)))
      ensures times == TimesAfter(Only(old(times), Candidates(last - {approval.account})), approval.inner, r.ReadySince?, now)
    {
      ghost var rest := last - {approval.account};
      Withdraw(approval.account, ps, mode, last);
      var pledges := PledgeMap(ps);
      PledgeMapEntries(ps);
      if approval.account in pledges {
        IndexesUpdated(lastApproval, last, approval);
        r := Enter(now, approval, pledges, ps, mode, rest);
      } else {
        assert rest == last;
        r := NotReady;
      }
    }

    method Enter(now: nat, approval: Approval, pledges: map<AccountId, ApprovalPledge>,
                 ghost ps: seq<ApprovalPledge>, mode: ThresholdMode, ghost rest: map<AccountId, Approval>)
      returns (r: Readiness)
      requires Distinct(ps) && pledges == PledgeMap(ps)
      requires Tracks(ps, mode, rest, Candidates(rest))
      requires approval.account !in rest && approval.account in Accounts(ps)
      modifies Repr, this`trackers, this`lastApproval, this`Repr, this`times
      ensures fresh(Repr - old(Repr)) && lastApproval == old(lastApproval)[approval.account := approval.inner]
      ensures var last := rest[approval.account := approval];
              && Tracks(ps, mode, last, Candidates(last))
              && (r.ReadySince? <==> mode.NoApprovals? || Quorum(ps, Backers(last, approval.inner)))
      ensures times == TimesAfter(old(times), approval.inner, r.ReadySince?, now)
    {
      Note(approval, ps, mode, rest);
      r := Register(now, approval, pledges, ps, mode, rest);
    }

    /** The answer, with the time since which the candidate has been ready. */
    method Readiness(now: nat, inner: ApprovalInner, ghost ps: seq<ApprovalPledge>, ghost mode: ThresholdMode)
      returns (r: Readiness)
      requires Valid(ps, mode)
      modifies this, Repr
      ensures Valid(ps, mode) && Repr == old(Repr) && events == old(events) + [Asked(now, inner)]
      ensures Answers(ps, mode, events, inner, r)
    {
      r := Look(now, inner, ps, mode, LastIn(ps, events));
      LastInAsked(ps, events, now, inner);
      AskingTimes(ps, mode, events, old(times), now, inner, r);
      Log(Asked(now, inner), ps, mode);
    }

    ghost method Log(e: Seen, ps: seq<ApprovalPledge>, mode: ThresholdMode)
      requires Distinct(ps) && Holds(ps, mode, LastIn(ps, events + [e])) && Since(ps, mode, events + [e], times)
      modifies this`events
      ensures Valid(ps, mode) && events == old(events) + [e]
    {
      events := events + [e];
    }

    method Look(now: nat, inner: ApprovalInner, ghost ps: seq<ApprovalPledge>, ghost mode: ThresholdMode,
                ghost last: map<AccountId, Approval>)
      returns (r: Readiness)
      requires Holds(ps, mode, last)
      modifies Repr, this`times
      ensures Holds(ps, mode, last)
      ensures r.ReadySince? <==> inner in Candidates(last) && (mode.NoApprovals? || Quorum(ps, Backers(last, inner)))
      ensures times == TimesAfter(old(times), inner, r.ReadySince?, now)
      ensures r.ReadySince? ==> inner in times && r.when == times[inner]
    {
      if inner in trackers {
        r := trackers[inner].GetReadiness(now, ps);
        assert trackers[inner].witnesses.Keys == Backers(last, inner);
        assert Backed(ps, mode, last, Candidates(last));
        times := TimesAfter(times, inner, r.ReadySince?, now);
      } else {
        r := NotReady;
      }
    }

    /** Takes an account's last approval out of its tracker, and the tracker away if it was the only one. */
    method Withdraw(account: AccountId, ghost ps: seq<ApprovalPledge>, ghost mode: ThresholdMode,
                    ghost last: map<AccountId, Approval>)
      requires Tracks(ps, mode, last, Candidates(last))
      requires Indexes(lastApproval, last)
      modifies Repr, this`trackers, this`times
      ensures Tracks(ps, mode, last - {account}, Candidates(last - {account}))
      ensures times == Only(old(times), Candidates(last - {account}))
    {
      if account !in lastApproval {
        assert last - {account} == last;
        assert Only(times, Candidates(last)) == times;
        return;
      }
      var inner := lastApproval[account];
      assert inner in Candidates(last);
      TakeOut(account, inner, ps, mode, last);
      CandidatesAfterRemoval(last, account);
      DropIfEmpty(inner, ps, mode, last - {account}, Candidates(last));
    }

    method DropIfEmpty(inner: ApprovalInner, ghost ps: seq<ApprovalPledge>, ghost mode: ThresholdMode,
                       ghost rest: map<AccountId, Approval>, ghost keys: set<ApprovalInner>)
      requires Tracks(ps, mode, rest, keys) && inner in trackers
      modifies this`trackers, this`times
      ensures var left := if WitnessOf(rest, inner) == map[] then keys - {inner} else keys;
              Tracks(ps, mode, rest, left) && times == Only(old(times), left)
    {
      ghost var left := if WitnessOf(rest, inner) == map[] then keys - {inner} else keys;
      if trackers[inner].witnesses == map[] {
        trackers := trackers - {inner};
      }
      times := Only(times, left);
    }

    method TakeOut(account: AccountId, inner: ApprovalInner, ghost ps: seq<ApprovalPledge>, ghost mode: ThresholdMode,
                   ghost last: map<AccountId, Approval>)
      requires Tracks(ps, mode, last, Candidates(last)) && inner in trackers
      requires account in last && last[account].inner == inner
      modifies Repr
      ensures Tracks(ps, mode, last - {account}, Candidates(last))
    {
      trackers[inner].WithdrawApproval(account, ps);
      forall x | x in trackers
        ensures trackers[x].witnesses == WitnessOf(last - {account}, x)
      {
        WitnessAfterRemoval(last, account, x);
      }
    }

    method Note(approval: Approval, ghost ps: seq<ApprovalPledge>, ghost mode: ThresholdMode,
                ghost rest: map<AccountId, Approval>)
      requires Tracks(ps, mode, rest, Candidates(rest))
      modifies this`lastApproval
      ensures Tracks(ps, mode, rest, Candidates(rest))
      ensures lastApproval == old(lastApproval)[approval.account := approval.inner]
    {
      lastApproval := lastApproval[approval.account := approval.inner];
    }

    /** Counts a new approval for its candidate, opening a tracker for it if there is none. */
    method Register(now: nat, approval: Approval, pledges: map<AccountId, ApprovalPledge>,
                    ghost ps: seq<ApprovalPledge>, mode: ThresholdMode, ghost rest: map<AccountId, Approval>)
      returns (r: Readiness)
      requires Distinct(ps) && pledges == PledgeMap(ps)
      requires Tracks(ps, mode, rest, Candidates(rest))
      requires approval.account !in rest && approval.account in Accounts(ps)
      modifies Repr, this`trackers, this`Repr, this`times
      ensures fresh(Repr - old(Repr))
      ensures var last := rest[approval.account := approval];
              && Tracks(ps, mode, last, Candidates(last))
              && (r.ReadySince? <==> mode.NoApprovals? || Quorum(ps, Backers(last, approval.inner)))
      ensures times == TimesAfter(old(times), approval.inner, r.ReadySince?, now)
    {
      CandidatesAfterInsertion(rest, approval);
      if approval.inner !in trackers {
        Open(approval.inner, pledges, ps, mode, rest);
      } else {
        assert Candidates(rest) + {approval.inner} == Candidates(rest);
      }
      r := Count(now, approval, ps, mode, rest);
    }

    method Open(inner: ApprovalInner, pledges: map<AccountId, ApprovalPledge>,
                ghost ps: seq<ApprovalPledge>, mode: ThresholdMode, ghost last: map<AccountId, Approval>)
      requires Distinct(ps) && pledges == PledgeMap(ps)
      requires Tracks(ps, mode, last, Candidates(last)) && inner !in trackers
      modifies this`trackers, this`Repr
      ensures fresh(Repr - old(Repr))
      ensures Tracks(ps, mode, last, Candidates(last) + {inner})
    {
      var added := new Tracker(pledges, mode, ps);
      assert WitnessOf(last, inner) == map[];
      trackers := trackers[inner := added];
      Repr := Repr + {added};
    }

    /** Counts a new approval for its candidate. */
    method Count(now: nat, approval: Approval, ghost ps: seq<ApprovalPledge>, ghost mode: ThresholdMode,
                 ghost rest: map<AccountId, Approval>)
      returns (r: Readiness)
      requires Tracks(ps, mode, rest, Candidates(rest) + {approval.inner})
      requires approval.account !in rest && approval.account in Accounts(ps)
      modifies Repr, this`times
      ensures Tracks(ps, mode, rest[approval.account := approval], Candidates(rest) + {approval.inner})
      ensures r.ReadySince? <==>
              mode.NoApprovals? || Quorum(ps, Backers(rest[approval.account := approval], approval.inner))
      ensures times == TimesAfter(old(times), approval.inner, r.ReadySince?, now)
    {
      r := Insert(now, approval, ps, mode, rest);
      times := TimesAfter(times, approval.inner, r.ReadySince?, now);
    }

    method Insert(now: nat, approval: Approval, ghost ps: seq<ApprovalPledge>, ghost mode: ThresholdMode,
                  ghost rest: map<AccountId, Approval>)
      returns (r: Readiness)
      requires Backed(ps, mode, rest, Candidates(rest) + {approval.inner})
      requires approval.account !in rest && approval.account in Accounts(ps)
      modifies Repr
      ensures Backed(ps, mode, rest[approval.account := approval], Candidates(rest) + {approval.inner})
      ensures r.ReadySince? <==>
              mode.NoApprovals? || Quorum(ps, Backers(rest[approval.account := approval], approval.inner))
      ensures forall x :: x in trackers ==>
                var time := old(trackers[x].timePassedThreshold);
                trackers[x].timePassedThreshold ==
                if x == approval.inner && time == None && r.ReadySince? then Some(now) else time
    {
      var tracker := trackers[approval.inner];
      r := tracker.ProcessApproval(now, approval, ps);
      forall x | x in trackers
        ensures trackers[x].witnesses == WitnessOf(rest[approval.account := approval], x)
      {
        WitnessAfterInsertion(rest, approval, x);
      }
      assert tracker.witnesses.Keys == Backers(rest[approval.account := approval], approval.inner);
    }
  }

  lemma WitnessAfterInsertion(rest: map<AccountId, Approval>, approval: Approval, x: ApprovalInner)
    requires approval.account !in rest
    ensures WitnessOf(rest[approval.account := approval], x) ==
            if x == approval.inner then WitnessOf(rest, x)[approval.account := approval] else WitnessOf(rest, x)
    ensures approval.account !in WitnessOf(rest, x)
  {
  }

  lemma WitnessAfterRemoval(last: map<AccountId, Approval>, account: AccountId, x: ApprovalInner)
    requires account in last
    ensures WitnessOf(last - {account}, x) ==
            if x == last[account].inner then WitnessOf(last, x) - {account} else WitnessOf(last, x)
  {
  }

  lemma CandidatesAfterInsertion(rest: map<AccountId, Approval>, approval: Approval)
    requires approval.account !in rest
    ensures Candidates(rest[approval.account := approval]) == Candidates(rest) + {approval.inner}
  {
    var last := rest[approval.account := approval];
    assert last[approval.account].inner == approval.inner;
    forall a | a in rest ensures rest[a].inner in Candidates(last) {
      assert a in last && last[a] == rest[a];
    }
  }

  lemma CandidatesAfterRemoval(last: map<AccountId, Approval>, account: AccountId)
    requires account in last
    ensures var rest := last - {account};
            Candidates(rest) == if WitnessOf(rest, last[account].inner) == map[]
                                then Candidates(last) - {last[account].inner} else Candidates(last)
  {
    var rest := last - {account};
    var inner := last[account].inner;
    var w := WitnessOf(rest, inner);
    if w != map[] {
      var a :| a in w;
      assert a in rest && rest[a].inner == inner;
    }
    forall a | a in last && last[a].inner != inner ensures last[a].inner in Candidates(rest) {
      assert a in rest && rest[a] == last[a];
    }
    forall x | x in Candidates(rest) ensures x in Candidates(last) && (w == map[] ==> x != inner) {
      var a :| a in rest && rest[a].inner == x;
      assert a in last && (x == inner ==> a in w);
    }
    forall x | x in Candidates(last) && (x == inner ==> w != map[]) ensures x in Candidates(rest) {
      if x != inner {
        var a :| a in last && last[a].inner == x;
      }
    }
  }
}
