/**
 The timer of one Doomslug node: which approvals it issues, and when.

 `Node` is the part of the node's state that decides its own approvals.  A `Vote`
 is an approval before signing; its parent height and target height are what the
 approval history records.
 */
module Timer {
  import opened Prelude
  import opened Approvals

  const MAX_TIMER_ITERS: nat := 20
  const U32_MAX: nat := 0xFFFF_FFFF

  datatype Delays = Delays(endorsement: nat, min: nat, step: nat, max: nat)

  datatype Node = Node(
    delays: Delays,
    largestTarget: nat,
    largestFinal: nat,
    tipHash: Hash,
    tipHeight: nat,
    endorsementPending: bool,
    started: nat,
    lastEndorsementSent: nat,
    height: nat)

  datatype Vote = Vote(hash: Hash, parent: nat, target: nat)

  predicate IsEndorsement(v: Vote) {
    v.target == v.parent + 1
  }

  function GetDelay(d: Delays, n: nat): nat {
    Min(d.max, d.min + d.step * SaturatingSub(Min(n, U32_MAX), 2))
  }

  function SkipDelay(s: Node): nat {
    GetDelay(s.delays, SaturatingSub(s.height, s.largestFinal))
  }

  function New(largestTarget: nat, delays: Delays, now: nat): Node {
    Node(delays, largestTarget, 0, 0, 0, false, now, now, 0)
  }

  function SetTip(s: Node, now: nat, hash: Hash, height: nat, lastFinal: nat): Node {
    s.(tipHash := hash, tipHeight := height, largestFinal := lastFinal,
    height := height + 1, started := now, endorsementPending := true)
  }

  predicate EndorsementDue(s: Node, now: nat) {
    s.endorsementPending && now >= s.lastEndorsementSent + s.delays.endorsement
  }

  predicate SkipDue(s: Node, now: nat) {
    now >= s.started + SkipDelay(s)
  }

  /** The endorsement half of one timer iteration. */
  function Endorse(s: Node, now: nat): (Node, seq<Vote>) {
    if !EndorsementDue(s, now) then (s, [])
    else
      var sent := s.(lastEndorsementSent := now, endorsementPending := false);
      if s.tipHeight >= s.largestTarget
      then (sent.(largestTarget := s.tipHeight + 1), [Vote(s.tipHash, s.tipHeight, s.tipHeight + 1)])
      else (sent, [])
  }

  /** The skip half of one timer iteration, once the skip delay has passed. */
  function SkipOver(s: Node): (Node, Vote) {
    (s.(largestTarget := Max(s.height + 1, s.largestTarget),
     started := s.started + SkipDelay(s),
     height := s.height + 1),
     Vote(s.tipHash, s.tipHeight, s.height + 1))
  }

  /** The timer loop, with at most `iters` iterations left. */
  function Poll(s: Node, now: nat, iters: nat): (Node, seq<Vote>)
    decreases iters
  {
    if iters == 0 then (s, [])
    else
      var (s1, endorsed) := Endorse(s, now);
      if !SkipDue(s1, now) then (s1, endorsed)
      else
        var (s2, skip) := SkipOver(s1);
        var (s3, later) := Poll(s2, now, iters - 1);
        (s3, endorsed + [skip] + later)
  }

  // ---------------------------------------------------------------------------
  // What a node never does, over every run
  // ---------------------------------------------------------------------------

  datatype Event =
    | NewTip(now: nat, hash: Hash, height: nat, lastFinal: nat)
    | Tick(now: nat)
    // The process is started again: only the largest target height was stored.
    | Restart(now: nat, hash: Hash, height: nat, lastFinal: nat)

  function Step(s: Node, ev: Event): (Node, seq<Vote>) {
    match ev
    case NewTip(now, hash, height, lastFinal) => (SetTip(s, now, hash, height, lastFinal), [])
    case Tick(now) => Poll(s, now, MAX_TIMER_ITERS)
    case Restart(now, hash, height, lastFinal) =>
      (SetTip(New(s.largestTarget, s.delays, now), now, hash, height, lastFinal), [])
  }

  /** The state and all approvals issued after the events, oldest first. */
  function Run(s: Node, evs: seq<Event>): (Node, seq<Vote>) {
    if evs == [] then (s, [])
    else
      var n := |evs| - 1;
      var (s1, votes) := Run(s, evs[..n]);
      var (s2, more) := Step(s1, evs[n]);
      (s2, votes + more)
  }

  /** The run starts with a tip, and the height of the tip never falls. */
  ghost predicate Admissible(s: Node, evs: seq<Event>) {
    evs != [] ==>
      var n := |evs| - 1;
      && Admissible(s, evs[..n])
      && (evs[n].Tick? ==> n > 0)
      && (!evs[n].Tick? ==> evs[n].height >= Run(s, evs[..n]).0.tipHeight)
  }

  /** A pair of votes no correct node casts: an endorsement of a block at height `h` and a skip over `h`,
      or two different endorsements for one height. */
  ghost predicate Conflicting(v: Vote, w: Vote) {
    IsEndorsement(v) &&
    (|| w.parent < v.parent < w.target
     || (IsEndorsement(w) && w.target == v.target && w != v))
  }

  /** Everything said so far is covered by the largest target and the tip. */
  ghost predicate Covered(s: Node, votes: seq<Vote>) {
    forall i :: 0 <= i < |votes| ==>
      votes[i].target <= s.largestTarget && votes[i].parent <= s.tipHeight && votes[i].parent < votes[i].target
  }

  ghost predicate Disciplined(votes: seq<Vote>) {
    && (forall i, j :: 0 <= i < j < |votes| && IsEndorsement(votes[j]) ==> votes[i].target < votes[j].target)
    && (forall i, j :: 0 <= i < |votes| && 0 <= j < |votes| ==> !Conflicting(votes[i], votes[j]))
  }

  ghost predicate TimerAhead(s: Node) {
    s.height > s.tipHeight
  }

  lemma EndorseDisciplined(s: Node, now: nat, votes: seq<Vote>)
    requires Covered(s, votes) && Disciplined(votes)
    ensures var (s1, more) := Endorse(s, now);
            && Covered(s1, votes + more) && Disciplined(votes + more)
            && s1.largestTarget >= s.largestTarget
            && s1.tipHeight == s.tipHeight && s1.height == s.height
  {
    if EndorsementDue(s, now) && s.tipHeight >= s.largestTarget {
      var v := Vote(s.tipHash, s.tipHeight, s.tipHeight + 1);
      assert Endorse(s, now).1 == [v];
      assert forall i :: 0 <= i < |votes| ==> !Conflicting(v, votes[i]) && !Conflicting(votes[i], v);
    } else {
      assert votes + [] == votes;
    }
  }

  lemma SkipDisciplined(s: Node, votes: seq<Vote>)
    requires Covered(s, votes) && Disciplined(votes) && TimerAhead(s)
    ensures var (s1, skip) := SkipOver(s);
            && Covered(s1, votes + [skip]) && Disciplined(votes + [skip]) && TimerAhead(s1)
            && s1.largestTarget >= s.largestTarget && s1.tipHeight == s.tipHeight
  {
    var skip := SkipOver(s).1;
    assert !IsEndorsement(skip);
    assert forall i :: 0 <= i < |votes| ==> !Conflicting(votes[i], skip);
  }

  lemma Regrouped(a: seq<Vote>, b: seq<Vote>, c: seq<Vote>)
    ensures a + b + c == a + (b + c)
  {
  }

  lemma {:induction false} PollDisciplined(s: Node, now: nat, iters: nat, votes: seq<Vote>)
    requires Covered(s, votes) && Disciplined(votes) && TimerAhead(s)
    ensures var (s1, more) := Poll(s, now, iters);
            && Covered(s1, votes + more) && Disciplined(votes + more) && TimerAhead(s1)
            && s1.largestTarget >= s.largestTarget && s1.tipHeight == s.tipHeight
    decreases iters
  {
    if iters == 0 {
      assert votes + [] == votes;
    } else {
      EndorseDisciplined(s, now, votes);
      var (s1, endorsed) := Endorse(s, now);
      if SkipDue(s1, now) {
        SkipDisciplined(s1, votes + endorsed);
        var (s2, skip) := SkipOver(s1);
        PollDisciplined(s2, now, iters - 1, votes + endorsed + [skip]);
        var later := Poll(s2, now, iters - 1).1;
        Regrouped(votes + endorsed, [skip], later);
        Regrouped(votes, endorsed, [skip] + later);
        Regrouped(endorsed, [skip], later);
      }
    }
  }

  /** Over every admissible run: the largest target never falls, each endorsement targets more than every
      earlier approval, and no two approvals ever conflict. */
  lemma {:induction false} RunDisciplined(s: Node, evs: seq<Event>)
    requires Admissible(s, evs)
    ensures var (s1, votes) := Run(s, evs);
            && Covered(s1, votes) && Disciplined(votes)
            && s1.largestTarget >= s.largestTarget
            && (evs != [] ==> TimerAhead(s1))
  {
    if evs != [] {
      var n := |evs| - 1;
      RunDisciplined(s, evs[..n]);
      var (s1, votes) := Run(s, evs[..n]);
      if evs[n].Tick? {
        PollDisciplined(s1, evs[n].now, MAX_TIMER_ITERS, votes);
      } else {
        assert votes + [] == votes;
      }
    }
  }

  /** The per-node lemma in the words of the protocol: a node that endorses a block at height `h` issues,
      before or after, no skip that passes over `h`. */
  lemma {:induction false} EndorsementExcludesSkips(s: Node, evs: seq<Event>, i: nat, j: nat)
    requires Admissible(s, evs)
    requires i < |Run(s, evs).1| && j < |Run(s, evs).1|
    requires IsEndorsement(Run(s, evs).1[i])
    requires Run(s, evs).1[j].parent < Run(s, evs).1[i].parent
    ensures Run(s, evs).1[j].target <= Run(s, evs).1[i].parent
  {
    RunDisciplined(s, evs);
    assert !Conflicting(Run(s, evs).1[i], Run(s, evs).1[j]);
  }

  // ---------------------------------------------------------------------------
  // How polling relates to time
  // ---------------------------------------------------------------------------

  ghost predicate SaneDelays(d: Delays) {
    2 * d.endorsement <= d.min <= d.max
  }

  /** While an endorsement is pending, the timer was started after the last endorsement. */
  ghost predicate Clocked(s: Node, now: nat) {
    && SaneDelays(s.delays)
    && s.lastEndorsementSent <= now
    && s.started <= now
    && (s.endorsementPending ==> s.lastEndorsementSent <= s.started)
  }

  /** Both debug assertions of the timer loop. */
  lemma AssertionsHold(s: Node, clock: nat, now: nat)
    requires Clocked(s, clock) && clock <= now
    ensures SkipDelay(s) >= 2 * s.delays.endorsement
    ensures var s1 := Endorse(s, now).0; SkipDue(s1, now) ==> !s1.endorsementPending
  {
    assert s.delays.step * SaturatingSub(Min(SaturatingSub(s.height, s.largestFinal), U32_MAX), 2) >= 0;
  }

  lemma {:induction false} PollClocked(s: Node, clock: nat, now: nat, iters: nat)
    requires Clocked(s, clock) && clock <= now
    ensures Clocked(Poll(s, now, iters).0, now)
    decreases iters
  {
    if iters > 0 {
      AssertionsHold(s, clock, now);
      var s1 := Endorse(s, now).0;
      if SkipDue(s1, now) {
        PollClocked(SkipOver(s1).0, now, now, iters - 1);
      }
    }
  }

  /** Every run of a monotone clock keeps the timer's clock invariant, so both assertions hold throughout. */
  lemma {:induction false} RunClocked(s: Node, evs: seq<Event>, clock: nat)
    requires Clocked(s, clock)
    requires evs != [] ==> clock <= evs[0].now
    requires forall i, j :: 0 <= i < j < |evs| ==> evs[i].now <= evs[j].now
    ensures Clocked(Run(s, evs).0, if evs == [] then clock else evs[|evs| - 1].now)
  {
    if evs != [] {
      var n := |evs| - 1;
      RunClocked(s, evs[..n], clock);
      if evs[n].Tick? {
        PollClocked(Run(s, evs[..n]).0, if n == 0 then clock else evs[n - 1].now, evs[n].now, MAX_TIMER_ITERS);
      }
    }
  }

  /** Polling at each of the times in turn. */
  function PollAll(s: Node, times: seq<nat>, limit: nat): (Node, seq<Vote>)
    decreases |times|
  {
    if times == [] then (s, [])
    else
      var (s1, votes) := Poll(s, times[0], limit);
      var (s2, more) := PollAll(s1, times[1..], limit);
      (s2, votes + more)
  }

  ghost predicate Rising(clock: nat, times: seq<nat>) {
    && (times != [] ==> clock <= times[0])
    && forall i, j :: 0 <= i < j < |times| ==> times[i] <= times[j]
  }

  /** How many endorsements went out between the two states. */
  function Endorsed(s: Node, s1: Node): nat {
    if s.endorsementPending && !s1.endorsementPending && s.tipHeight >= s.largestTarget then 1 else 0
  }

  /** One parent throughout: the endorsement first, and then skips one height at a time. */
  ghost predicate Gapless(s: Node, s1: Node, votes: seq<Vote>) {
    var k := Endorsed(s, s1);
    && s1.height >= s.height
    && s1.tipHeight == s.tipHeight && s1.tipHash == s.tipHash
    && (s1.endorsementPending ==> s.endorsementPending && votes == [] && s1.largestTarget == s.largestTarget)
    && |votes| == k + (s1.height - s.height)
    && (forall i :: 0 <= i < |votes| ==>
         votes[i] == Vote(s.tipHash, s.tipHeight, if i < k then s.tipHeight + 1 else s.height + 1 + (i - k)))
  }

  lemma GaplessCompose(a: Node, b: Node, c: Node, votes: seq<Vote>, more: seq<Vote>)
    requires Gapless(a, b, votes) && Gapless(b, c, more)
    ensures Gapless(a, c, votes + more)
  {
  }

  lemma EndorseGapless(s: Node, now: nat)
    ensures Gapless(s, Endorse(s, now).0, Endorse(s, now).1)
  {
  }

  lemma SkipGapless(s: Node)
    requires !s.endorsementPending
    ensures Gapless(s, SkipOver(s).0, [SkipOver(s).1])
  {
  }

  lemma {:induction false} PollGapless(s: Node, clock: nat, now: nat, iters: nat)
    requires Clocked(s, clock) && clock <= now
    ensures Gapless(s, Poll(s, now, iters).0, Poll(s, now, iters).1)
    decreases iters
  {
    if iters > 0 {
      AssertionsHold(s, clock, now);
      EndorseGapless(s, now);
      var (s1, endorsed) := Endorse(s, now);
      if SkipDue(s1, now) {
        SkipGapless(s1);
        var (s2, skip) := SkipOver(s1);
        PollGapless(s2, now, now, iters - 1);
        var (s3, later) := Poll(s2, now, iters - 1);
        GaplessCompose(s, s1, s2, endorsed, [skip]);
        GaplessCompose(s, s2, s3, endorsed + [skip], later);
      }
    }
  }

  /** After a new tip at height `h`, whatever the polling times: at most one endorsement `h+1`, first, and then
      skips for h+2, h+3, ... without gap or repeat, all with the tip as parent. */
  lemma {:induction false} PollAllGapless(s: Node, clock: nat, times: seq<nat>, limit: nat)
    requires Clocked(s, clock) && Rising(clock, times)
    ensures Gapless(s, PollAll(s, times, limit).0, PollAll(s, times, limit).1)
    decreases |times|
  {
    if times != [] {
      PollGapless(s, clock, times[0], limit);
      PollClocked(s, clock, times[0], limit);
      var (s1, votes) := Poll(s, times[0], limit);
      PollAllGapless(s1, times[0], times[1..], limit);
      var (s2, more) := PollAll(s1, times[1..], limit);
      GaplessCompose(s, s1, s2, votes, more);
    }
  }

  lemma {:induction false} VotesAfterTip(
    s: Node, clock: nat, now: nat, hash: Hash, h: nat, lastFinal: nat, times: seq<nat>, limit: nat)
    requires Clocked(s, clock) && clock <= now && Rising(now, times)
    ensures var (s1, votes) := PollAll(SetTip(s, now, hash, h, lastFinal), times, limit);
            var k := if !s1.endorsementPending && h >= s.largestTarget then 1 else 0;
            && s1.height >= h + 1
            && |votes| == k + (s1.height - (h + 1))
            && forall i :: 0 <= i < |votes| ==> votes[i] == Vote(hash, h, if i < k then h + 1 else h + 2 + (i - k))
  {
    PollAllGapless(SetTip(s, now, hash, h, lastFinal), now, times, limit);
  }

  // ---------------------------------------------------------------------------
  // When approvals go out
  // ---------------------------------------------------------------------------

  /** The delay is the least one up to two heights from the last final block, and grows by one step with every further
      height, up to the greatest one. */
  lemma DelayGrows(d: Delays, n: nat)
    ensures n <= 2 ==> GetDelay(d, n) == Min(d.max, d.min)
    ensures 2 <= n < 0xFFFF_FFFF ==> GetDelay(d, n + 1) == Min(d.max, GetDelay(d, n) + d.step)
    ensures n >= 0xFFFF_FFFF ==> GetDelay(d, n + 1) == GetDelay(d, n)
  {
    if 2 <= n < U32_MAX {
      assert d.step * (n - 1) == d.step * (n - 2) + d.step;
    }
  }

  /** The first `k` delays of a timer at `height`. */
  function DelaySum(d: Delays, height: nat, final: nat, k: nat): nat
    decreases k
  {
    if k == 0 then 0 else GetDelay(d, SaturatingSub(height, final)) + DelaySum(d, height + 1, final, k - 1)
  }

  lemma {:induction false} DelaySumSplit(d: Delays, height: nat, final: nat, a: nat, b: nat)
    ensures DelaySum(d, height, final, a + b) == DelaySum(d, height, final, a) + DelaySum(d, height + a, final, b)
    decreases a
  {
    if a > 0 {
      DelaySumSplit(d, height + 1, final, a - 1, b);
    }
  }

  function Due(s: Node, k: nat): nat {
    s.started + DelaySum(s.delays, s.height, s.largestFinal, k)
  }

  /** The timer has moved on by whole delays. */
  ghost predicate MovedOn(s: Node, s1: Node) {
    && s1.delays == s.delays && s1.largestFinal == s.largestFinal && s1.height >= s.height
    && s1.started == Due(s, s1.height - s.height)
  }

  lemma DueLater(s: Node, s1: Node, k: nat)
    requires MovedOn(s, s1)
    ensures Due(s1, k) == Due(s, s1.height - s.height + k)
  {
    DelaySumSplit(s.delays, s.height, s.largestFinal, s1.height - s.height, k);
  }

  lemma DueRises(s: Node, k: nat, m: nat)
    requires k <= m
    ensures Due(s, k) <= Due(s, m)
  {
    DelaySumSplit(s.delays, s.height, s.largestFinal, k, m - k);
  }

  /** One poll issues skip number `k` exactly if the time for it has come, and the iterations last. */
  lemma {:induction false} PollSkips(s: Node, now: nat, iters: nat, k: nat)
    ensures var s1 := Poll(s, now, iters).0;
            && MovedOn(s, s1) && s1.height <= s.height + iters
            && (0 < k <= iters ==> (s1.height >= s.height + k <==> now >= Due(s, k)))
    decreases iters
  {
    if iters > 0 {
      var s1 := Endorse(s, now).0;
      var next := SkipOver(s1).0;
      assert MovedOn(s, s1);
      if SkipDue(s1, now) {
        assert MovedOn(s, next) && next.height == s.height + 1;
        var j := if k > 0 then k - 1 else 0;
        PollSkips(next, now, iters - 1, j);
        var s2 := Poll(next, now, iters - 1).0;
        DueLater(s, next, s2.height - next.height);
        DueLater(s, next, j);
        assert Poll(s, now, iters).0 == s2;
      } else if k > 0 {
        DueRises(s, 1, k);
        assert Due(s, 1) == s.started + SkipDelay(s);
      }
    }
  }

  /** The endorsement goes out with the first poll after its delay. */
  lemma {:induction false} PollEndorses(s: Node, now: nat, iters: nat)
    requires iters > 0
    ensures var s1 := Poll(s, now, iters).0;
            && s1.delays == s.delays
            && (s1.endorsementPending <==> s.endorsementPending && now < s.lastEndorsementSent + s.delays.endorsement)
            && s1.lastEndorsementSent == (if s.endorsementPending && !s1.endorsementPending then now else s.lastEndorsementSent)
    decreases iters
  {
    var s1 := Endorse(s, now).0;
    if SkipDue(s1, now) && iters > 1 {
      PollEndorses(SkipOver(s1).0, now, iters - 1);
    }
  }

  /** The last of several polls stops on its own. */
  ghost predicate Uncut(s: Node, times: seq<nat>, limit: nat)
    requires times != []
    decreases |times|
  {
    var s1 := Poll(s, times[0], limit).0;
    if |times| == 1 then s1.height < s.height + limit else Uncut(s1, times[1..], limit)
  }

  lemma OnePollSkips(s: Node, now: nat, k: nat, limit: nat)
    requires k > 0 && limit > 0
    ensures var s1 := Poll(s, now, limit).0;
            && (s1.height >= s.height + k ==> now >= Due(s, k))
            && (s1.height < s.height + limit && now >= Due(s, k) ==> s1.height >= s.height + k)
  {
    PollSkips(s, now, limit, k);
    PollSkips(s, now, limit, limit);
    if k > limit {
      DueRises(s, limit, k);
    }
  }

  /** However often the timer is polled, skip number `k` never goes out before its time, and has gone out by then unless the
      last poll was cut off by the iteration limit. */
  lemma {:induction false} PollAllSkips(s: Node, clock: nat, times: seq<nat>, k: nat, limit: nat)
    requires times != [] && Rising(clock, times) && k > 0 && limit > 0
    ensures var s1, last := PollAll(s, times, limit).0, times[|times| - 1];
            && (s1.height >= s.height + k ==> last >= Due(s, k))
            && (Uncut(s, times, limit) && last >= Due(s, k) ==> s1.height >= s.height + k)
            && s1.height >= s.height
    decreases |times|
  {
    var s1 := FirstPoll(s, times, k, limit);
    var rest := times[1..];
    if rest != [] {
      assert rest[|rest| - 1] == times[|times| - 1] && Rising(times[0], rest);
      var m := s1.height - s.height;
      if k > m {
        PollAllSkips(s1, times[0], rest, k - m, limit);
        DueLater(s, s1, k - m);
      } else {
        PollAllSkips(s1, times[0], rest, 1, limit);
      }
    }
  }

  lemma FirstPoll(s: Node, times: seq<nat>, k: nat, limit: nat) returns (s1: Node)
    requires times != [] && k > 0 && limit > 0
    ensures MovedOn(s, s1)
    ensures s1.height >= s.height + k ==> times[0] >= Due(s, k)
    ensures s1.height < s.height + limit && times[0] >= Due(s, k) ==> s1.height >= s.height + k
    ensures PollAll(s, times, limit).0 == (if |times| == 1 then s1 else PollAll(s1, times[1..], limit).0)
    ensures Uncut(s, times, limit) <==> if |times| == 1 then s1.height < s.height + limit else Uncut(s1, times[1..], limit)
  {
    PollSkips(s, times[0], limit, 0);
    OnePollSkips(s, times[0], k, limit);
    s1 := Poll(s, times[0], limit).0;
  }

  lemma {:induction false} PollAllEndorses(s: Node, clock: nat, times: seq<nat>, limit: nat)
    requires times != [] && Rising(clock, times) && limit > 0
    ensures PollAll(s, times, limit).0.endorsementPending <==>
            s.endorsementPending && times[|times| - 1] < s.lastEndorsementSent + s.delays.endorsement
    decreases |times|
  {
    PollEndorses(s, times[0], limit);
    var s1, rest := Poll(s, times[0], limit).0, times[1..];
    if rest != [] {
      assert rest[|rest| - 1] == times[|times| - 1] && Rising(times[0], rest);
      PollAllEndorses(s1, times[0], rest, limit);
    }
  }

  /** After a new tip at height `h`, at time `now`: the endorsement has gone out by the last poll exactly if the endorsement
      delay has passed since the endorsement before; and the skip of `h + 1 + k` exactly if the first `k` delays have passed
      since the tip, where a poll that is cut off may be late but never early. */
  lemma TimesAfterTip(s: Node, now: nat, hash: Hash, h: nat, lastFinal: nat, times: seq<nat>, k: nat, limit: nat)
    requires times != [] && Rising(now, times) && k > 0 && limit > 0
    ensures var s0, last := SetTip(s, now, hash, h, lastFinal), times[|times| - 1];
            var s1, due := PollAll(s0, times, limit).0, now + DelaySum(s.delays, h + 1, lastFinal, k);
            && (s1.endorsementPending <==> last < s.lastEndorsementSent + s.delays.endorsement)
            && (s1.height >= h + 1 + k ==> last >= due)
            && (Uncut(s0, times, limit) && last >= due ==> s1.height >= h + 1 + k)
  {
    var s0 := SetTip(s, now, hash, h, lastFinal);
    PollAllSkips(s0, now, times, k, limit);
    PollAllEndorses(s0, now, times, limit);
  }

  // Two nodes that differ at most in when the last endorsement left.
  ghost predicate SameButSent(a: Node, b: Node) {
    && a == b.(lastEndorsementSent := a.lastEndorsementSent)
    && (a.endorsementPending ==> a == b)
  }

  lemma {:induction false} PollSameButSent(a: Node, b: Node, now: nat, iters: nat)
    requires SameButSent(a, b)
    ensures SameButSent(Poll(a, now, iters).0, Poll(b, now, iters).0)
    ensures Poll(a, now, iters).1 == Poll(b, now, iters).1
    decreases iters
  {
    if iters > 0 {
      var a1, b1 := Endorse(a, now).0, Endorse(b, now).0;
      if SkipDue(a1, now) {
        PollSameButSent(SkipOver(a1).0, SkipOver(b1).0, now, iters - 1);
      }
    }
  }

  /** A loop that stops on its own does not depend on how many iterations it was allowed. */
  lemma {:induction false} PollEnough(s: Node, now: nat, iters: nat, more: nat)
    requires Poll(s, now, iters).0.height < s.height + iters
    requires iters <= more
    ensures Poll(s, now, more) == Poll(s, now, iters)
    decreases iters
  {
    var s1 := Endorse(s, now).0;
    if SkipDue(s1, now) {
      PollEnough(SkipOver(s1).0, now, iters - 1, more - 1);
    }
  }

  /** Polling at `t1` and again at `t2` issues what polling at `t2` alone issues. */
  ghost predicate TwiceIsOnce(s: Node, t1: nat, t2: nat, iters: nat, limit: nat) {
    var (s1, votes) := Poll(s, t1, iters);
    var (s2, more) := Poll(s1, t2, limit);
    votes + more == Poll(s, t2, iters).1 && SameButSent(s2, Poll(s, t2, iters).0)
  }

  /** A skip in front of two polls is a skip in front of the one poll. */
  lemma {:induction false} SkipInFront(s: Node, t1: nat, t2: nat, iters: nat, limit: nat)
    requires iters > 0 && t1 <= t2
    requires var s1 := Endorse(s, t1).0;
             SkipDue(s1, t1) && !s1.endorsementPending && TwiceIsOnce(SkipOver(s1).0, t1, t2, iters - 1, limit)
    ensures TwiceIsOnce(s, t1, t2, iters, limit)
  {
    var (s1, endorsed) := Endorse(s, t1);
    var (next, skip) := SkipOver(s1);
    var next' := SkipOver(Endorse(s, t2).0).0;
    PollSameButSent(next, next', t2, iters - 1);
    PollOnce(s, t1, iters);
    PollOnce(s, t2, iters);
    var (s2, later) := Poll(next, t1, iters - 1);
    Regrouped(endorsed + [skip], later, Poll(s2, t2, limit).1);
  }

  /** Whatever the limit of iterations, as long as the one poll stops on its own. */
  lemma {:induction false} PollTwice(s: Node, clock: nat, t1: nat, t2: nat, iters: nat, limit: nat)
    requires Clocked(s, clock) && clock <= t1 <= t2
    requires iters <= limit
    requires Poll(s, t2, iters).0.height < s.height + iters
    ensures TwiceIsOnce(s, t1, t2, iters, limit)
    decreases iters
  {
    AssertionsHold(s, clock, t1);
    var s1 := Endorse(s, t1).0;
    if SkipDue(s1, t1) {
      var next, next' := SkipOver(s1).0, SkipOver(Endorse(s, t2).0).0;
      PollSameButSent(next, next', t2, iters - 1);
      PollOnce(s, t2, iters);
      PollTwice(next, t1, t1, t2, iters - 1, limit);
      SkipInFront(s, t1, t2, iters, limit);
    } else {
      PollEnough(s, t2, iters, limit);
      PollAfterNoSkip(s, t1, t2, limit);
    }
  }

  lemma {:induction false} PollAfterNoSkip(s: Node, t1: nat, t2: nat, iters: nat)
    requires t1 <= t2 && iters > 0
    ensures var (s1, endorsed) := Endorse(s, t1);
            && endorsed + Poll(s1, t2, iters).1 == Poll(s, t2, iters).1
            && SameButSent(Poll(s1, t2, iters).0, Poll(s, t2, iters).0)
  {
    if EndorsementDue(s, t1) {
      PollAfterEndorse(s, t1, t2, iters);
    } else {
      assert [] + Poll(s, t2, iters).1 == Poll(s, t2, iters).1;
    }
  }

  lemma {:induction false} PollAfterEndorse(s: Node, t1: nat, t2: nat, iters: nat)
    requires EndorsementDue(s, t1) && t1 <= t2 && iters > 0
    ensures var (s1, endorsed) := Endorse(s, t1);
            && endorsed + Poll(s1, t2, iters).1 == Poll(s, t2, iters).1
            && SameButSent(Poll(s1, t2, iters).0, Poll(s, t2, iters).0)
  {
    var (s1, endorsed) := Endorse(s, t1);
    var s1' := Endorse(s, t2).0;
    assert SameButSent(s1, s1') && Endorse(s1, t2) == (s1, []) && Endorse(s, t2).1 == endorsed;
    if SkipDue(s1, t2) {
      var (n, skip) := SkipOver(s1);
      var n' := SkipOver(s1').0;
      PollSameButSent(n, n', t2, iters - 1);
      PollOnce(s1, t2, iters);
      PollOnce(s, t2, iters);
      assert endorsed + ([] + [skip] + Poll(n, t2, iters - 1).1) == endorsed + [skip] + Poll(n, t2, iters - 1).1;
    } else {
      assert endorsed + [] == endorsed;
    }
  }

  lemma {:induction false} PollOnce(s: Node, now: nat, iters: nat)
    requires iters > 0 && SkipDue(Endorse(s, now).0, now)
    ensures var (s1, endorsed) := Endorse(s, now);
            var (s2, skip) := SkipOver(s1);
            Poll(s, now, iters) == (Poll(s2, now, iters - 1).0, endorsed + [skip] + Poll(s2, now, iters - 1).1)
  {
  }

  /** Polling is independent of how often it happens: any rising times up to `last` give the approvals of one poll
      at `last`, as long as that one poll is not cut off by the iteration limit. */
  lemma {:induction false} PollingIndependence(s: Node, clock: nat, times: seq<nat>, last: nat, limit: nat)
    requires Clocked(s, clock) && Rising(clock, times + [last])
    requires Poll(s, last, limit).0.height < s.height + limit
    ensures PollAll(s, times + [last], limit).1 == Poll(s, last, limit).1
    ensures SameButSent(PollAll(s, times + [last], limit).0, Poll(s, last, limit).0)
    decreases |times|
  {
    var single := Poll(s, last, limit);
    if times == [] {
      assert (times + [last])[1..] == [];
      assert PollAll(single.0, [], limit) == (single.0, []);
      assert single.1 + [] == single.1;
    } else {
      var t := times[0];
      assert (times + [last])[0] == t && (times + [last])[1..] == times[1..] + [last];
      assert t <= (times + [last])[|times|] == last;
      PollTwice(s, clock, t, last, limit, limit);
      PollClocked(s, clock, t, limit);
      PollGapless(s, clock, t, limit);
      var (s1, votes) := Poll(s, t, limit);
      PollingIndependence(s1, t, times[1..], last, limit);
    }
  }
}
