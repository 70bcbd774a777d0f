/**
 Creation of flat storage: a persisted state machine and worker threads build a
 flat copy of the state at a final block and then replay deltas, following the
 links of the canonical chain, until the copy meets the moving final head.

 Nothing stands for a panic.
 */
module FlatStorage {
  import opened Prelude
  import opened BlockTree
  import opened CanonicalChain

  type Key = string
  type Value = int
  type State = map<Key, Value>

  /** A delta: new values, and deletions. */
  type Changes = map<Key, Option<Value>>

  datatype Delta = Delta(height: nat, changes: Changes)

  const NUM_PARTS_IN_ONE_STEP: nat := 20
  const CATCH_UP_BLOCKS: nat := 50

  datatype Status =
    | Empty
    | SavingDeltas
    | FetchingState(block: Hash, partId: nat, partsInStep: nat, numParts: nat)
    | CatchingUp(flatHead: Hash)
    | Ready(flatHead: Hash)

  /** The chain, what is on disk, and what is only in memory. */
  datatype Sys = Sys(
    // the chain: its headers and links, every block processed so far with the state after it, the tail, below which the
    // links and the tries are collected, and the height of the head when the node started
    chain: Chain, seen: map<Hash, Delta>, states: map<Hash, State>, tail: nat, startHeight: nat,
    // on disk; `parts` are the key-values of the state parts of the block being fetched
    status: Status, flat: State, deltas: map<Hash, Delta>, parts: seq<State>,
    // in memory: jobs not yet committed, jobs not yet reported, reports not yet read
    remaining: Option<nat>, running: set<nat>, unreported: set<nat>, channel: nat,
    // in memory: the final head was reached and the second commit of this call is due
    finishing: bool)

  function Range(lo: nat, hi: nat): (r: set<nat>)
    ensures forall p :: p in r <==> lo <= p < hi
    ensures |r| == if lo <= hi then hi - lo else 0
    decreases if lo <= hi then hi - lo else 0
  {
    if lo >= hi then {} else {lo} + Range(lo + 1, hi)
  }

  function Apply(m: State, c: Changes): State {
    map k | k in m.Keys + c.Keys && (k in c ==> c[k].Some?) :: if k in c then c[k].value else m[k]
  }

  function Merge(a: Changes, b: Changes): Changes {
    a + b
  }

  /** A delta writes and deletes exactly the keys it names. */
  lemma ApplyExact(m: State, c: Changes, k: Key)
    ensures k in c ==> (k in Apply(m, c) <==> c[k].Some?) && (c[k].Some? ==> Apply(m, c)[k] == c[k].value)
    ensures k !in c ==> (k in Apply(m, c) <==> k in m) && (k in m ==> Apply(m, c)[k] == m[k])
  {
  }

  /** Merging deltas and applying once is applying them one by one. */
  lemma ApplyMerge(m: State, a: Changes, b: Changes)
    ensures Apply(m, Merge(a, b)) == Apply(Apply(m, a), b)
  {
  }

  lemma ApplyNothing(m: State)
    ensures Apply(m, map[]) == m
  {
  }

  // ---------------------------------------------------------------------------
  // The chain
  // ---------------------------------------------------------------------------

  /** A processed block has a header, and its state is that of its parent with its changes. */
  ghost predicate Sound(s: Sys, x: Hash) {
    && x in s.chain.headers && x in s.seen && x in s.states && s.chain.headers[x].height == s.seen[x].height
    && (x != s.chain.root ==>
         && s.chain.headers[x].prev in s.seen && s.chain.headers[x].prev in s.states
         && s.states[x] == Apply(s.states[s.chain.headers[x].prev], s.seen[x].changes))
  }

  ghost predicate ChainOk(s: Sys) {
    && Finalized(s.chain) && s.chain.final in s.seen
    && (forall x {:trigger Sound(s, x)} :: x in s.seen ==> Sound(s, x))
  }

  /** A processed block that is the final head or one of its ancestors. */
  ghost predicate OnFinal(s: Sys, b: Hash) {
    b in s.seen && s.chain.final in s.chain.headers && IsAncestor(s.chain.headers, b, s.chain.final)
  }

  /** The delta of every block above height `h` is on disk. */
  ghost predicate SavedAbove(s: Sys, h: nat) {
    forall x :: x in s.seen && s.seen[x].height > h ==> x in s.deltas && s.deltas[x] == s.seen[x]
  }

  ghost predicate DeltasReal(s: Sys) {
    forall x :: x in s.deltas ==> x in s.seen && s.deltas[x] == s.seen[x]
  }

  /** The parts cover the state: every part belongs to it, and every key is in some part. */
  ghost predicate Covers(parts: seq<State>, state: State) {
    && (forall p :: 0 <= p < |parts| ==> Within(parts[p], state))
    && (forall k :: k in state ==> exists p :: 0 <= p < |parts| && k in parts[p])
  }

  function StepEnd(partId: nat, partsInStep: nat, numParts: nat): nat {
    Min(numParts, partId + partsInStep)
  }

  /** The parts below `n`, except those of `running` jobs, are committed. */
  ghost predicate Fetched(s: Sys, n: nat, running: set<nat>)
    requires n <= |s.parts|
  {
    forall p :: 0 <= p < n && p !in running ==> Within(s.parts[p], s.flat)
  }

  // ---------------------------------------------------------------------------
  // The invariant
  // ---------------------------------------------------------------------------

  ghost predicate NoJobs(s: Sys) {
    s.remaining == None && s.running == {} && s.unreported == {} && s.channel == 0
  }

  /** What is left to wait for is exactly the unfinished jobs and the unread reports. */
  ghost predicate JobsOk(s: Sys, lo: nat, hi: nat) {
    || NoJobs(s)
    || (&& s.remaining == Some(|s.running| + |s.unreported| + s.channel)
        && s.running !! s.unreported
        && (forall p :: p in s.running || p in s.unreported ==> lo <= p < hi))
  }

  /** The flat copy is the state at a block on the final chain, and the deltas above it are there. */
  ghost predicate FlatAt(s: Sys, head: Hash) {
    OnFinal(s, head) && head in s.states && s.flat == s.states[head] && SavedAbove(s, s.seen[head].height)
  }

  ghost predicate StatusOk(s: Sys) {
    match s.status
    case Empty => NoJobs(s) && s.flat == map[] && SavedAbove(s, s.startHeight)
    case SavingDeltas => NoJobs(s) && s.flat == map[] && SavedAbove(s, s.startHeight)
    case FetchingState(b, partId, partsInStep, numParts) =>
      && OnFinal(s, b) && b in s.states && SavedAbove(s, s.seen[b].height)
      && partsInStep > 0 && partId < numParts == |s.parts|
      && Covers(s.parts, s.states[b]) && Within(s.flat, s.states[b])
      && JobsOk(s, partId, StepEnd(partId, partsInStep, numParts))
      && (if s.remaining == None then Fetched(s, partId, {})
          else Fetched(s, StepEnd(partId, partsInStep, numParts), s.running))
    case CatchingUp(head) => NoJobs(s) && FlatAt(s, head)
    case Ready(head) => NoJobs(s) && FlatAt(s, head)
  }

  ghost predicate Inv(s: Sys) {
    && ChainOk(s) && DeltasReal(s) && StatusOk(s)
    && (s.finishing ==> s.status.CatchingUp?)
  }

  // ---------------------------------------------------------------------------
  // Steps of the main thread: `update_status`
  // ---------------------------------------------------------------------------

  /** One job is spawned for every part of the range. */
  function Spawned(s: Sys): Sys
    requires s.status.FetchingState? && s.status.partId <= s.status.numParts
  {
    var next := StepEnd(s.status.partId, s.status.partsInStep, s.status.numParts);
    s.(running := Range(s.status.partId, next), remaining := Some(next - s.status.partId))
  }

  /** All reports there are get read. */
  function ReportsRead(s: Sys): Sys
    requires s.remaining.Some? && s.channel <= s.remaining.value
  {
    s.(remaining := Some(s.remaining.value - s.channel), channel := 0)
  }

  /** The next range, or the catch-up, begins. */
  function RangeDone(s: Sys): Sys
    requires s.status.FetchingState?
  {
    var FetchingState(b, partId, partsInStep, numParts) := s.status;
    var next := StepEnd(partId, partsInStep, numParts);
    if next < numParts then
      s.(remaining := None, status := FetchingState(b, next, partsInStep, numParts))
    else
      s.(remaining := None, deltas := s.deltas - {b}, status := CatchingUp(b))
  }

  function FetchStep(s: Sys): Option<Sys>
    requires s.status.FetchingState?
  {
    if s.status.partId > s.status.numParts then None
    else if s.remaining == None then Some(Spawned(s))
    else if s.remaining.value == 0 then Some(RangeDone(s))
    else if s.channel > s.remaining.value then None
    else Some(ReportsRead(s))
  }

  /** Where the catch-up loop stands. */
  datatype Progress = Progress(head: Hash, changes: Changes, removed: set<Hash>)

  /** The loop, with `k` iterations left. */
  function Advance(s: Sys, p: Progress, k: nat): Option<Progress>
    decreases k
  {
    if k == 0 then Some(p)
    else if p.head !in s.chain.headers || s.chain.final !in s.chain.headers then None
    // "New flat head moved too far"
    else if s.chain.headers[p.head].height > s.chain.headers[s.chain.final].height then None
    else if p.head == s.chain.final then Some(p)
    else if p.head !in s.chain.next || s.chain.headers[p.head].height < s.tail then None
    else if s.chain.next[p.head] !in s.deltas then None
    else
      var n := s.chain.next[p.head];
      Advance(s, Progress(n, Merge(p.changes, s.deltas[n].changes), p.removed + {n}), k - 1)
  }

  function Caught(s: Sys, p: Progress): Sys
    requires s.status.CatchingUp?
  {
    if p.head == s.status.flatHead && p.head != s.chain.final then s
    else
      s.(flat := Apply(s.flat, p.changes), deltas := s.deltas - p.removed, status := CatchingUp(p.head),
         finishing := p.head == s.chain.final)
  }

  /** First commit: up to 50 deltas are merged, applied, and removed. */
  function CatchUpCommit(s: Sys): Option<Sys>
    requires s.status.CatchingUp?
  {
    var p := Advance(s, Progress(s.status.flatHead, map[], {}), CATCH_UP_BLOCKS);
    if p == None then None else Some(Caught(s, p.value))
  }

  function AboveHeight(deltas: map<Hash, Delta>, h: nat): map<Hash, Delta> {
    map x | x in deltas && deltas[x].height > h :: deltas[x]
  }

  /** Second commit, once the final head is reached: the deltas of forks that can no longer win are removed. */
  function ReadyCommit(s: Sys): Option<Sys>
    requires s.status.CatchingUp?
  {
    if s.status.flatHead !in s.chain.headers then None
    else Some(s.(deltas := AboveHeight(s.deltas, s.chain.headers[s.status.flatHead].height),
                 status := Ready(s.status.flatHead),
                 finishing := false))
  }

  /** Fetching starts once the final head is above where the node started; every later delta must be there. */
  function SavingStep(s: Sys, parts: seq<State>): Option<Sys> {
    if s.chain.final !in s.chain.headers then None
    else
      var height := s.chain.headers[s.chain.final].height;
      if height <= s.startHeight then Some(s)
      else if exists x :: x in s.seen && s.seen[x].height > height && x !in s.deltas then None
      else Some(s.(status := FetchingState(s.chain.final, 0, NUM_PARTS_IN_ONE_STEP, |parts|), parts := parts))
  }

  /** A call up to its first commit.  `parts` is the division into parts, should fetching start now. */
  function BeginUpdate(s: Sys, parts: seq<State>): Option<Sys>
    requires !s.finishing
  {
    match s.status
    case Empty => Some(s.(status := SavingDeltas))
    case SavingDeltas => SavingStep(s, parts)
    case FetchingState(_, _, _, _) => FetchStep(s)
    case CatchingUp(_) => CatchUpCommit(s)
    case Ready(_) => Some(s)
  }

  /** One call of `update_status`. */
  function Updated(s: Sys, parts: seq<State>): Option<Sys>
    requires !s.finishing
  {
    var s1 := BeginUpdate(s, parts);
    if s1.Some? && s1.value.finishing && s1.value.status.CatchingUp? then ReadyCommit(s1.value) else s1
  }

  // ---------------------------------------------------------------------------
  // All steps
  // ---------------------------------------------------------------------------

  /** The trie of the final head falls into one or more parts that cover it. */
  ghost predicate Divides(s: Sys, parts: seq<State>) {
    parts != [] && s.chain.final in s.states && Covers(parts, s.states[s.chain.final])
  }

  /** The trie of the block being fetched is not collected. */
  predicate TrieKept(s: Sys) {
    s.status.FetchingState? ==> s.status.block in s.chain.headers && s.tail <= s.chain.headers[s.status.block].height
  }

  /** A worker writes the items of its part in one commit ... */
  function JobCommitted(s: Sys, p: nat): Sys
    requires p < |s.parts|
  {
    s.(flat := s.flat + s.parts[p], running := s.running - {p}, unreported := s.unreported + {p})
  }

  /** ... and then reports it. */
  function JobReported(s: Sys, p: nat): Sys {
    s.(unreported := s.unreported - {p}, channel := s.channel + 1)
  }

  /** A block, on whatever fork, is processed: its delta is saved. */
  function BlockProcessed(s: Sys, x: Hash, changes: Changes): Sys
    requires x in s.chain.headers && s.chain.headers[x].prev in s.states
  {
    var d := Delta(s.chain.headers[x].height, changes);
    s.(seen := s.seen[x := d], deltas := s.deltas[x := d],
       states := s.states[x := Apply(s.states[s.chain.headers[x].prev], changes)])
  }

  /** The node stops at any point and starts again with its head at height `h`. */
  function Restarted(s: Sys, h: nat): Sys {
    s.(remaining := None, running := {}, unreported := {}, channel := 0, finishing := false, startHeight := h)
  }

  ghost predicate UpdateBegins(s: Sys, s': Sys, parts: seq<State>) {
    !s.finishing && Divides(s, parts) && BeginUpdate(s, parts) == Some(s')
  }

  ghost predicate UpdateEnds(s: Sys, s': Sys) {
    s.finishing && s.status.CatchingUp? && ReadyCommit(s) == Some(s')
  }

  ghost predicate WorkerStep(s: Sys, s': Sys, p: nat) {
    || (p in s.running && p < |s.parts| && TrieKept(s) && s' == JobCommitted(s, p))
    || (p in s.unreported && s' == JobReported(s, p))
  }

  ghost predicate HeaderStep(s: Sys, s': Sys, x: Hash, b: Block) {
    NewHeader(s.chain, x, b) && s' == s.(chain := HeaderAdded(s.chain, x, b))
  }

  ghost predicate BlockStep(s: Sys, s': Sys, x: Hash, changes: Changes) {
    && x in s.chain.headers && x !in s.seen && s.chain.headers[x].prev in s.seen && s.chain.headers[x].prev in s.states
    && s' == BlockProcessed(s, x, changes)
  }

  /** A new head, possibly on another fork; that it descends from the final head is the safety of consensus. */
  ghost predicate HeadStep(s: Sys, s': Sys, x: Hash) {
    && IsTree(s.chain.headers, s.chain.root) && s.chain.head in s.chain.headers
    && x in s.chain.headers && IsAncestor(s.chain.headers, s.chain.final, x)
    && HeadSaved(s.chain, x).Some? && s' == s.(chain := HeadSaved(s.chain, x).value)
  }

  /** The final head moves up the canonical chain, by any number of blocks. */
  ghost predicate FinalStep(s: Sys, s': Sys, f: Hash) {
    && f in s.seen && f in s.chain.headers && s.chain.final in s.chain.headers && s.chain.head in s.chain.headers
    && s.chain.headers[f].height > s.chain.headers[s.chain.final].height && IsAncestor(s.chain.headers, f, s.chain.head)
    && s' == s.(chain := s.chain.(final := f))
  }

  ghost predicate RestartStep(s: Sys, s': Sys, h: nat) {
    (forall x :: x in s.seen ==> s.seen[x].height <= h) && s' == Restarted(s, h)
  }

  ghost predicate AboveTail(c: Chain, tail: nat, b: Hash) {
    b in c.headers ==> tail <= c.headers[b].height
  }

  /** The tail has not passed a block whose link or trie is needed: the final head, and the block that is fetched or
      caught up from. */
  ghost predicate Spares(c: Chain, tail: nat, status: Status) {
    && AboveTail(c, tail, c.final)
    && (status.FetchingState? ==> AboveTail(c, tail, status.block))
    && (status.CatchingUp? ==> AboveTail(c, tail, status.flatHead))
  }

  ghost predicate TailOk(s: Sys) {
    Spares(s.chain, s.tail, s.status)
  }

  /** Garbage collection moves the tail, but not past a block that is needed. */
  ghost predicate TailStep(s: Sys, s': Sys, tail: nat) {
    s.tail <= tail && s' == s.(tail := tail) && TailOk(s')
  }

  ghost predicate ChainStep(s: Sys, s': Sys) {
    || (exists x, b :: HeaderStep(s, s', x, b))
    || (exists x, changes :: BlockStep(s, s', x, changes))
    || (exists x :: HeadStep(s, s', x))
    || (exists f :: FinalStep(s, s', f))
    || (exists tail :: TailStep(s, s', tail))
  }

  ghost predicate Next(s: Sys, s': Sys) {
    || (exists parts :: UpdateBegins(s, s', parts))
    || UpdateEnds(s, s')
    || (exists p :: WorkerStep(s, s', p))
    || ChainStep(s, s')
    || (exists h :: RestartStep(s, s', h))
  }

  // ---------------------------------------------------------------------------
  // Following the chain
  // ---------------------------------------------------------------------------

  /** Number of blocks from `a` up to `x`. */
  ghost function Distance(t: Tree, a: Hash, x: Hash): nat
    requires x in t
    decreases t[x].height
  {
    if a == x || t[x].prev !in t || t[t[x].prev].height >= t[x].height then 0 else 1 + Distance(t, a, t[x].prev)
  }

  lemma {:induction false} DistanceStep(t: Tree, b: Hash, n: Hash, f: Hash)
    requires f in t && n in t && b in t && t[n].prev == b && t[b].height < t[n].height && IsAncestor(t, n, f)
    ensures b != f && Distance(t, b, f) == Distance(t, n, f) + 1
    decreases t[f].height
  {
    AncestorLower(t, n, f);
    if n != f {
      DistanceStep(t, b, n, t[f].prev);
    }
  }

  lemma {:induction false} DistanceZero(t: Tree, b: Hash, f: Hash)
    requires f in t && IsAncestor(t, b, f) && Distance(t, b, f) == 0
    ensures b == f
  {
  }

  /** Ancestors of the final head are processed. */
  lemma {:induction false} AncestorSeen(s: Sys, b: Hash, f: Hash)
    requires ChainOk(s) && f in s.seen && f in s.chain.headers && IsAncestor(s.chain.headers, b, f)
    ensures b in s.seen
    decreases s.chain.headers[f].height
  {
    assert Sound(s, f);
    if b != f {
      assert f != s.chain.root;
      AncestorSeen(s, b, s.chain.headers[f].prev);
    }
  }

  /** From a block below the final head the link leads to a child that is the final head or one of its ancestors, and
      its delta is on disk: neither lookup of the loop can fail. */
  lemma NextOnFinal(s: Sys, b: Hash)
    requires ChainOk(s) && OnFinal(s, b) && b != s.chain.final && SavedAbove(s, s.seen[b].height)
    ensures b in s.chain.next
    ensures var n := s.chain.next[b];
            && OnFinal(s, n) && n in s.deltas && s.deltas[n] == s.seen[n] && s.seen[n].height > s.seen[b].height
            && n in s.chain.headers && n in s.states && b in s.states
            && s.chain.headers[n].prev == b && s.states[n] == Apply(s.states[b], s.seen[n].changes)
            && Distance(s.chain.headers, b, s.chain.final) == Distance(s.chain.headers, n, s.chain.final) + 1
  {
    var c := s.chain;
    AncestorLower(c.headers, b, c.final);
    NextTowards(c, b, c.final);
    var n := c.next[b];
    AncestorSeen(s, n, c.final);
    assert Sound(s, n) && Sound(s, b);
    assert n != c.root;
    DistanceStep(c.headers, b, n, c.final);
  }

  /** The flat head never passes the final head, so the loop does not panic there. */
  lemma NotTooFar(s: Sys, b: Hash)
    requires ChainOk(s) && OnFinal(s, b)
    ensures b in s.chain.headers && s.chain.headers[b].height <= s.chain.headers[s.chain.final].height
    ensures s.seen[b].height == s.chain.headers[b].height
  {
    AncestorLower(s.chain.headers, b, s.chain.final);
    assert Sound(s, b);
  }

  ghost predicate Advanced(s: Sys, p: Progress, q: Progress, k: nat, base: State)
    requires ChainOk(s) && OnFinal(s, p.head)
  {
    && OnFinal(s, q.head) && q.head in s.states && Apply(base, q.changes) == s.states[q.head]
    && s.seen[q.head].height >= s.seen[p.head].height
    && (forall x :: x in q.removed ==>
         x in p.removed || (x in s.seen && s.seen[p.head].height < s.seen[x].height <= s.seen[q.head].height))
    && var d := Distance(s.chain.headers, p.head, s.chain.final);
       if d <= k then q.head == s.chain.final else Distance(s.chain.headers, q.head, s.chain.final) == d - k
  }

  /** The loop finishes without a panic, on the final chain, with the changes that lead there. */
  lemma {:induction false} AdvanceEffect(s: Sys, p: Progress, k: nat, base: State)
    requires ChainOk(s) && OnFinal(s, p.head) && p.head in s.states && SavedAbove(s, s.seen[p.head].height)
    requires Apply(base, p.changes) == s.states[p.head]
    requires p.head in s.chain.headers && (p.head == s.chain.final || s.tail <= s.chain.headers[p.head].height)
    ensures Advance(s, p, k).Some? && Advanced(s, p, Advance(s, p, k).value, k, base)
    decreases k
  {
    NotTooFar(s, p.head);
    if p.head == s.chain.final || k == 0 {
      if Distance(s.chain.headers, p.head, s.chain.final) == 0 {
        DistanceZero(s.chain.headers, p.head, s.chain.final);
      }
    } else {
      NextOnFinal(s, p.head);
      var n := s.chain.next[p.head];
      var p1 := Progress(n, Merge(p.changes, s.deltas[n].changes), p.removed + {n});
      ApplyMerge(base, p.changes, s.deltas[n].changes);
      assert Sound(s, n);
      AdvanceEffect(s, p1, k - 1, base);
    }
  }

  /** A block of the final chain with a height in (lo, hi]. */
  ghost predicate OnWay(c: Chain, lo: nat, hi: nat, x: Hash) {
    && x in c.headers && c.final in c.headers && IsAncestor(c.headers, x, c.final)
    && lo < c.headers[x].height <= hi
  }

  /** The link of a block leads to the next block of the final chain: there is none between. */
  lemma NextOnWay(s: Sys, b: Hash, hi: nat, x: Hash)
    requires ChainOk(s) && OnFinal(s, b) && b != s.chain.final && SavedAbove(s, s.seen[b].height)
    requires b in s.chain.headers && b in s.chain.next && s.chain.next[b] in s.chain.headers
    requires hi >= s.chain.headers[s.chain.next[b]].height
    ensures OnWay(s.chain, s.chain.headers[b].height, hi, x) <==>
            x == s.chain.next[b] || OnWay(s.chain, s.chain.headers[s.chain.next[b]].height, hi, x)
  {
    var t, f, n := s.chain.headers, s.chain.final, s.chain.next[b];
    NextOnFinal(s, b);
    assert Sound(s, n) && Sound(s, b);
    if OnWay(s.chain, t[b].height, hi, x) && t[x].height <= t[n].height {
      Comparable(t, x, n, f);
      if x != n {
        AncestorLower(t, x, t[n].prev);
      }
    }
  }

  /** What the loop removes: exactly the deltas of the blocks it passes. */
  lemma {:induction false} AdvanceRemoves(s: Sys, p: Progress, k: nat, base: State, x: Hash)
    requires ChainOk(s) && OnFinal(s, p.head) && p.head in s.states && SavedAbove(s, s.seen[p.head].height)
    requires Apply(base, p.changes) == s.states[p.head]
    requires p.head in s.chain.headers && (p.head == s.chain.final || s.tail <= s.chain.headers[p.head].height)
    ensures Advance(s, p, k).Some?
    ensures var q := Advance(s, p, k).value;
            && q.head in s.chain.headers && s.chain.headers[q.head].height >= s.chain.headers[p.head].height
            && (x in q.removed <==>
                x in p.removed || OnWay(s.chain, s.chain.headers[p.head].height, s.chain.headers[q.head].height, x))
    decreases k
  {
    NotTooFar(s, p.head);
    if p.head != s.chain.final && k > 0 {
      NextOnFinal(s, p.head);
      var n := s.chain.next[p.head];
      var p1 := Progress(n, Merge(p.changes, s.deltas[n].changes), p.removed + {n});
      ApplyMerge(base, p.changes, s.deltas[n].changes);
      assert Sound(s, n);
      AdvanceRemoves(s, p1, k - 1, base, x);
      NextOnWay(s, p.head, s.chain.headers[Advance(s, p1, k - 1).value.head].height, x);
    }
  }

  // ---------------------------------------------------------------------------
  // Every step keeps the invariant
  // ---------------------------------------------------------------------------

  lemma CoverComplete(parts: seq<State>, flat: State, state: State)
    requires Covers(parts, state) && Within(flat, state)
    requires forall p :: 0 <= p < |parts| ==> Within(parts[p], flat)
    ensures flat == state
  {
    forall k | k in state ensures k in flat {
      var p :| 0 <= p < |parts| && k in parts[p];
      assert Within(parts[p], flat);
    }
  }

  /** What concerns the chain is not touched when only the flat state, the status and the jobs change. */
  lemma SameChain(s: Sys, s': Sys)
    requires ChainOk(s) && s'.chain == s.chain && s'.seen == s.seen && s'.states == s.states
    ensures ChainOk(s')
    ensures forall b :: OnFinal(s, b) <==> OnFinal(s', b)
  {
    forall x | x in s'.seen ensures Sound(s', x) {
      assert Sound(s, x);
    }
  }

  lemma SpawnedKeepsInv(s: Sys)
    requires Inv(s) && s.status.FetchingState? && !s.finishing && s.remaining == None
    ensures Inv(Spawned(s))
  {
    SameChain(s, Spawned(s));
  }

  lemma ReportsReadKeepsInv(s: Sys)
    requires Inv(s) && s.status.FetchingState? && !s.finishing && s.remaining.Some?
    ensures s.channel <= s.remaining.value && Inv(ReportsRead(s))
  {
    assert !NoJobs(s);
    SameChain(s, ReportsRead(s));
  }

  lemma NextRangeKeepsInv(s: Sys)
    requires Inv(s) && s.status.FetchingState? && !s.finishing && s.remaining == Some(0)
    requires StepEnd(s.status.partId, s.status.partsInStep, s.status.numParts) < s.status.numParts
    ensures Inv(RangeDone(s))
  {
    assert !NoJobs(s);
    SameChain(s, RangeDone(s));
  }

  lemma LastRangeKeepsInv(s: Sys)
    requires Inv(s) && s.status.FetchingState? && !s.finishing && s.remaining == Some(0)
    requires StepEnd(s.status.partId, s.status.partsInStep, s.status.numParts) == s.status.numParts
    ensures Inv(RangeDone(s))
  {
    assert !NoJobs(s);
    SameChain(s, RangeDone(s));
    CoverComplete(s.parts, s.flat, s.states[s.status.block]);
  }

  lemma FetchKeepsInv(s: Sys)
    requires Inv(s) && s.status.FetchingState? && !s.finishing
    ensures FetchStep(s).Some? && Inv(FetchStep(s).value) && !FetchStep(s).value.finishing
  {
    if s.remaining == None {
      SpawnedKeepsInv(s);
    } else if s.remaining.value > 0 {
      ReportsReadKeepsInv(s);
    } else if StepEnd(s.status.partId, s.status.partsInStep, s.status.numParts) < s.status.numParts {
      NextRangeKeepsInv(s);
    } else {
      LastRangeKeepsInv(s);
    }
  }

  lemma CaughtKeepsInv(s: Sys, p: Progress)
    requires Inv(s) && s.status.CatchingUp? && !s.finishing
    requires Advanced(s, Progress(s.status.flatHead, map[], {}), p, CATCH_UP_BLOCKS, s.flat)
    ensures Inv(Caught(s, p))
  {
    var s' := Caught(s, p);
    SameChain(s, s');
    forall x | x in s'.seen && s'.seen[x].height > s'.seen[p.head].height ensures x in s'.deltas && s'.deltas[x] == s'.seen[x] {
      assert x in s.deltas && x !in p.removed;
    }
  }

  /** The link of the flat head is there, if it is needed. */
  ghost predicate LinkKept(s: Sys) {
    s.status.CatchingUp? ==>
      && s.status.flatHead in s.chain.headers
      && (s.status.flatHead == s.chain.final || s.tail <= s.chain.headers[s.status.flatHead].height)
  }

  lemma CatchUpKeepsInv(s: Sys)
    requires Inv(s) && LinkKept(s) && s.status.CatchingUp? && !s.finishing
    ensures CatchUpCommit(s).Some? && Inv(CatchUpCommit(s).value)
  {
    ApplyNothing(s.flat);
    var p := Progress(s.status.flatHead, map[], {});
    AdvanceEffect(s, p, CATCH_UP_BLOCKS, s.flat);
    CaughtKeepsInv(s, Advance(s, p, CATCH_UP_BLOCKS).value);
  }

  /** A call that catches up panics if and only if the tail has passed a flat head below the final head. */
  lemma CatchUpPanicsIff(s: Sys)
    requires Inv(s) && s.status.CatchingUp? && !s.finishing
    ensures CatchUpCommit(s) == None <==> !LinkKept(s)
  {
    NotTooFar(s, s.status.flatHead);
    if LinkKept(s) {
      CatchUpKeepsInv(s);
    }
  }

  lemma ReadyKeepsInv(s: Sys)
    requires Inv(s) && s.status.CatchingUp?
    ensures ReadyCommit(s).Some? && Inv(ReadyCommit(s).value)
  {
    NotTooFar(s, s.status.flatHead);
    SameChain(s, ReadyCommit(s).value);
  }

  lemma SavingKeepsInv(s: Sys, parts: seq<State>)
    requires Inv(s) && s.status.SavingDeltas? && !s.finishing && Divides(s, parts)
    ensures SavingStep(s, parts).Some? && Inv(SavingStep(s, parts).value) && !SavingStep(s, parts).value.finishing
  {
    NotTooFar(s, s.chain.final);
    SameChain(s, SavingStep(s, parts).value);
  }

  /** A call does not panic and keeps the invariant, at its first commit and at its end. */
  lemma UpdateKeepsInv(s: Sys, parts: seq<State>)
    requires Inv(s) && LinkKept(s) && !s.finishing && Divides(s, parts)
    ensures BeginUpdate(s, parts).Some? && Inv(BeginUpdate(s, parts).value)
    ensures Updated(s, parts).Some? && Inv(Updated(s, parts).value) && !Updated(s, parts).value.finishing
  {
    match s.status
    case Empty => SameChain(s, s.(status := SavingDeltas));
    case SavingDeltas => SavingKeepsInv(s, parts);
    case FetchingState(_, _, _, _) => FetchKeepsInv(s);
    case CatchingUp(_) =>
      CatchUpKeepsInv(s);
      ReadyKeepsInv(CatchUpCommit(s).value);
    case Ready(_) =>
  }

  /** Writing values of one state over values of the same state loses nothing. */
  lemma Overwritten(flat: State, part: State, state: State)
    requires Within(flat, state) && Within(part, state)
    ensures Within(flat + part, state) && Within(part, flat + part) && Within(flat, flat + part)
  {
  }

  lemma WithinTransitive(a: State, b: State, c: State)
    requires Within(a, b) && Within(b, c)
    ensures Within(a, c)
  {
  }

  lemma CommitKeepsInv(s: Sys, p: nat)
    requires Inv(s) && p in s.running && p < |s.parts|
    ensures Inv(JobCommitted(s, p))
  {
    assert s.status.FetchingState? && !NoJobs(s);
    var s', state := JobCommitted(s, p), s.states[s.status.block];
    var next := StepEnd(s.status.partId, s.status.partsInStep, s.status.numParts);
    SameChain(s, s');
    assert JobsOk(s', s.status.partId, next) by {
      assert |s.running| == |s.running - {p}| + 1 && |s.unreported + {p}| == |s.unreported| + 1;
    }
    Overwritten(s.flat, s.parts[p], state);
    assert Fetched(s', next, s'.running) by {
      forall q | 0 <= q < next && q !in s'.running ensures Within(s'.parts[q], s'.flat) {
        if q != p {
          WithinTransitive(s.parts[q], s.flat, s'.flat);
        }
      }
    }
  }

  lemma ReportKeepsInv(s: Sys, p: nat)
    requires Inv(s) && p in s.unreported
    ensures Inv(JobReported(s, p))
  {
    assert s.status.FetchingState? && !NoJobs(s);
    assert |s.unreported| == |s.unreported - {p}| + 1;
    SameChain(s, JobReported(s, p));
  }

  /** A step of the chain that keeps every block of the final chain on it keeps the invariant. */
  lemma ChainMoveKeepsInv(s: Sys, s': Sys)
    requires Inv(s) && s' == s.(chain := s'.chain) && ChainOk(s')
    requires forall b :: OnFinal(s, b) ==> OnFinal(s', b)
    ensures Inv(s')
  {
  }

  lemma HeaderKeepsInv(s: Sys, s': Sys, x: Hash, b: Block)
    requires Inv(s) && HeaderStep(s, s', x, b)
    ensures Inv(s')
  {
    var c := s.chain;
    HeaderKeepsCanonical(c, x, b);
    SameAncestors(c.headers, c.root, x, b, c.final, c.head);
    forall y | y in s'.seen ensures Sound(s', y) {
      assert Sound(s, y);
    }
    forall a | OnFinal(s, a) ensures OnFinal(s', a) {
      SameAncestors(c.headers, c.root, x, b, a, c.final);
    }
    ChainMoveKeepsInv(s, s');
  }

  lemma HeadKeepsInv(s: Sys, s': Sys, x: Hash)
    requires Inv(s) && HeadStep(s, s', x)
    ensures Inv(s')
  {
    HeadSavedCanonical(s.chain, x);
    forall y | y in s'.seen ensures Sound(s', y) {
      assert Sound(s, y);
    }
    ChainMoveKeepsInv(s, s');
  }

  lemma FinalKeepsInv(s: Sys, s': Sys, f: Hash)
    requires Inv(s) && FinalStep(s, s', f)
    ensures Inv(s')
  {
    FinalDescends(s.chain, f);
    forall y | y in s'.seen ensures Sound(s', y) {
      assert Sound(s, y);
    }
    forall b | OnFinal(s, b) ensures OnFinal(s', b) {
      AncestorTransitive(s.chain.headers, b, s.chain.final, f);
    }
    ChainMoveKeepsInv(s, s');
  }

  lemma BlockKeepsChain(s: Sys, s': Sys, x: Hash, changes: Changes)
    requires ChainOk(s) && BlockStep(s, s', x, changes)
    ensures ChainOk(s')
    ensures forall b :: OnFinal(s, b) ==> OnFinal(s', b)
    ensures forall b :: b in s.seen ==> b in s'.seen && s'.seen[b] == s.seen[b] && b in s.states && s'.states[b] == s.states[b]
  {
    forall b | b in s.seen ensures b in s.states && b != x {
      assert Sound(s, b);
    }
    forall y | y in s'.seen ensures Sound(s', y) {
      if y != x {
        assert Sound(s, y);
      }
    }
  }

  lemma BlockKeepsDeltas(s: Sys, s': Sys, x: Hash, changes: Changes, h: nat)
    requires DeltasReal(s) && BlockStep(s, s', x, changes)
    ensures DeltasReal(s') && (SavedAbove(s, h) ==> SavedAbove(s', h))
  {
  }

  lemma BlockKeepsInv(s: Sys, s': Sys, x: Hash, changes: Changes)
    requires Inv(s) && BlockStep(s, s', x, changes)
    ensures Inv(s')
  {
    BlockKeepsChain(s, s', x, changes);
    match s.status
    case Empty => BlockKeepsDeltas(s, s', x, changes, s.startHeight);
    case SavingDeltas => BlockKeepsDeltas(s, s', x, changes, s.startHeight);
    case FetchingState(b, _, _, _) => BlockKeepsDeltas(s, s', x, changes, s.seen[b].height);
    case CatchingUp(b) => BlockKeepsDeltas(s, s', x, changes, s.seen[b].height);
    case Ready(b) => BlockKeepsDeltas(s, s', x, changes, s.seen[b].height);
  }

  lemma TailKeepsInv(s: Sys, s': Sys)
    requires Inv(s) && s' == s.(tail := s'.tail)
    ensures Inv(s')
  {
    SameChain(s, s');
  }

  lemma ChainStepKeepsInv(s: Sys, s': Sys)
    requires Inv(s) && ChainStep(s, s')
    ensures Inv(s')
  {
    if x: Hash, b :| HeaderStep(s, s', x, b) {
      HeaderKeepsInv(s, s', x, b);
    } else if x: Hash, changes :| BlockStep(s, s', x, changes) {
      BlockKeepsInv(s, s', x, changes);
    } else if x: Hash :| HeadStep(s, s', x) {
      HeadKeepsInv(s, s', x);
    } else if f: Hash :| FinalStep(s, s', f) {
      FinalKeepsInv(s, s', f);
    } else {
      TailKeepsInv(s, s');
    }
  }

  lemma RestartKeepsInv(s: Sys, s': Sys, h: nat)
    requires Inv(s) && RestartStep(s, s', h)
    ensures Inv(s')
  {
    SameChain(s, s');
  }

  // ---------------------------------------------------------------------------
  // Every step keeps what is needed
  // ---------------------------------------------------------------------------

  lemma NeededKept(s: Sys)
    requires Inv(s) && TailOk(s)
    ensures LinkKept(s) && TrieKept(s)
  {
    if s.status.CatchingUp? {
      NotTooFar(s, s.status.flatHead);
    } else if s.status.FetchingState? {
      NotTooFar(s, s.status.block);
    }
  }

  lemma CatchUpKeepsTail(s: Sys)
    requires Inv(s) && TailOk(s) && s.status.CatchingUp? && !s.finishing
    ensures CatchUpCommit(s).Some? && TailOk(CatchUpCommit(s).value)
  {
    NeededKept(s);
    ApplyNothing(s.flat);
    var p := Progress(s.status.flatHead, map[], {});
    AdvanceEffect(s, p, CATCH_UP_BLOCKS, s.flat);
    NotTooFar(s, p.head);
    NotTooFar(s, Advance(s, p, CATCH_UP_BLOCKS).value.head);
  }

  lemma FetchKeepsTail(s: Sys)
    requires TailOk(s) && s.status.FetchingState? && FetchStep(s).Some?
    ensures TailOk(FetchStep(s).value)
  {
    var s' := FetchStep(s).value;
    assert s'.chain == s.chain && s'.tail == s.tail && !s'.status.SavingDeltas?;
  }

  lemma SavingKeepsTail(s: Sys, parts: seq<State>)
    requires TailOk(s) && s.status.SavingDeltas? && SavingStep(s, parts).Some?
    ensures TailOk(SavingStep(s, parts).value)
  {
  }

  lemma UpdateKeepsTail(s: Sys, parts: seq<State>)
    requires Inv(s) && TailOk(s) && !s.finishing && BeginUpdate(s, parts).Some?
    ensures TailOk(BeginUpdate(s, parts).value)
  {
    match s.status
    case SavingDeltas => SavingKeepsTail(s, parts);
    case FetchingState(_, _, _, _) => FetchKeepsTail(s);
    case CatchingUp(_) => CatchUpKeepsTail(s);
    case _ =>
  }

  lemma HeaderKeepsTail(s: Sys, s': Sys, x: Hash, b: Block)
    requires Inv(s) && TailOk(s) && HeaderStep(s, s', x, b)
    ensures TailOk(s')
  {
    NotTooFar(s, s.chain.final);
    if s.status.FetchingState? {
      NotTooFar(s, s.status.block);
    } else if s.status.CatchingUp? {
      NotTooFar(s, s.status.flatHead);
    }
  }

  lemma FinalKeepsTail(s: Sys, s': Sys, f: Hash)
    requires TailOk(s) && FinalStep(s, s', f)
    ensures TailOk(s')
  {
  }

  lemma HeadKeepsTail(s: Sys, s': Sys, x: Hash)
    requires TailOk(s) && HeadStep(s, s', x)
    ensures TailOk(s')
  {
  }

  lemma BlockKeepsTail(s: Sys, s': Sys, x: Hash, changes: Changes)
    requires TailOk(s) && BlockStep(s, s', x, changes)
    ensures TailOk(s')
  {
  }

  lemma ChainKeepsTail(s: Sys, s': Sys)
    requires Inv(s) && TailOk(s) && ChainStep(s, s')
    ensures TailOk(s')
  {
    if x: Hash, b :| HeaderStep(s, s', x, b) {
      HeaderKeepsTail(s, s', x, b);
    } else if x: Hash, changes :| BlockStep(s, s', x, changes) {
      BlockKeepsTail(s, s', x, changes);
    } else if x: Hash :| HeadStep(s, s', x) {
      HeadKeepsTail(s, s', x);
    } else if f: Hash :| FinalStep(s, s', f) {
      FinalKeepsTail(s, s', f);
    }
  }

  lemma NextKeepsTail(s: Sys, s': Sys)
    requires Inv(s) && TailOk(s) && Next(s, s')
    ensures TailOk(s')
  {
    if parts :| UpdateBegins(s, s', parts) {
      UpdateKeepsTail(s, parts);
    } else if ChainStep(s, s') {
      ChainKeepsTail(s, s');
    } else if p: nat :| WorkerStep(s, s', p) {
      WorkerKeepsTail(s, s', p);
    } else {
      assert s'.chain == s.chain && s'.tail == s.tail && (s'.status == s.status || s'.status.Ready?);
    }
  }

  lemma {:induction false} WorkerKeepsTail(s: Sys, s': Sys, p: nat)
    requires TailOk(s) && WorkerStep(s, s', p)
    ensures TailOk(s')
  {
    assert s'.chain == s.chain && s'.tail == s.tail && s'.status == s.status;
  }

  lemma NextKeepsInv(s: Sys, s': Sys)
    requires Inv(s) && Next(s, s')
    ensures Inv(s')
  {
    if parts :| UpdateBegins(s, s', parts) {
      if s.status.CatchingUp? {
        CatchUpPanicsIff(s);
      }
      UpdateKeepsInv(s, parts);
    } else if UpdateEnds(s, s') {
      ReadyKeepsInv(s);
    } else if p: nat :| WorkerStep(s, s', p) {
      if p in s.running && p < |s.parts| && TrieKept(s) && s' == JobCommitted(s, p) {
        CommitKeepsInv(s, p);
      } else {
        ReportKeepsInv(s, p);
      }
    } else if ChainStep(s, s') {
      ChainStepKeepsInv(s, s');
    } else {
      var h: nat :| RestartStep(s, s', h);
      RestartKeepsInv(s, s', h);
    }
  }

  // ---------------------------------------------------------------------------
  // Over every run
  // ---------------------------------------------------------------------------

  /** A node without flat storage: nothing is fetched yet, and the known blocks are not above its head. */
  ghost predicate Init(s: Sys) {
    && ChainOk(s) && s.status == Empty && s.flat == map[] && NoJobs(s) && !s.finishing
    && s.deltas == map[] && (forall x :: x in s.seen ==> s.seen[x].height <= s.startHeight) && TailOk(s)
  }

  ghost predicate Behavior(ss: seq<Sys>) {
    ss != [] && Init(ss[0]) && forall i :: 0 < i < |ss| ==> Next(ss[i - 1], ss[i])
  }

  lemma {:induction false} BehaviorInv(ss: seq<Sys>, i: nat)
    requires Behavior(ss) && i < |ss|
    ensures Inv(ss[i]) && TailOk(ss[i])
  {
    if i > 0 {
      BehaviorInv(ss, i - 1);
      NextKeepsTail(ss[i - 1], ss[i]);
      NextKeepsInv(ss[i - 1], ss[i]);
    }
  }

  /** Runs in which garbage collection moves the tail as it likes. */
  ghost predicate LooseBehavior(ss: seq<Sys>) {
    && ss != [] && Init(ss[0])
    && (forall i :: 0 < i < |ss| ==> Next(ss[i - 1], ss[i]) || ss[i] == ss[i - 1].(tail := ss[i].tail))
  }

  lemma {:induction false} LooseBehaviorInv(ss: seq<Sys>, i: nat)
    requires LooseBehavior(ss) && i < |ss|
    ensures Inv(ss[i])
  {
    if i > 0 {
      LooseBehaviorInv(ss, i - 1);
      if Next(ss[i - 1], ss[i]) {
        NextKeepsInv(ss[i - 1], ss[i]);
      } else {
        TailKeepsInv(ss[i - 1], ss[i]);
      }
    }
  }

  /** At every point of every such run: a call that catches up panics if and only if the tail has passed a flat head below
      the final head. */
  lemma CatchUpPanicsExactly(ss: seq<Sys>, i: nat)
    requires LooseBehavior(ss) && i < |ss| && ss[i].status.CatchingUp? && !ss[i].finishing
    ensures var s := ss[i];
            var b, c := s.status.flatHead, s.chain;
            && b in c.headers
            && (CatchUpCommit(s) == None <==> b != c.final && c.headers[b].height < s.tail)
  {
    LooseBehaviorInv(ss, i);
    CatchUpPanicsIff(ss[i]);
    NotTooFar(ss[i], ss[i].status.flatHead);
  }

  /** From every point of such a run at which the flat head is below the final head, one move of the tail leads to the
      panic. */
  lemma TailMoveLeadsToPanic(ss: seq<Sys>) returns (s: Sys)
    requires LooseBehavior(ss) && ss[|ss| - 1].status.CatchingUp? && !ss[|ss| - 1].finishing
    requires ss[|ss| - 1].status.flatHead != ss[|ss| - 1].chain.final
    ensures s.chain.final in s.chain.headers && s == ss[|ss| - 1].(tail := FinalHeight(s))
    ensures LooseBehavior(ss + [s]) && CatchUpCommit(s) == None
  {
    var last := ss[|ss| - 1];
    LooseBehaviorInv(ss, |ss| - 1);
    AncestorLower(last.chain.headers, last.status.flatHead, last.chain.final);
    s := last.(tail := FinalHeight(last));
    assert (ss + [s])[|ss|] == s;
    CatchUpPanicsExactly(ss + [s], |ss|);
  }

  /** No call, no worker and no change of the head can fail or panic now. */
  ghost predicate NoPanic(s: Sys) {
    && TrieKept(s)
    && (!s.finishing ==> forall parts :: Divides(s, parts) ==> Updated(s, parts).Some?)
    && (s.finishing ==> s.status.CatchingUp? && ReadyCommit(s).Some?)
    && IsTree(s.chain.headers, s.chain.root) && s.chain.head in s.chain.headers
    && (forall x :: x in s.chain.headers ==> HeadSaved(s.chain, x).Some?)
  }

  /** The flat state agrees with the trie at every commit point of every run: whatever the threads, the chain and
      crashes do, a flat head says exactly which state the flat copy holds; and nothing panics. */
  lemma FlatAgreesWithTrie(ss: seq<Sys>, i: nat)
    requires Behavior(ss) && i < |ss|
    ensures var s := ss[i];
            && NoPanic(s)
            && (s.status.CatchingUp? || s.status.Ready? ==>
                 s.status.flatHead in s.states && s.flat == s.states[s.status.flatHead])
            && (s.remaining.Some? ==> s.remaining.value == |s.running| + |s.unreported| + s.channel)
  {
    BehaviorInv(ss, i);
    var s := ss[i];
    NeededKept(s);
    forall parts | !s.finishing && Divides(s, parts) ensures Updated(s, parts).Some? {
      UpdateKeepsInv(s, parts);
    }
    if s.finishing {
      ReadyKeepsInv(s);
    }
    forall x | x in s.chain.headers ensures HeadSaved(s.chain, x).Some? {
      HeadSavedCanonical(s.chain, x);
    }
  }

  /** At every point of every run, across reorganisations, the flat head is the final head or one of its ancestors; and
      below it the link of the flat head leads to its child on the way there, whose delta is on disk; while that link is
      needed, it is not collected. */
  lemma FlatHeadOnFinalChain(ss: seq<Sys>, i: nat)
    requires Behavior(ss) && i < |ss| && (ss[i].status.CatchingUp? || ss[i].status.Ready?)
    ensures var s := ss[i];
            var b, c := s.status.flatHead, s.chain;
            && c.final in c.headers && IsAncestor(c.headers, b, c.final) && b in c.headers
            && c.headers[b].height <= c.headers[c.final].height
            && (b != c.final ==>
                 && b in c.next && c.next[b] in c.headers && c.headers[c.next[b]].prev == b
                 && IsAncestor(c.headers, c.next[b], c.final) && c.next[b] in s.deltas)
            && (b != c.final && s.status.CatchingUp? ==> s.tail <= c.headers[b].height)
  {
    BehaviorInv(ss, i);
    var s := ss[i];
    NeededKept(s);
    NotTooFar(s, s.status.flatHead);
    if s.status.flatHead != s.chain.final {
      NextOnFinal(s, s.status.flatHead);
    }
  }

  /** Catching up begins only when every part has been committed. */
  lemma CatchUpAfterAllParts(s: Sys)
    requires Inv(s) && s.status.FetchingState? && FetchStep(s).Some? && FetchStep(s).value.status.CatchingUp?
    ensures s.running == {} && s.unreported == {} && s.channel == 0
    ensures forall p :: 0 <= p < |s.parts| ==> Within(s.parts[p], s.flat)
  {
    assert !NoJobs(s);
  }

  // ---------------------------------------------------------------------------
  // Progress of the fetching
  // ---------------------------------------------------------------------------

  /** Nothing is touched but what workers touch. */
  ghost predicate SameButJobs(s: Sys, s': Sys) {
    s' == s.(flat := s'.flat, running := s'.running, unreported := s'.unreported, channel := s'.channel)
  }

  ghost predicate WorkersRun(ws: seq<Sys>, s: Sys, s': Sys) {
    && ws != [] && ws[0] == s && ws[|ws| - 1] == s'
    && (forall i :: 0 < i < |ws| ==> SomeWorkerStep(ws[i - 1], ws[i]))
  }

  ghost predicate SomeWorkerStep(s: Sys, s': Sys) {
    exists p :: WorkerStep(s, s', p)
  }

  lemma WorkerKeeps(s: Sys, s': Sys, p: nat)
    requires Inv(s) && WorkerStep(s, s', p)
    ensures Inv(s') && SameButJobs(s, s')
  {
    if p in s.running && p < |s.parts| && TrieKept(s) && s' == JobCommitted(s, p) {
      CommitKeepsInv(s, p);
    } else {
      ReportKeepsInv(s, p);
    }
  }

  lemma {:induction false} WorkersKeep(ws: seq<Sys>, s: Sys, s': Sys, i: nat)
    requires Inv(s) && WorkersRun(ws, s, s') && i < |ws|
    ensures Inv(ws[i]) && SameButJobs(s, ws[i])
  {
    if i > 0 {
      WorkersKeep(ws, s, s', i - 1);
      assert SomeWorkerStep(ws[i - 1], ws[i]);
      var p :| WorkerStep(ws[i - 1], ws[i], p);
      WorkerKeeps(ws[i - 1], ws[i], p);
    }
  }

  /** A call, after which the workers commit and report all that is left to them, while the chain stands still. */
  ghost predicate Round(s: Sys, s': Sys, parts: seq<State>) {
    && !s.finishing && Updated(s, parts).Some?
    && (exists ws :: WorkersRun(ws, Updated(s, parts).value, s'))
    && s'.running == {} && s'.unreported == {}
  }

  ghost predicate Rounds(ss: seq<Sys>, parts: seq<State>) {
    ss != [] && forall i :: 0 < i < |ss| ==> Round(ss[i - 1], ss[i], parts)
  }

  /** What does not change while the chain stands still. */
  ghost predicate Still(s0: Sys, s: Sys) {
    && s.chain == s0.chain && s.seen == s0.seen && s.states == s0.states && s.tail == s0.tail
    && s.startHeight == s0.startHeight && !s.finishing
  }

  /** The first part of range number `r`. */
  function FirstPart(r: nat): nat {
    20 * r
  }

  /** Fetching range number `r` of `n` parts takes three calls: the first spawns the jobs, the second reads their reports, the
      third moves on. */
  ghost predicate FetchingRange(status: Status, remaining: Option<nat>, final: Hash, n: nat, r: nat, call: nat) {
    && status == FetchingState(final, FirstPart(r), NUM_PARTS_IN_ONE_STEP, n)
    && (if call == 0 then remaining == None else if call == 1 then remaining.Some? && remaining.value > 0 else remaining == Some(0))
  }

  /** Where `i` rounds from `Empty` lead: the second starts fetching, three more take one range of parts each, and the last
      range is followed by the catch-up. */
  ghost predicate Stage(status: Status, remaining: Option<nat>, final: Hash, n: nat, i: nat) {
    if i == 0 then status == Empty
    else if i == 1 then status == SavingDeltas
    else
      var r, call := (i - 2) / 3, (i - 2) % 3;
      if FirstPart(r) < n then FetchingRange(status, remaining, final, n, r, call)
      else status == CatchingUp(final)
  }

  lemma SpawnCall(s: Sys)
    requires Inv(s) && s.status.FetchingState? && !s.finishing && s.remaining == None
    ensures FetchStep(s) == Some(Spawned(s)) && Spawned(s).remaining.value > 0
  {
  }

  lemma ReadCall(s: Sys)
    requires Inv(s) && s.status.FetchingState? && !s.finishing && s.running == {} && s.unreported == {}
    requires s.remaining.Some? && s.remaining.value > 0
    ensures FetchStep(s) == Some(s.(remaining := Some(0), channel := 0))
  {
    assert !NoJobs(s) && s.remaining.value == s.channel;
  }

  lemma MoveOnCall(s: Sys, n: nat, r: nat)
    requires Inv(s) && !s.finishing && s.remaining == Some(0) && FirstPart(r) < n
    requires s.status == FetchingState(s.chain.final, FirstPart(r), NUM_PARTS_IN_ONE_STEP, n)
    ensures FetchStep(s) == Some(RangeDone(s))
    ensures FirstPart(r + 1) < n ==>
              RangeDone(s) == s.(remaining := None,
                                 status := FetchingState(s.chain.final, FirstPart(r + 1), NUM_PARTS_IN_ONE_STEP, n))
    ensures FirstPart(r + 1) >= n ==>
              RangeDone(s) == s.(remaining := None, deltas := s.deltas - {s.chain.final}, status := CatchingUp(s.chain.final))
  {
    assert StepEnd(FirstPart(r), NUM_PARTS_IN_ONE_STEP, n) == Min(n, FirstPart(r + 1));
  }

  /** The deltas of a run of rounds: that of the block itself goes when the catch-up begins. */
  function DeltasAt(status: Status, deltas: map<Hash, Delta>, final: Hash): map<Hash, Delta> {
    if status.CatchingUp? then deltas - {final} else deltas
  }

  lemma RangeCall(s: Sys, n: nat, r: nat, call: nat)
    requires Inv(s) && !s.finishing && s.running == {} && s.unreported == {}
    requires FirstPart(r) < n && call < 3 && FetchingRange(s.status, s.remaining, s.chain.final, n, r, call)
    ensures FetchStep(s).Some?
    ensures var m := FetchStep(s).value;
            && Still(s, m) && m.deltas == DeltasAt(m.status, s.deltas, s.chain.final)
            && (call < 2 ==> FetchingRange(m.status, m.remaining, s.chain.final, n, r, call + 1))
            && (call == 2 && FirstPart(r + 1) < n ==>
                 FetchingRange(m.status, m.remaining, s.chain.final, n, r + 1, 0))
            && (call == 2 && FirstPart(r + 1) >= n ==> m.status == CatchingUp(s.chain.final))
  {
    if call == 0 {
      SpawnCall(s);
    } else if call == 1 {
      ReadCall(s);
    } else {
      MoveOnCall(s, n, r);
    }
  }

  lemma StageOfRange(status: Status, remaining: Option<nat>, final: Hash, n: nat, r: nat, call: nat)
    requires call < 3
    ensures Stage(status, remaining, final, n, 2 + 3 * r + call) <==>
            if FirstPart(r) < n then FetchingRange(status, remaining, final, n, r, call) else status == CatchingUp(final)
  {
    assert (3 * r + call) / 3 == r && (3 * r + call) % 3 == call;
  }

  lemma FetchStage(s: Sys, n: nat, r: nat, call: nat)
    requires Inv(s) && !s.finishing && s.running == {} && s.unreported == {}
    requires call < 3 && FirstPart(r) < n && Stage(s.status, s.remaining, s.chain.final, n, 2 + 3 * r + call)
    ensures FetchStep(s).Some?
    ensures var m := FetchStep(s).value;
            && Still(s, m) && Stage(m.status, m.remaining, s.chain.final, n, 2 + 3 * r + call + 1)
            && m.deltas == DeltasAt(m.status, s.deltas, s.chain.final)
  {
    StageOfRange(s.status, s.remaining, s.chain.final, n, r, call);
    RangeCall(s, n, r, call);
    var m := FetchStep(s).value;
    if call < 2 {
      StageOfRange(m.status, m.remaining, s.chain.final, n, r, call + 1);
    } else {
      StageOfRange(m.status, m.remaining, s.chain.final, n, r + 1, 0);
    }
  }

  /** The first call starts saving deltas, and the second fetching, since the final head is above the start height. */
  lemma FirstCalls(s: Sys, parts: seq<State>)
    requires Inv(s) && !s.finishing && Divides(s, parts) && (s.status == Empty || s.status == SavingDeltas)
    requires s.chain.final in s.chain.headers && FinalHeight(s) > s.startHeight
    ensures s.status == Empty ==> Updated(s, parts) == Some(s.(status := SavingDeltas))
    ensures s.status == SavingDeltas ==>
              Updated(s, parts) == Some(s.(status := FetchingState(s.chain.final, 0, NUM_PARTS_IN_ONE_STEP, |parts|), parts := parts))
  {
    if s.status == SavingDeltas {
      SavingKeepsInv(s, parts);
    }
  }

  lemma StageCall(s: Sys, parts: seq<State>, i: nat)
    requires Inv(s) && !s.finishing && s.running == {} && s.unreported == {} && Divides(s, parts)
    requires s.chain.final in s.chain.headers && FinalHeight(s) > s.startHeight
    requires Stage(s.status, s.remaining, s.chain.final, |parts|, i)
    requires i >= 2 ==> FirstPart((i - 2) / 3) < |parts|
    ensures Updated(s, parts).Some?
    ensures var m := Updated(s, parts).value;
            && Still(s, m) && Stage(m.status, m.remaining, s.chain.final, |parts|, i + 1)
            && m.deltas == DeltasAt(m.status, s.deltas, s.chain.final)
  {
    if i >= 2 {
      var r: nat, call: nat := (i - 2) / 3, (i - 2) % 3;
      assert i == 2 + 3 * r + call;
      FetchStage(s, |parts|, r, call);
      assert Updated(s, parts) == FetchStep(s);
    } else {
      FirstCalls(s, parts);
    }
  }

  /** What holds after `i` rounds from `s0`. */
  ghost predicate Reached(s0: Sys, s: Sys, n: nat, i: nat) {
    && Inv(s) && Still(s0, s) && s.running == {} && s.unreported == {}
    && Stage(s.status, s.remaining, s0.chain.final, n, i) && s.deltas == DeltasAt(s.status, s0.deltas, s0.chain.final)
    && (s.status.CatchingUp? ==> s0.chain.final in s0.states && s.flat == s0.states[s0.chain.final])
  }

  lemma RoundReached(s0: Sys, s: Sys, s': Sys, parts: seq<State>, i: nat)
    requires Reached(s0, s, |parts|, i) && Round(s, s', parts) && Divides(s0, parts)
    requires s0.chain.final in s0.chain.headers && FinalHeight(s0) > s0.startHeight
    requires i >= 2 ==> FirstPart((i - 2) / 3) < |parts|
    ensures Reached(s0, s', |parts|, i + 1)
  {
    assert !s.status.CatchingUp?;
    StageCall(s, parts, i);
    UpdateKeepsInv(s, parts);
    var m := Updated(s, parts).value;
    var ws :| WorkersRun(ws, m, s');
    WorkersKeep(ws, m, s', |ws| - 1);
    assert s'.status == m.status && s'.remaining == m.remaining && s'.deltas == m.deltas;
  }

  /** With the final head above the start height, `n` parts and workers that keep up: call number 2 + 3 * ceil(n / 20) starts
      the catch-up, and no call before it; the flat copy is then the full state at the final head. */
  lemma {:induction false} FetchProgress(ss: seq<Sys>, parts: seq<State>, i: nat)
    requires Rounds(ss, parts) && Inv(ss[0]) && ss[0].status == Empty && !ss[0].finishing && Divides(ss[0], parts)
    requires ss[0].chain.final in ss[0].chain.headers && FinalHeight(ss[0]) > ss[0].startHeight
    requires i < |ss| && (i > 2 ==> FirstPart((i - 3) / 3) < |parts|)
    ensures Reached(ss[0], ss[i], |parts|, i)
  {
    if i > 0 {
      FetchProgress(ss, parts, i - 1);
      RoundReached(ss[0], ss[i - 1], ss[i], parts, i - 1);
    }
  }

  // ---------------------------------------------------------------------------
  // Progress of the catch-up
  // ---------------------------------------------------------------------------

  ghost predicate Called(s: Sys, s1: Sys) {
    !s.finishing && (s.status.CatchingUp? || s.status.Ready?) && Updated(s, []) == Some(s1)
  }

  /** Calls in a row while the chain stands still. */
  ghost predicate Calls(ss: seq<Sys>) {
    ss != [] && forall i :: 0 < i < |ss| ==> Called(ss[i - 1], ss[i])
  }

  function CallsNeeded(d: nat): nat {
    if d == 0 then 1 else (d + 49) / 50
  }

  lemma CallsNeededSteps(d: nat, i: nat)
    ensures i == 0 ==> i < CallsNeeded(d)
    ensures i > 0 ==> (i < CallsNeeded(d) <==> CATCH_UP_BLOCKS * i < d)
  {
  }

  ghost function Ahead(s: Sys): nat
    requires s.chain.final in s.chain.headers && s.status.CatchingUp?
  {
    Distance(s.chain.headers, s.status.flatHead, s.chain.final)
  }

  function FinalHeight(s: Sys): nat
    requires s.chain.final in s.chain.headers
  {
    s.chain.headers[s.chain.final].height
  }

  /** One call either finishes, or moves the flat head by 50 blocks. */
  ghost predicate Outcome(s: Sys, s1: Sys)
    requires ChainOk(s)
  {
    && s1.chain == s.chain && s1.seen == s.seen && s1.states == s.states && !s1.finishing
    && (s.status.Ready? ==> s1 == s)
    && (s.status.CatchingUp? ==>
         if Ahead(s) <= CATCH_UP_BLOCKS
         then && s1.status == Ready(s.chain.final) && s.chain.final in s.states && s1.flat == s.states[s.chain.final]
              && s1.deltas == AboveHeight(s.deltas, FinalHeight(s))
         else && s1.status.CatchingUp? && Ahead(s1) == Ahead(s) - CATCH_UP_BLOCKS
              && AboveHeight(s1.deltas, FinalHeight(s)) == AboveHeight(s.deltas, FinalHeight(s)))
  }

  lemma RemovedKeepsAbove(s: Sys, p: Progress)
    requires ChainOk(s) && DeltasReal(s) && OnFinal(s, p.head)
    requires forall x :: x in p.removed ==> x in s.seen && s.seen[x].height <= s.seen[p.head].height
    ensures AboveHeight(s.deltas - p.removed, FinalHeight(s)) == AboveHeight(s.deltas, FinalHeight(s))
  {
    NotTooFar(s, p.head);
  }

  lemma CatchUpOutcome(s: Sys)
    requires Inv(s) && s.status.CatchingUp? && !s.finishing && CatchUpCommit(s).Some?
    ensures LinkKept(s)
    ensures var s1 := CatchUpCommit(s).value;
            && s1.chain == s.chain && s1.seen == s.seen && s1.states == s.states && s1.status.CatchingUp?
            && AboveHeight(s1.deltas, FinalHeight(s)) == AboveHeight(s.deltas, FinalHeight(s))
            && (s1.finishing <==> s1.status.flatHead == s.chain.final)
            && (if Ahead(s) <= CATCH_UP_BLOCKS then s1.status.flatHead == s.chain.final
                else s1.status.flatHead != s.chain.final && Ahead(s1) == Ahead(s) - CATCH_UP_BLOCKS)
  {
    CatchUpPanicsIff(s);
    ApplyNothing(s.flat);
    var p := Progress(s.status.flatHead, map[], {});
    AdvanceEffect(s, p, CATCH_UP_BLOCKS, s.flat);
    RemovedKeepsAbove(s, Advance(s, p, CATCH_UP_BLOCKS).value);
  }

  /** A commit of the catch-up removes exactly the deltas of the blocks that the flat head passes. */
  lemma CatchUpRemoves(s: Sys)
    requires Inv(s) && s.status.CatchingUp? && !s.finishing && CatchUpCommit(s).Some?
    ensures var s1, c := CatchUpCommit(s).value, s.chain;
            && s1.status.CatchingUp? && s.status.flatHead in c.headers && s1.status.flatHead in c.headers
            && (forall x :: x in s1.deltas <==>
                 x in s.deltas && !OnWay(c, c.headers[s.status.flatHead].height, c.headers[s1.status.flatHead].height, x))
            && (forall x :: x in s1.deltas ==> s1.deltas[x] == s.deltas[x])
  {
    CatchUpPanicsIff(s);
    ApplyNothing(s.flat);
    NotTooFar(s, s.status.flatHead);
    var p := Progress(s.status.flatHead, map[], {});
    AdvanceRemoves(s, p, CATCH_UP_BLOCKS, s.flat, p.head);
    var q := Advance(s, p, CATCH_UP_BLOCKS).value;
    forall x ensures x in q.removed <==>
                     OnWay(s.chain, s.chain.headers[p.head].height, s.chain.headers[q.head].height, x)
    {
      AdvanceRemoves(s, p, CATCH_UP_BLOCKS, s.flat, x);
    }
  }

  lemma OneCall(s: Sys, s1: Sys)
    requires Inv(s) && Called(s, s1)
    ensures Inv(s1) && Outcome(s, s1)
  {
    if s.status.CatchingUp? {
      CatchUpOutcome(s);
      CatchUpKeepsInv(s);
      if CatchUpCommit(s).value.finishing {
        ReadyKeepsInv(CatchUpCommit(s).value);
      }
    }
  }

  /** Where `i` calls lead from `s`: still catching up, 50 blocks further with each call, or ready with the state of
      the final head and exactly the deltas above it. */
  ghost predicate Progressed(s: Sys, s1: Sys, i: nat)
    requires ChainOk(s) && s.status.CatchingUp?
  {
    && s1.chain == s.chain && s1.seen == s.seen && s1.states == s.states && !s1.finishing
    && if i < CallsNeeded(Ahead(s))
       then && s1.status.CatchingUp? && Ahead(s1) == Ahead(s) - CATCH_UP_BLOCKS * i
            && AboveHeight(s1.deltas, FinalHeight(s)) == AboveHeight(s.deltas, FinalHeight(s))
       else && s1.status == Ready(s.chain.final) && s.chain.final in s.states && s1.flat == s.states[s.chain.final]
            && s1.deltas == AboveHeight(s.deltas, FinalHeight(s))
  }

  lemma ProgressStep(s: Sys, s1: Sys, s2: Sys, i: nat)
    requires ChainOk(s) && s.status.CatchingUp? && Progressed(s, s1, i)
    requires ChainOk(s1) && Outcome(s1, s2)
    ensures Progressed(s, s2, i + 1)
  {
    CallsNeededSteps(Ahead(s), i);
    CallsNeededSteps(Ahead(s), i + 1);
  }

  /** With the final head `d` blocks ahead, the status becomes ready with call number max(1, ceil(d / 50)), not before,
      and stays so. */
  lemma {:induction false} CatchUpProgress(ss: seq<Sys>, i: nat)
    requires Calls(ss) && Inv(ss[0]) && ss[0].status.CatchingUp? && !ss[0].finishing && i < |ss|
    ensures Inv(ss[i]) && Progressed(ss[0], ss[i], i)
  {
    if i == 0 {
      CallsNeededSteps(Ahead(ss[0]), 0);
    } else {
      CatchUpProgress(ss, i - 1);
      OneCall(ss[i - 1], ss[i]);
      ProgressStep(ss[0], ss[i - 1], ss[i], i - 1);
    }
  }

  // ---------------------------------------------------------------------------
  // The creator of one shard
  // ---------------------------------------------------------------------------

  class FlatStorageShardCreator {
    // the chain store
    var chain: Chain
    var seen: map<Hash, Delta>
    ghost var states: map<Hash, State>
    var tail: nat
    var startHeight: nat
    // on disk
    var status: Status
    var flat: State
    var deltas: map<Hash, Delta>
    var parts: seq<State>
    // in memory
    var remaining: Option<nat>
    var running: set<nat>
    var unreported: set<nat>
    var channel: nat
    ghost var finishing: bool

    ghost function View(): Sys
      reads this
    {
      Sys(chain, seen, states, tail, startHeight, status, flat, deltas, parts, remaining, running, unreported, channel, finishing)
    }

    /** Returns whether flat storage was created before this call, or nothing if it panics. */
    method UpdateStatus(newParts: seq<State>) returns (created: Option<bool>)
      requires !finishing
      modifies this
      ensures created == None <==> Updated(old(View()), newParts) == None
      ensures created.Some? ==> Some(View()) == Updated(old(View()), newParts)
      ensures created.Some? ==> (created.value <==> old(status).Ready?)
    {
      var ok := true;
      match status {
        case Empty =>
          status := SavingDeltas;
        case SavingDeltas =>
          ok := StartFetching(newParts);
        case FetchingState(_, _, _, _) =>
          ok := FetchParts();
        case CatchingUp(_) =>
          ok := CatchUp();
          if ok && status.flatHead == chain.final {
            ok := Finish();
          }
        case Ready(_) =>
          return Some(true);
      }
      created := if ok then Some(false) else None;
    }

    method StartFetching(newParts: seq<State>) returns (ok: bool)
      requires status.SavingDeltas?
      modifies this`status, this`parts
      ensures ok <==> SavingStep(old(View()), newParts).Some?
      ensures ok ==> Some(View()) == SavingStep(old(View()), newParts)
      ensures ok ==> chain.final in chain.headers
      ensures ok && chain.headers[chain.final].height <= startHeight ==> View() == old(View())
      ensures ok && chain.headers[chain.final].height > startHeight ==>
                && status == FetchingState(chain.final, 0, 20, |newParts|) && parts == newParts
                && (forall x :: x in seen && seen[x].height > chain.headers[chain.final].height ==> x in deltas)
    {
      if chain.final !in chain.headers {
        return false;
      }
      var height := chain.headers[chain.final].height;
      if height > startHeight {
        var todo := seen.Keys;
        while todo != {}
          invariant todo <= seen.Keys
          invariant forall x :: x in seen && x !in todo && seen[x].height > height ==> x in deltas
          modifies {}
          decreases todo
        {
          var x :| x in todo;
          if seen[x].height > height && x !in deltas {
            return false;
          }
          todo := todo - {x};
        }
        parts := newParts;
        status := FetchingState(chain.final, 0, NUM_PARTS_IN_ONE_STEP, |newParts|);
      }
      ok := true;
    }

    method SpawnJobs()
      requires status.FetchingState? && status.partId <= status.numParts
      modifies this`running, this`remaining
      ensures View() == Spawned(old(View()))
    {
      var start, next := status.partId, StepEnd(status.partId, status.partsInStep, status.numParts);
      var jobs := {};
      for p := start to next
        invariant forall q :: q in jobs <==> start <= q < p
      {
        jobs := jobs + {p};
      }
      running, remaining := jobs, Some(next - start);
    }

    method ReadReports() returns (ok: bool)
      requires remaining.Some?
      modifies this`channel, this`remaining
      ensures ok <==> old(channel) <= old(remaining).value
      ensures ok ==> View() == ReportsRead(old(View()))
    {
      var updated: nat := remaining.value;
      while channel > 0
        invariant updated - channel == remaining.value - old(channel)
        modifies this`channel
      {
        if updated == 0 {
          return false;
        }
        channel := channel - 1;
        updated := updated - 1;
      }
      remaining := Some(updated);
      ok := true;
    }

    method FinishRange()
      requires status.FetchingState?
      modifies this`remaining, this`status, this`deltas
      ensures View() == RangeDone(old(View()))
    {
      var FetchingState(b, start, partsInStep, numParts) := status;
      var next := StepEnd(start, partsInStep, numParts);
      remaining := None;
      if next < numParts {
        status := FetchingState(b, next, partsInStep, numParts);
      } else {
        deltas := deltas - {b};
        status := CatchingUp(b);
      }
    }

    method FetchParts() returns (ok: bool)
      requires status.FetchingState?
      modifies this`status, this`deltas, this`remaining, this`running, this`channel
      ensures ok <==> FetchStep(old(View())).Some?
      ensures ok ==> Some(View()) == FetchStep(old(View()))
    {
      ok := status.partId <= status.numParts;
      if ok {
        match remaining
        case None =>
          SpawnJobs();
        case Some(n) =>
          if n > 0 {
            ok := ReadReports();
          } else {
            FinishRange();
          }
      }
    }

    /** Merges the deltas of up to 50 blocks after the flat head, or panics. */
    method MergeDeltas() returns (r: Option<Progress>)
      requires status.CatchingUp?
      ensures r == Advance(View(), Progress(status.flatHead, map[], {}), CATCH_UP_BLOCKS)
    {
      var p := Progress(status.flatHead, map[], {});
      for i := 0 to CATCH_UP_BLOCKS
        invariant Advance(View(), Progress(status.flatHead, map[], {}), CATCH_UP_BLOCKS) == Advance(View(), p, CATCH_UP_BLOCKS - i)
      {
        if p.head !in chain.headers || chain.final !in chain.headers {
          return None;
        }
        if chain.headers[p.head].height > chain.headers[chain.final].height {
          return None;
        }
        if p.head == chain.final {
          return Some(p);
        }
        if p.head !in chain.next || chain.headers[p.head].height < tail || chain.next[p.head] !in deltas {
          return None;
        }
        var n := chain.next[p.head];
        p := Progress(n, Merge(p.changes, deltas[n].changes), p.removed + {n});
      }
      r := Some(p);
    }

    method CatchUp() returns (ok: bool)
      requires status.CatchingUp? && !finishing
      modifies this`flat, this`deltas, this`status, this`finishing
      ensures ok <==> CatchUpCommit(old(View())).Some?
      ensures ok ==> Some(View()) == CatchUpCommit(old(View())) && status.CatchingUp?
    {
      var p := MergeDeltas();
      if p == None {
        return false;
      }
      if p.value.head != status.flatHead || p.value.head == chain.final {
        flat := Apply(flat, p.value.changes);
        deltas := deltas - p.value.removed;
        status := CatchingUp(p.value.head);
        finishing := p.value.head == chain.final;
      }
      ok := true;
    }

    method Finish() returns (ok: bool)
      requires status.CatchingUp?
      modifies this`deltas, this`status, this`finishing
      ensures ok <==> ReadyCommit(old(View())).Some?
      ensures ok ==> Some(View()) == ReadyCommit(old(View()))
    {
      if status.flatHead !in chain.headers {
        return false;
      }
      var height := chain.headers[status.flatHead].height;
      var todo, kept := deltas.Keys, deltas;
      while todo != {}
        invariant todo <= deltas.Keys
        invariant forall x :: x in kept <==> x in deltas && (x in todo || deltas[x].height > height)
        invariant forall x :: x in kept ==> kept[x] == deltas[x]
        modifies {}
        decreases todo
      {
        var x :| x in todo;
        todo := todo - {x};
        if deltas[x].height <= height {
          kept := kept - {x};
        }
      }
      assert kept == AboveHeight(deltas, height);
      deltas := kept;
      status := Ready(status.flatHead);
      finishing := false;
      ok := true;
    }

    /** A worker's commit of the items of its part. */
    method FetchStatePart(p: nat)
      requires p < |parts|
      modifies this`flat, this`running, this`unreported
      ensures View() == JobCommitted(old(View()), p)
    {
      var todo, update := parts[p].Keys, map[];
      while todo != {}
        invariant todo <= parts[p].Keys && update.Keys == parts[p].Keys - todo
        invariant forall k :: k in update ==> update[k] == parts[p][k]
        decreases todo
      {
        var k :| k in todo;
        todo := todo - {k};
        update := update[k := parts[p][k]];
      }
      assert update == parts[p];
      flat := flat + update;
      running, unreported := running - {p}, unreported + {p};
    }
  }
}
