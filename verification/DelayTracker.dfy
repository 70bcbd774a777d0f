/**
 The tracker of delays of recent blocks and chunks: four linked indexes that are
 pruned whenever the head of the chain moves.
 */
module DelayTracker {
  import opened Prelude

  type Hash = nat
  type ChunkHash = nat

  const BLOCK_DELAY_TRACKING_COUNT: nat := 50

  datatype ChunkHeader = ChunkHeader(hash: ChunkHash, heightCreated: nat, heightIncluded: nat)
  datatype Block = Block(hash: Hash, height: nat, chunks: seq<ChunkHeader>)
  datatype ChunkStats = ChunkStats(heightCreated: nat, requested: Option<nat>, completed: Option<nat>)

  /** `blocks` gives the new chunks of each block, by shard. */
  datatype State = State(
    blocks: map<Hash, seq<Option<ChunkHash>>>,
    heights: map<nat, seq<Hash>>,
    chunks: map<ChunkHash, ChunkStats>,
    floating: map<ChunkHash, nat>,
    head: nat)

  const EMPTY: State := State(map[], map[], map[], map[], 0)

  // ---------------------------------------------------------------------------
  // Operations
  // ---------------------------------------------------------------------------

  function NewStats(c: ChunkHeader): ChunkStats {
    ChunkStats(c.heightCreated, None, None)
  }

  /** The chunks of a block, tracked from now on as its own. */
  function ChunksReceived(s: State, b: Block, n: nat): State
    requires n <= |b.chunks|
  {
    if n == 0 then s
    else
      var s1, c := ChunksReceived(s, b, n - 1), b.chunks[n - 1];
      if c.heightIncluded != b.height then s1
      else s1.(chunks := if c.hash in s1.chunks then s1.chunks else s1.chunks[c.hash := NewStats(c)],
               floating := s1.floating - {c.hash})
  }

  function NewChunks(b: Block): seq<Option<ChunkHash>> {
    seq(|b.chunks|, i requires 0 <= i < |b.chunks| =>
      if b.chunks[i].heightIncluded == b.height then Some(b.chunks[i].hash) else None)
  }

  function HashesAt(heights: map<nat, seq<Hash>>, n: nat): seq<Hash> {
    if n in heights then heights[n] else []
  }

  function BlockReceived(s: State, b: Block): State {
    if b.hash in s.blocks then s
    else
      ChunksReceived(s, b, |b.chunks|)
        .(blocks := s.blocks[b.hash := NewChunks(b)],
          heights := s.heights[b.height := HashesAt(s.heights, b.height) + [b.hash]])
  }

  function Touched(s: State, c: ChunkHeader): State {
    if c.hash in s.chunks then s
    else s.(floating := s.floating[c.hash := c.heightCreated], chunks := s.chunks[c.hash := NewStats(c)])
  }

  function First(known: Option<nat>, time: nat): Option<nat> {
    if known == None then Some(time) else known
  }

  function ChunkCompleted(s: State, c: ChunkHeader, time: nat): State {
    var s1 := Touched(s, c);
    var stats := s1.chunks[c.hash];
    s1.(chunks := s1.chunks[c.hash := stats.(completed := First(stats.completed, time))])
  }

  function ChunkRequested(s: State, c: ChunkHeader, time: nat): State {
    var s1 := Touched(s, c);
    var stats := s1.chunks[c.hash];
    s1.(chunks := s1.chunks[c.hash := stats.(requested := First(stats.requested, time))])
  }

  function Cutoff(head: nat): nat {
    SaturatingSub(head, BLOCK_DELAY_TRACKING_COUNT)
  }

  function ChunksOf(block: seq<Option<ChunkHash>>): set<ChunkHash> {
    set i | 0 <= i < |block| && block[i].Some? :: block[i].value
  }

  /** The state without the first `n` blocks of a list, or nothing if one of them is not tracked. */
  function WithoutBlocks(s: State, hashes: seq<Hash>, n: nat): Option<State>
    requires n <= |hashes|
  {
    if n == 0 then Some(s)
    else
      var s1 := WithoutBlocks(s, hashes, n - 1);
      if s1 == None || hashes[n - 1] !in s1.value.blocks then None
      else Some(WithoutBlock(s1.value, hashes[n - 1]))
  }

  function WithoutBlock(s: State, h: Hash): State
    requires h in s.blocks
  {
    s.(blocks := s.blocks - {h}, chunks := s.chunks - ChunksOf(s.blocks[h]))
  }

  /** The block hashes below a height, lowest first. */
  function HashesBelow(heights: map<nat, seq<Hash>>, n: nat): seq<Hash> {
    if n == 0 then [] else HashesBelow(heights, n - 1) + HashesAt(heights, n - 1)
  }

  function HeightsFrom(heights: map<nat, seq<Hash>>, cutoff: nat): map<nat, seq<Hash>> {
    map n | n in heights && n >= cutoff :: heights[n]
  }

  function OldFloating(s: State, cutoff: nat): set<ChunkHash> {
    set c | c in s.floating && s.floating[c] < cutoff
  }

  /** Nothing if the debug assertion fails. */
  function HeadUpdated(s: State, head: nat): Option<State> {
    if head == s.head then Some(s)
    else
      var cutoff := Cutoff(head);
      var hashes := HashesBelow(s.heights, cutoff);
      var s1 := s.(head := head, heights := HeightsFrom(s.heights, cutoff));
      var s2 := WithoutBlocks(s1, hashes, |hashes|);
      if s2 == None then None
      else Some(s2.value.(chunks := s2.value.chunks - OldFloating(s, cutoff), floating := s.floating - OldFloating(s, cutoff)))
  }

  // ---------------------------------------------------------------------------
  // The invariant
  // ---------------------------------------------------------------------------

  ghost predicate At(heights: map<nat, seq<Hash>>, n: nat, i: nat, h: Hash) {
    n in heights && i < |heights[n]| && heights[n][i] == h
  }

  ghost predicate Indexed(heights: map<nat, seq<Hash>>, h: Hash) {
    exists n: nat, i: nat :: At(heights, n, i, h)
  }

  ghost predicate IndexedBelow(heights: map<nat, seq<Hash>>, cutoff: nat, h: Hash) {
    exists n: nat, i: nat :: At(heights, n, i, h) && n < cutoff
  }

  /** No hash occurs at two places. */
  ghost predicate Once(heights: map<nat, seq<Hash>>) {
    forall h, n, i, m, j :: At(heights, n, i, h) && At(heights, m, j, h) ==> n == m && i == j
  }

  /** Both block indexes hold the same hashes. */
  ghost predicate SameBlocks(s: State) {
    forall h :: h in s.blocks <==> Indexed(s.heights, h)
  }

  ghost predicate BelongsTo(s: State, c: ChunkHash, h: Hash) {
    h in s.blocks && c in ChunksOf(s.blocks[h])
  }

  /** Every chunk is floating or belongs to a tracked block. */
  ghost predicate ChunksPlaced(s: State) {
    forall c :: c in s.chunks ==> c in s.floating || exists h :: BelongsTo(s, c, h)
  }

  ghost predicate Inv(s: State) {
    Once(s.heights) && SameBlocks(s) && ChunksPlaced(s)
  }

  // ---------------------------------------------------------------------------
  // Receiving
  // ---------------------------------------------------------------------------

  lemma {:induction false} ChunksReceivedEffect(s: State, b: Block, n: nat)
    requires n <= |b.chunks|
    ensures var s1 := ChunksReceived(s, b, n);
            && s1.blocks == s.blocks && s1.heights == s.heights && s1.head == s.head
            && (forall c :: c in s.chunks ==> c in s1.chunks && s1.chunks[c] == s.chunks[c])
            && (forall c :: c in s1.chunks ==> c in s.chunks || c in ChunksOf(NewChunks(b)))
            && (forall c :: c in s1.floating ==> c in s.floating && s1.floating[c] == s.floating[c])
            && (forall c :: c in s.floating ==> c in s1.floating || c in ChunksOf(NewChunks(b)))
  {
    if n > 0 {
      ChunksReceivedEffect(s, b, n - 1);
      var c := b.chunks[n - 1];
      assert NewChunks(b)[n - 1] == if c.heightIncluded == b.height then Some(c.hash) else None;
    }
  }

  /** A chunk that the block is the first to include. */
  ghost predicate IsNewChunk(b: Block, c: ChunkHash) {
    exists i :: 0 <= i < |b.chunks| && b.chunks[i].hash == c && b.chunks[i].heightIncluded == b.height
  }

  ghost predicate FreshFrom(b: Block, c: ChunkHash, stats: ChunkStats) {
    && stats.requested == stats.completed == None
    && exists i :: 0 <= i < |b.chunks| && b.chunks[i].hash == c && b.chunks[i].heightCreated == stats.heightCreated
  }

  /** What a new block changes: it is tracked with its new chunks, by shard, and these no longer float. */
  ghost predicate Tracked(s: State, s': State, b: Block) {
    && s'.head == s.head
    && b.hash in s'.blocks && s'.blocks - {b.hash} == s.blocks - {b.hash}
    && |s'.blocks[b.hash]| == |b.chunks|
    && (forall i :: 0 <= i < |b.chunks| ==>
         s'.blocks[b.hash][i] == if b.chunks[i].heightIncluded == b.height then Some(b.chunks[i].hash) else None)
    && b.height in s'.heights && s'.heights[b.height] == HashesAt(s.heights, b.height) + [b.hash]
    && s'.heights - {b.height} == s.heights - {b.height}
    && (forall c :: c in s'.chunks <==> c in s.chunks || IsNewChunk(b, c))
    && (forall c :: c in s.chunks ==> s'.chunks[c] == s.chunks[c])
    && (forall c :: c in s'.chunks && c !in s.chunks ==> FreshFrom(b, c, s'.chunks[c]))
    && (forall c :: c in s'.floating <==> c in s.floating && !IsNewChunk(b, c))
    && (forall c :: c in s'.floating ==> s'.floating[c] == s.floating[c])
  }

  lemma {:induction false} ChunksTracked(s: State, b: Block, n: nat)
    requires n <= |b.chunks|
    ensures var s1, c0 := ChunksReceived(s, b, n), Block(b.hash, b.height, b.chunks[..n]);
            && s1 == s.(chunks := s1.chunks, floating := s1.floating)
            && (forall c :: c in s1.chunks <==> c in s.chunks || IsNewChunk(c0, c))
            && (forall c :: c in s.chunks ==> s1.chunks[c] == s.chunks[c])
            && (forall c :: c in s1.chunks && c !in s.chunks ==> FreshFrom(c0, c, s1.chunks[c]))
            && (forall c :: c in s1.floating <==> c in s.floating && !IsNewChunk(c0, c))
            && (forall c :: c in s1.floating ==> s1.floating[c] == s.floating[c])
  {
    if n > 0 {
      ChunksTracked(s, b, n - 1);
      var before, now := Block(b.hash, b.height, b.chunks[..n - 1]), Block(b.hash, b.height, b.chunks[..n]);
      forall c ensures IsNewChunk(now, c) <==>
                       IsNewChunk(before, c) || (b.chunks[n - 1].hash == c && b.chunks[n - 1].heightIncluded == b.height)
      {
        NewChunkStep(b, n, c);
      }
      var s0, s1 := ChunksReceived(s, b, n - 1), ChunksReceived(s, b, n);
      forall c | c in s1.chunks && c !in s.chunks ensures FreshFrom(now, c, s1.chunks[c]) {
        if c in s0.chunks {
          var i :| 0 <= i < n - 1 && before.chunks[i].hash == c && before.chunks[i].heightCreated == s0.chunks[c].heightCreated;
          assert now.chunks[i] == before.chunks[i];
        } else {
          assert now.chunks[n - 1] == b.chunks[n - 1];
        }
      }
    }
  }

  lemma NewChunkStep(b: Block, n: nat, c: ChunkHash)
    requires 0 < n <= |b.chunks|
    ensures IsNewChunk(Block(b.hash, b.height, b.chunks[..n]), c) <==>
            || IsNewChunk(Block(b.hash, b.height, b.chunks[..n - 1]), c)
            || (b.chunks[n - 1].hash == c && b.chunks[n - 1].heightIncluded == b.height)
  {
    var before, now := Block(b.hash, b.height, b.chunks[..n - 1]), Block(b.hash, b.height, b.chunks[..n]);
    if i :| 0 <= i < |before.chunks| && before.chunks[i].hash == c && before.chunks[i].heightIncluded == b.height {
      assert now.chunks[i] == before.chunks[i];
    }
    if i :| 0 <= i < |now.chunks| && now.chunks[i].hash == c && now.chunks[i].heightIncluded == b.height {
      if i < n - 1 {
        assert before.chunks[i] == now.chunks[i];
      }
    }
    assert now.chunks[n - 1] == b.chunks[n - 1];
  }

  lemma BlockTracked(s: State, b: Block)
    ensures b.hash in s.blocks ==> BlockReceived(s, b) == s
    ensures b.hash !in s.blocks ==> Tracked(s, BlockReceived(s, b), b)
  {
    if b.hash !in s.blocks {
      ChunksTracked(s, b, |b.chunks|);
      assert Block(b.hash, b.height, b.chunks[..|b.chunks|]) == b;
    }
  }

  lemma IndexGrows(heights: map<nat, seq<Hash>>, n: nat, h: Hash)
    requires Once(heights) && !Indexed(heights, h)
    ensures var heights' := heights[n := HashesAt(heights, n) + [h]];
            && Once(heights')
            && (forall x :: Indexed(heights', x) <==> x == h || Indexed(heights, x))
  {
    var heights' := heights[n := HashesAt(heights, n) + [h]];
    var last := |HashesAt(heights, n)|;
    assert At(heights', n, last, h);
    forall x, m, i | At(heights', m, i, x) && !(m == n && i == last) ensures At(heights, m, i, x) {
    }
    forall x, m, i | At(heights, m, i, x) ensures At(heights', m, i, x) {
    }
  }

  lemma BlockKeepsInv(s: State, b: Block)
    requires Inv(s)
    ensures Inv(BlockReceived(s, b))
  {
    if b.hash !in s.blocks {
      ChunksReceivedEffect(s, b, |b.chunks|);
      IndexGrows(s.heights, b.height, b.hash);
      var s' := BlockReceived(s, b);
      forall c | c in s'.chunks ensures c in s'.floating || exists h :: BelongsTo(s', c, h) {
        if c in ChunksOf(NewChunks(b)) {
          assert BelongsTo(s', c, b.hash);
        } else if c !in s.floating {
          var h :| BelongsTo(s, c, h);
          assert BelongsTo(s', c, h);
        }
      }
    }
  }

  lemma SamePlaces(s: State, s': State)
    requires Inv(s) && s'.blocks == s.blocks && s'.heights == s.heights
    requires forall c :: c in s.floating ==> c in s'.floating
    requires forall c :: c in s'.chunks ==> c in s.chunks || c in s'.floating
    ensures Inv(s')
  {
    forall c | c in s'.chunks && c !in s'.floating ensures exists h :: BelongsTo(s', c, h) {
      var h :| BelongsTo(s, c, h);
      assert BelongsTo(s', c, h);
    }
  }

  lemma ChunkKeepsInv(s: State, c: ChunkHeader, time: nat)
    requires Inv(s)
    ensures Inv(ChunkCompleted(s, c, time)) && Inv(ChunkRequested(s, c, time))
  {
    SamePlaces(s, ChunkCompleted(s, c, time));
    SamePlaces(s, ChunkRequested(s, c, time));
  }

  // ---------------------------------------------------------------------------
  // Moving the head
  // ---------------------------------------------------------------------------

  lemma {:induction false} HashesBelowExact(heights: map<nat, seq<Hash>>, n: nat)
    requires Once(heights)
    ensures forall h :: h in HashesBelow(heights, n) <==> IndexedBelow(heights, n, h)
    ensures forall i, j :: 0 <= i < j < |HashesBelow(heights, n)| ==> HashesBelow(heights, n)[i] != HashesBelow(heights, n)[j]
  {
    if n > 0 {
      HashesBelowExact(heights, n - 1);
      var lower, here := HashesBelow(heights, n - 1), HashesAt(heights, n - 1);
      forall i | 0 <= i < |here| ensures here[i] !in lower && IndexedBelow(heights, n, here[i]) {
        assert At(heights, n - 1, i, here[i]);
      }
      forall i, j | 0 <= i < j < |here| ensures here[i] != here[j] {
        assert At(heights, n - 1, i, here[i]) && At(heights, n - 1, j, here[j]);
      }
      forall h | IndexedBelow(heights, n, h) ensures h in lower + here {
        var m: nat, i: nat :| At(heights, m, i, h) && m < n;
        assert m < n - 1 ==> IndexedBelow(heights, n - 1, h);
      }
    }
  }

  lemma {:induction false} WithoutBlocksEffect(s: State, hashes: seq<Hash>, n: nat)
    requires n <= |hashes| && (forall i :: 0 <= i < |hashes| ==> hashes[i] in s.blocks)
    requires forall i, j :: 0 <= i < j < |hashes| ==> hashes[i] != hashes[j]
    ensures var r := WithoutBlocks(s, hashes, n);
            && r.Some? && r.value.heights == s.heights && r.value.floating == s.floating && r.value.head == s.head
            && r.value.blocks == s.blocks - (set i | 0 <= i < n :: hashes[i])
            && (forall c :: c in r.value.chunks ==> c in s.chunks && r.value.chunks[c] == s.chunks[c])
            && (forall c :: c in s.chunks ==>
                 (c in r.value.chunks <==> forall i :: 0 <= i < n ==> c !in ChunksOf(s.blocks[hashes[i]])))
  {
    if n > 0 {
      WithoutBlocksEffect(s, hashes, n - 1);
    }
  }

  ghost predicate Pruned(s: State, head: nat) {
    && (forall h :: h in s.blocks ==> !IndexedBelow(s.heights, Cutoff(head), h))
    && (forall n :: n in s.heights ==> n + BLOCK_DELAY_TRACKING_COUNT >= head)
    && (forall c :: c in s.floating ==> s.floating[c] + BLOCK_DELAY_TRACKING_COUNT >= head)
  }

  lemma IndexCut(heights: map<nat, seq<Hash>>, cutoff: nat)
    requires Once(heights)
    ensures var heights' := HeightsFrom(heights, cutoff);
            && Once(heights')
            && (forall h :: Indexed(heights', h) <==> Indexed(heights, h) && h !in HashesBelow(heights, cutoff))
  {
    HashesBelowExact(heights, cutoff);
    var heights' := HeightsFrom(heights, cutoff);
    forall h, n, i | At(heights', n, i, h) ensures At(heights, n, i, h) {
    }
    forall h | Indexed(heights, h) && h !in HashesBelow(heights, cutoff) ensures Indexed(heights', h) {
      var n, i :| At(heights, n, i, h);
      assert At(heights', n, i, h);
    }
  }

  /** The debug assertion never fails, and a block goes exactly when it is indexed below the cutoff. */
  lemma HeadKeepsInv(s: State, head: nat)
    requires Inv(s)
    ensures var r := HeadUpdated(s, head);
            && r.Some? && Inv(r.value) && r.value.head == head
            && (head != s.head ==>
                 && Pruned(r.value, head)
                 && (forall h :: h in s.blocks ==> (h in r.value.blocks <==> !IndexedBelow(s.heights, Cutoff(head), h))))
  {
    if head != s.head {
      var cutoff := Cutoff(head);
      var hashes := HashesBelow(s.heights, cutoff);
      var s1 := s.(head := head, heights := HeightsFrom(s.heights, cutoff));
      HashesBelowExact(s.heights, cutoff);
      forall i | 0 <= i < |hashes| ensures hashes[i] in s1.blocks {
        assert hashes[i] in hashes;
        assert Indexed(s.heights, hashes[i]);
      }
      WithoutBlocksEffect(s1, hashes, |hashes|);
      IndexCut(s.heights, cutoff);
      var s2 := WithoutBlocks(s1, hashes, |hashes|).value;
      assert forall h :: h in s2.blocks <==> h in s.blocks && h !in hashes;
      CutKeepsChunks(s, s2, hashes, cutoff);
    }
  }

  /** Chunks go with their blocks, and old floating chunks go. */
  lemma CutKeepsChunks(s: State, s2: State, hashes: seq<Hash>, cutoff: nat)
    requires ChunksPlaced(s) && (forall i :: 0 <= i < |hashes| ==> hashes[i] in s.blocks)
    requires forall h :: h in s.blocks && h !in hashes ==> h in s2.blocks && s2.blocks[h] == s.blocks[h]
    requires forall c :: c in s2.chunks ==> c in s.chunks && forall i :: 0 <= i < |hashes| ==> c !in ChunksOf(s.blocks[hashes[i]])
    ensures ChunksPlaced(s2.(chunks := s2.chunks - OldFloating(s, cutoff), floating := s.floating - OldFloating(s, cutoff)))
  {
    var s3 := s2.(chunks := s2.chunks - OldFloating(s, cutoff), floating := s.floating - OldFloating(s, cutoff));
    forall c | c in s3.chunks && c !in s3.floating ensures exists h :: BelongsTo(s3, c, h) {
      var h :| BelongsTo(s, c, h);
      assert BelongsTo(s3, c, h);
    }
  }

  // ---------------------------------------------------------------------------
  // Runs
  // ---------------------------------------------------------------------------

  datatype Event =
    | Received(block: Block)
    | Completed(chunk: ChunkHeader, time: nat)
    | Requested(chunk: ChunkHeader, time: nat)
    | HeadMoved(head: nat)

  function Step(s: State, e: Event): Option<State> {
    match e
    case Received(b) => Some(BlockReceived(s, b))
    case Completed(c, time) => Some(ChunkCompleted(s, c, time))
    case Requested(c, time) => Some(ChunkRequested(s, c, time))
    case HeadMoved(head) => HeadUpdated(s, head)
  }

  /** Nothing if a debug assertion fails on the way. */
  function Run(events: seq<Event>): Option<State> {
    if events == [] then Some(EMPTY)
    else
      var s := Run(events[..|events| - 1]);
      if s == None then None else Step(s.value, events[|events| - 1])
  }

  /** Over every run the indexes agree, and a change of the head prunes them. */
  lemma {:induction false} RunInv(events: seq<Event>)
    ensures Run(events).Some? && Inv(Run(events).value)
    ensures events != [] && events[|events| - 1].HeadMoved? ==>
              var head, before := events[|events| - 1].head, Run(events[..|events| - 1]);
              before.Some? && (head != before.value.head ==> Pruned(Run(events).value, head))
  {
    if events != [] {
      RunInv(events[..|events| - 1]);
      var s := Run(events[..|events| - 1]).value;
      match events[|events| - 1]
      case Received(b) => BlockKeepsInv(s, b);
      case Completed(c, time) => ChunkKeepsInv(s, c, time);
      case Requested(c, time) => ChunkKeepsInv(s, c, time);
      case HeadMoved(head) => HeadKeepsInv(s, head);
    }
  }

  /** No time that was noted has changed. */
  ghost predicate Kept(s: State, s1: State) {
    forall c :: c in s.chunks && c in s1.chunks ==>
      && s1.chunks[c].heightCreated == s.chunks[c].heightCreated
      && (s.chunks[c].requested.Some? ==> s1.chunks[c].requested == s.chunks[c].requested)
      && (s.chunks[c].completed.Some? ==> s1.chunks[c].completed == s.chunks[c].completed)
  }

  /** A time is noted by the first event of its kind since the chunk is tracked, and stays as long as it is. */
  lemma TimesKept(s: State, e: Event)
    requires Inv(s)
    ensures Step(s, e).Some?
    ensures var s1 := Step(s, e).value;
            && (forall c :: c in s.chunks && c in s1.chunks ==>
                 && s1.chunks[c].heightCreated == s.chunks[c].heightCreated
                 && (s.chunks[c].requested.Some? || !e.Requested? ==> s1.chunks[c].requested == s.chunks[c].requested)
                 && (s.chunks[c].completed.Some? || !e.Completed? ==> s1.chunks[c].completed == s.chunks[c].completed))
            && (forall c :: c in s1.chunks && (c in s.chunks ==> s.chunks[c].requested == None) ==>
                 s1.chunks[c].requested == if e.Requested? && e.chunk.hash == c then Some(e.time) else None)
            && (forall c :: c in s1.chunks && (c in s.chunks ==> s.chunks[c].completed == None) ==>
                 s1.chunks[c].completed == if e.Completed? && e.chunk.hash == c then Some(e.time) else None)
            && (e.Requested? || e.Completed? ==> e.chunk.hash in s1.chunks)
  {
    match e
    case Received(b) => BlockTracked(s, b);
    case HeadMoved(head) =>
      HeadKeepsInv(s, head);
      HeadKeepsTimes(s, head);
    case _ =>
  }

  lemma HeadKeepsTimes(s: State, head: nat)
    requires HeadUpdated(s, head).Some?
    ensures var s1 := HeadUpdated(s, head).value;
            forall c :: c in s1.chunks ==> c in s.chunks && s1.chunks[c] == s.chunks[c]
  {
    if head != s.head {
      var hashes := HashesBelow(s.heights, Cutoff(head));
      var s1 := s.(head := head, heights := HeightsFrom(s.heights, Cutoff(head)));
      WithoutBlocksChunks(s1, hashes, |hashes|);
    }
  }

  lemma {:induction false} WithoutBlocksChunks(s: State, hashes: seq<Hash>, n: nat)
    requires n <= |hashes| && WithoutBlocks(s, hashes, n).Some?
    ensures var s1 := WithoutBlocks(s, hashes, n).value;
            forall c :: c in s1.chunks ==> c in s.chunks && s1.chunks[c] == s.chunks[c]
  {
    if n > 0 {
      WithoutBlocksChunks(s, hashes, n - 1);
    }
  }

  // ---------------------------------------------------------------------------
  // The links in the other direction
  // ---------------------------------------------------------------------------

  /** Every floating chunk and every chunk of a tracked block is tracked itself, and none is both. */
  ghost predicate Linked(s: State) {
    && (forall c :: c in s.floating ==> c in s.chunks)
    && (forall c, h :: BelongsTo(s, c, h) ==> c in s.chunks && c !in s.floating)
  }

  lemma {:induction false} ChunksReceivedAll(s: State, b: Block, n: nat)
    requires n <= |b.chunks|
    ensures var s1 := ChunksReceived(s, b, n);
            forall i :: 0 <= i < n && b.chunks[i].heightIncluded == b.height ==>
                         b.chunks[i].hash in s1.chunks && b.chunks[i].hash !in s1.floating
  {
    if n > 0 {
      ChunksReceivedAll(s, b, n - 1);
    }
  }

  lemma BlockKeepsLinked(s: State, b: Block)
    requires Linked(s)
    ensures Linked(BlockReceived(s, b))
  {
    if b.hash !in s.blocks {
      ChunksReceivedEffect(s, b, |b.chunks|);
      ChunksReceivedAll(s, b, |b.chunks|);
      var s' := BlockReceived(s, b);
      forall c, h | BelongsTo(s', c, h) ensures c in s'.chunks && c !in s'.floating {
        if h == b.hash {
          var i :| 0 <= i < |NewChunks(b)| && NewChunks(b)[i] == Some(c);
          assert b.chunks[i].hash == c;
        } else {
          assert BelongsTo(s, c, h);
        }
      }
    }
  }

  lemma ChunkKeepsLinked(s: State, c: ChunkHeader, time: nat)
    requires Linked(s)
    ensures Linked(ChunkCompleted(s, c, time)) && Linked(ChunkRequested(s, c, time))
  {
    forall x, h | BelongsTo(s, x, h) ensures x in s.chunks && x !in s.floating {
    }
    assert forall x, h :: BelongsTo(ChunkCompleted(s, c, time), x, h) ==> BelongsTo(s, x, h);
    assert forall x, h :: BelongsTo(ChunkRequested(s, c, time), x, h) ==> BelongsTo(s, x, h);
  }

  /** What a move of the head leaves: the blocks from the cutoff on, and the chunks of no removed block. */
  lemma HeadEffect(s: State, head: nat)
    requires Inv(s) && head != s.head
    ensures HeadUpdated(s, head).Some?
    ensures var s', cutoff := HeadUpdated(s, head).value, Cutoff(head);
            && s'.heights == HeightsFrom(s.heights, cutoff) && s'.floating == s.floating - OldFloating(s, cutoff)
            && (forall h :: h in s'.blocks <==> h in s.blocks && !IndexedBelow(s.heights, cutoff, h))
            && (forall h :: h in s'.blocks ==> s'.blocks[h] == s.blocks[h])
            && (forall c :: c in s'.chunks <==>
                 && c in s.chunks && c !in OldFloating(s, cutoff)
                 && forall h :: BelongsTo(s, c, h) ==> !IndexedBelow(s.heights, cutoff, h))
  {
    HeadKeepsInv(s, head);
    var cutoff := Cutoff(head);
    var hashes := HashesBelow(s.heights, cutoff);
    var s1 := s.(head := head, heights := HeightsFrom(s.heights, cutoff));
    HashesBelowExact(s.heights, cutoff);
    forall i | 0 <= i < |hashes| ensures hashes[i] in s1.blocks {
      assert hashes[i] in hashes;
      assert Indexed(s.heights, hashes[i]);
    }
    WithoutBlocksEffect(s1, hashes, |hashes|);
    var s2 := WithoutBlocks(s1, hashes, |hashes|).value;
    assert forall h :: h in s2.blocks <==> h in s.blocks && h !in hashes;
    forall c | c in s.chunks
      ensures c in s2.chunks <==> forall h :: BelongsTo(s, c, h) ==> !IndexedBelow(s.heights, cutoff, h)
    {
      ChunkLost(s, s2, hashes, cutoff, c);
    }
  }

  /** The index and the floating chunks are cut 50 heights below the head, and nowhere else. */
  lemma HeadCuts(s: State, head: nat)
    requires Inv(s) && head != s.head
    ensures HeadUpdated(s, head).Some?
    ensures var s', cutoff := HeadUpdated(s, head).value, if head >= 50 then head - 50 else 0;
            && s'.head == head
            && (forall n :: n in s'.heights <==> n in s.heights && n >= cutoff)
            && (forall n :: n in s'.heights ==> s'.heights[n] == s.heights[n])
            && (forall c :: c in s'.floating <==> c in s.floating && s.floating[c] >= cutoff)
            && (forall c :: c in s'.floating ==> s'.floating[c] == s.floating[c])
            && (forall h :: h in s'.blocks <==> h in s.blocks && !IndexedBelow(s.heights, cutoff, h))
  {
    HeadEffect(s, head);
    WithoutBlocksHead(s.(head := head, heights := HeightsFrom(s.heights, Cutoff(head))), HashesBelow(s.heights, Cutoff(head)),
                      |HashesBelow(s.heights, Cutoff(head))|);
  }

  lemma {:induction false} WithoutBlocksHead(s: State, hashes: seq<Hash>, n: nat)
    requires n <= |hashes| && WithoutBlocks(s, hashes, n).Some?
    ensures WithoutBlocks(s, hashes, n).value.head == s.head
  {
    if n > 0 {
      WithoutBlocksHead(s, hashes, n - 1);
    }
  }

  lemma ChunkLost(s: State, s2: State, hashes: seq<Hash>, cutoff: nat, c: ChunkHash)
    requires c in s.chunks && (forall i :: 0 <= i < |hashes| ==> hashes[i] in s.blocks)
    requires forall h :: h in hashes <==> IndexedBelow(s.heights, cutoff, h)
    requires c in s2.chunks <==> forall i :: 0 <= i < |hashes| ==> c !in ChunksOf(s.blocks[hashes[i]])
    ensures c in s2.chunks <==> forall h :: BelongsTo(s, c, h) ==> !IndexedBelow(s.heights, cutoff, h)
  {
    if c in s2.chunks {
      forall h | BelongsTo(s, c, h) ensures !IndexedBelow(s.heights, cutoff, h) {
        assert h !in hashes;
      }
    } else {
      var i :| 0 <= i < |hashes| && c in ChunksOf(s.blocks[hashes[i]]);
      assert BelongsTo(s, c, hashes[i]) && hashes[i] in hashes;
    }
  }

  /** A chunk belongs to a block below the cutoff and to one that stays. */
  ghost predicate SharedAcross(s: State, cutoff: nat) {
    exists c, h, h' :: BelongsTo(s, c, h) && BelongsTo(s, c, h') && IndexedBelow(s.heights, cutoff, h)
                       && !IndexedBelow(s.heights, cutoff, h')
  }

  /** A move of the head keeps the links if and only if no chunk is shared across the cutoff. */
  lemma HeadKeepsLinkedIff(s: State, head: nat)
    requires Inv(s) && Linked(s) && head != s.head
    ensures HeadUpdated(s, head).Some?
    ensures Linked(HeadUpdated(s, head).value) <==> !SharedAcross(s, Cutoff(head))
  {
    HeadEffect(s, head);
    var s', cutoff := HeadUpdated(s, head).value, Cutoff(head);
    if SharedAcross(s, cutoff) {
      var c, h, h' :| BelongsTo(s, c, h) && BelongsTo(s, c, h') && IndexedBelow(s.heights, cutoff, h)
                      && !IndexedBelow(s.heights, cutoff, h');
      assert BelongsTo(s', c, h') && c !in s'.chunks;
    } else {
      forall c, h | BelongsTo(s', c, h) ensures c in s'.chunks && c !in s'.floating {
        assert BelongsTo(s, c, h);
      }
      forall c | c in s'.floating ensures c in s'.chunks {
        assert forall h :: !BelongsTo(s, c, h);
      }
    }
  }

  /** A move of the head that separates two blocks which share a chunk. */
  ghost predicate Separates(s: State, e: Event) {
    e.HeadMoved? && e.head != s.head && SharedAcross(s, Cutoff(e.head))
  }

  lemma StepKeepsLinkedIff(s: State, e: Event)
    requires Inv(s) && Linked(s)
    ensures Step(s, e).Some? && (Linked(Step(s, e).value) <==> !Separates(s, e))
  {
    match e
    case Received(b) => BlockKeepsLinked(s, b);
    case Completed(c, time) => ChunkKeepsLinked(s, c, time);
    case Requested(c, time) => ChunkKeepsLinked(s, c, time);
    case HeadMoved(head) =>
      if head != s.head {
        HeadKeepsLinkedIff(s, head);
      }
  }

  ghost predicate LinkedAfter(events: seq<Event>) {
    Run(events).Some? && Linked(Run(events).value)
  }

  ghost predicate SeparatesAfter(events: seq<Event>, e: Event) {
    Run(events).Some? && Separates(Run(events).value, e)
  }

  ghost predicate LinkedThroughout(events: seq<Event>) {
    forall n :: 0 <= n <= |events| ==> LinkedAfter(events[..n])
  }

  ghost predicate NeverSeparates(events: seq<Event>) {
    forall n :: 0 <= n < |events| ==> !SeparatesAfter(events[..n], events[n])
  }

  lemma OneMoreEvent(init: seq<Event>, e: Event)
    ensures LinkedThroughout(init + [e]) <==> LinkedThroughout(init) && LinkedAfter(init + [e])
    ensures NeverSeparates(init + [e]) <==> NeverSeparates(init) && !SeparatesAfter(init, e)
  {
    var events := init + [e];
    assert forall n :: 0 <= n <= |init| ==> events[..n] == init[..n];
    assert init[..|init|] == init && events[..|events|] == events && events[|init|] == e;
  }

  /** Over every run: the links hold in both directions throughout if and only if no move of the head separates two blocks
      which share a chunk. */
  lemma {:induction false} RunLinkedIff(events: seq<Event>)
    ensures Run(events).Some? && Inv(Run(events).value)
    ensures LinkedThroughout(events) <==> NeverSeparates(events)
    ensures LinkedThroughout(events) ==> Linked(Run(events).value)
  {
    RunInv(events);
    assert events[..|events|] == events;
    if events == [] {
      assert LinkedAfter([]) && forall n :: 0 <= n <= |events| ==> events[..n] == [];
    } else {
      var init, e := events[..|events| - 1], events[|events| - 1];
      assert events == init + [e];
      RunLinkedIff(init);
      OneMoreEvent(init, e);
      if LinkedThroughout(init) {
        StepKeepsLinkedIff(Run(init).value, e);
      }
    }
  }

  /** Otherwise a tracked block can be left with a chunk that is not tracked, and a request can make that chunk float
      for longer than it is tracked. */
  lemma SharedChunkLost(s: State, c: ChunkHeader, h: Hash, h': Hash, head: nat, head': nat)
    requires Inv(s) && BelongsTo(s, c.hash, h) && BelongsTo(s, c.hash, h') && c.hash !in s.floating
    requires s.head != head && head != head' && Cutoff(head) <= Cutoff(head') <= c.heightCreated
    requires IndexedBelow(s.heights, Cutoff(head), h) && !IndexedBelow(s.heights, Cutoff(head), h')
    requires IndexedBelow(s.heights, Cutoff(head'), h')
    ensures HeadUpdated(s, head).Some?
    ensures var s1 := HeadUpdated(s, head).value;
            && BelongsTo(s1, c.hash, h') && c.hash !in s1.chunks
            && var r := HeadUpdated(ChunkRequested(s1, c, 0), head');
               r.Some? && c.hash in r.value.floating && c.hash !in r.value.chunks
  {
    HeadEffect(s, head);
    HeadKeepsInv(s, head);
    var s1 := HeadUpdated(s, head).value;
    var s2 := ChunkRequested(s1, c, 0);
    ChunkKeepsInv(s1, c, 0);
    HeadEffect(s2, head');
    assert BelongsTo(s2, c.hash, h');
    var n: nat, i: nat :| At(s.heights, n, i, h') && n < Cutoff(head');
    assert n >= Cutoff(head);
    assert At(s2.heights, n, i, h');
  }

  /** One such input: blocks 1 and 2, at heights 10 and 20, share chunk 7; the head moves to 65, the chunk, created at
      height 60, is requested again, and the head moves to 75. */
  lemma SharedChunkLostInput(s: State, head: nat, head': nat)
    requires s == BlockReceived(BlockReceived(EMPTY, Block(1, 10, [ChunkHeader(7, 60, 10)])), Block(2, 20, [ChunkHeader(7, 60, 20)]))
    requires head == 65 && head' == 75
    ensures HeadUpdated(s, head).Some?
    ensures var s1 := HeadUpdated(s, head).value;
            && BelongsTo(s1, 7, 2) && 7 !in s1.chunks
            && var r := HeadUpdated(ChunkRequested(s1, ChunkHeader(7, 60, 20), 0), head');
               r.Some? && 7 in r.value.floating && 7 !in r.value.chunks
  {
    var b1, b2 := Block(1, 10, [ChunkHeader(7, 60, 10)]), Block(2, 20, [ChunkHeader(7, 60, 20)]);
    var s1 := BlockReceived(EMPTY, b1);
    BlockKeepsInv(EMPTY, b1);
    BlockKeepsInv(s1, b2);
    ChunksReceivedEffect(EMPTY, b1, 1);
    ChunksReceivedEffect(s1, b2, 1);
    assert NewChunks(b1)[0] == Some(7) && NewChunks(b2)[0] == Some(7);
    assert BelongsTo(s, 7, 1) && BelongsTo(s, 7, 2);
    assert [] + [1] == [1] && [] + [2] == [2];
    assert s1.heights[10] == [1] && s.heights[20] == [2];
    assert At(s.heights, 10, 0, 1) && At(s.heights, 20, 0, 2);
    SharedChunkLost(s, ChunkHeader(7, 60, 20), 1, 2, head, head');
  }

  // ---------------------------------------------------------------------------
  // The tracker
  // ---------------------------------------------------------------------------

  lemma {:induction false} WithoutBlocksPrefix(s: State, hashes: seq<Hash>, i: nat, n: nat)
    requires i <= n <= |hashes| && WithoutBlocks(s, hashes, n).Some?
    ensures WithoutBlocks(s, hashes, i).Some?
  {
    if i < n {
      WithoutBlocksPrefix(s, hashes, i, n - 1);
    }
  }

  lemma ChunksOfStep(block: seq<Option<ChunkHash>>, j: nat)
    requires j < |block|
    ensures ChunksOf(block[..j + 1]) == ChunksOf(block[..j]) + (if block[j].Some? then {block[j].value} else {})
  {
    assert block[..j + 1] == block[..j] + [block[j]];
    var more := block[..j + 1];
    assert forall i :: 0 <= i < j ==> more[i] == block[..j][i];
    assert more[j] == block[j];
  }

  class BlocksDelayTracker {
    var blocks: map<Hash, seq<Option<ChunkHash>>>
    var heights: map<nat, seq<Hash>>
    var chunks: map<ChunkHash, ChunkStats>
    var floating: map<ChunkHash, nat>
    var head: nat

    ghost function View(): State
      reads this
    {
      State(blocks, heights, chunks, floating, head)
    }

    constructor ()
      ensures View() == EMPTY
    {
      blocks, heights, chunks, floating, head := map[], map[], map[], map[], 0;
    }

    method MarkBlockReceived(b: Block)
      modifies this
      ensures View() == BlockReceived(old(View()), b)
      ensures b.hash in old(blocks) ==> View() == old(View())
      ensures b.hash !in old(blocks) ==> Tracked(old(View()), View(), b)
    {
      BlockTracked(View(), b);
      if b.hash !in blocks {
        TrackBlock(b);
      }
    }

    method TrackBlock(b: Block)
      requires b.hash !in blocks
      modifies this
      ensures View() == BlockReceived(old(View()), b)
    {
      var newChunks: seq<Option<ChunkHash>> := [];
      for i := 0 to |b.chunks|
        invariant View() == ChunksReceived(old(View()), b, i)
        invariant blocks == old(blocks) && heights == old(heights)
        invariant |newChunks| == i && forall j :: 0 <= j < i ==> newChunks[j] == NewChunks(b)[j]
      {
        var c := b.chunks[i];
        if c.heightIncluded == b.height {
          if c.hash !in chunks {
            chunks := chunks[c.hash := NewStats(c)];
          }
          floating := floating - {c.hash};
          newChunks := newChunks + [Some(c.hash)];
        } else {
          newChunks := newChunks + [None];
        }
      }
      assert newChunks == NewChunks(b);
      blocks := blocks[b.hash := newChunks];
      heights := heights[b.height := HashesAt(heights, b.height) + [b.hash]];
    }

    method Touch(c: ChunkHeader)
      modifies this`chunks, this`floating
      ensures View() == Touched(old(View()), c)
    {
      if c.hash !in chunks {
        floating := floating[c.hash := c.heightCreated];
        chunks := chunks[c.hash := NewStats(c)];
      }
    }

    method MarkChunkCompleted(c: ChunkHeader, time: nat)
      modifies this`chunks, this`floating
      ensures View() == ChunkCompleted(old(View()), c, time)
      ensures Kept(old(View()), View())
      ensures c.hash in chunks && forall x :: x in chunks && x != c.hash ==> x in old(chunks) && chunks[x] == old(chunks)[x]
      ensures chunks[c.hash] == if c.hash !in old(chunks) then ChunkStats(c.heightCreated, None, Some(time))
                                else if old(chunks)[c.hash].completed.Some? then old(chunks)[c.hash]
                                else old(chunks)[c.hash].(completed := Some(time))
      ensures floating == if c.hash in old(chunks) then old(floating) else old(floating)[c.hash := c.heightCreated]
      ensures old(Inv(View())) ==> Inv(View())
    {
      if Inv(View()) {
        ChunkKeepsInv(View(), c, time);
      }
      Touch(c);
      var stats := chunks[c.hash];
      chunks := chunks[c.hash := stats.(completed := First(stats.completed, time))];
    }

    method MarkChunkRequested(c: ChunkHeader, time: nat)
      modifies this`chunks, this`floating
      ensures View() == ChunkRequested(old(View()), c, time)
      ensures Kept(old(View()), View())
      ensures c.hash in chunks && forall x :: x in chunks && x != c.hash ==> x in old(chunks) && chunks[x] == old(chunks)[x]
      ensures chunks[c.hash] == if c.hash !in old(chunks) then ChunkStats(c.heightCreated, Some(time), None)
                                else if old(chunks)[c.hash].requested.Some? then old(chunks)[c.hash]
                                else old(chunks)[c.hash].(requested := Some(time))
      ensures floating == if c.hash in old(chunks) then old(floating) else old(floating)[c.hash := c.heightCreated]
      ensures old(Inv(View())) ==> Inv(View())
    {
      if Inv(View()) {
        ChunkKeepsInv(View(), c, time);
      }
      Touch(c);
      var stats := chunks[c.hash];
      chunks := chunks[c.hash := stats.(requested := First(stats.requested, time))];
    }

    method RemoveBlock(h: Hash)
      requires h in blocks
      modifies this`blocks, this`chunks
      ensures View() == WithoutBlock(old(View()), h)
    {
      var block := blocks[h];
      blocks := blocks - {h};
      for j := 0 to |block|
        invariant chunks == old(chunks) - ChunksOf(block[..j])
        modifies this`chunks
      {
        ChunksOfStep(block, j);
        if block[j].Some? {
          chunks := chunks - {block[j].value};
        }
      }
      assert block[..|block|] == block;
    }

    method RemoveBlocks(hashes: seq<Hash>)
      requires WithoutBlocks(View(), hashes, |hashes|).Some?
      modifies this`blocks, this`chunks
      ensures Some(View()) == WithoutBlocks(old(View()), hashes, |hashes|)
    {
      for i := 0 to |hashes|
        invariant Some(View()) == WithoutBlocks(old(View()), hashes, i)
      {
        WithoutBlocksPrefix(old(View()), hashes, i + 1, |hashes|);
        if hashes[i] in blocks {
          RemoveBlock(hashes[i]);
        } else {
          assert false;
        }
      }
    }

    method RemoveFloating(cutoff: nat)
      modifies this`chunks, this`floating
      ensures var removed := OldFloating(old(View()), cutoff);
              chunks == old(chunks) - removed && floating == old(floating) - removed
    {
      var todo := set c | c in floating && floating[c] < cutoff;
      ghost var all := todo;
      while todo != {}
        invariant todo <= all
        invariant chunks == old(chunks) - (all - todo) && floating == old(floating) - (all - todo)
        decreases todo
      {
        var c :| c in todo;
        todo := todo - {c};
        chunks := chunks - {c};
        floating := floating - {c};
      }
    }

    method UpdateHead(newHead: nat)
      requires Inv(View())
      modifies this
      ensures Some(View()) == HeadUpdated(old(View()), newHead) && Inv(View())
      ensures newHead == old(head) ==> View() == old(View())
      ensures newHead != old(head) ==>
                head == newHead && forall n :: n in heights <==> n in old(heights) && n + 50 >= newHead
    {
      HeadKeepsInv(View(), newHead);
      if newHead != head {
        HeadCuts(View(), newHead);
        var cutoff := Cutoff(newHead);
        head := newHead;
        var hashes := HashesBelow(heights, cutoff);
        heights := HeightsFrom(heights, cutoff);
        RemoveBlocks(hashes);
        RemoveFloating(cutoff);
      }
    }
  }
}
