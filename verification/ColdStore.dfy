/**
 Copying from the hot to the cold store: blocks are copied one by one, up to the
 final head, and each block column by column, while the hot store goes on
 finalizing blocks and collecting garbage.
 */
module ColdStore {
  import opened Prelude

  type Value = nat

  /** When the keys of a block are looked up, its `Required` columns (the block, its chunks) are read first, and then the
      `Listed` ones (state changes, outcome ids); what is read stays in the cache of the copy.  `Hanging` columns hang on
      the trie changes of the block or on its parent (the state, the link to the next block), which garbage collection
      takes when the tail reaches the block; all others go with the block, when the tail has passed it. */
  datatype Kind = Required | Listed | Own | Hanging

  datatype Column = Column(id: nat, kind: Kind)

  /** What is stored of a block, by column. */
  type Content = map<Column, Value>

  datatype CopyError =
    | ColdHeadAhead
    | ColdHeadBehindTail
    | NoColdHeadHash
    | AllSkipped
    | DataMissing

  datatype CopyResult =
    | NoBlockCopied
    | LatestBlockCopied
    | OtherBlockCopied
    | Failed(error: CopyError)

  /** Where a call of `cold_store_copy` stands; `final` is the final head it has read. */
  datatype Pc =
    | Idle
    | Trying(next: nat, final: nat)
    | Reading(next: nat, final: nat, unread: set<Column>, cache: Content)
    | Copying(next: nat, final: nat, todo: set<Column>, cache: Content)
    | Copied(next: nat, final: nat)

  /** `heights` is the index of the hot store, which is never collected, with what each block consists of; `data` holds
      what is not yet collected. */
  datatype Store = Store(
    heights: map<nat, Content>, data: map<nat, Content>, finalHead: nat, tail: nat,
    cold: map<nat, Content>, coldHead: nat,
    pc: Pc, result: Option<CopyResult>)

  function ContentAt(blocks: map<nat, Content>, h: nat): Content {
    if h in blocks then blocks[h] else map[]
  }

  /** The columns that are read when the keys are looked up. */
  function KeyColumns(content: Content): set<Column> {
    set k | k in content && (k.kind.Required? || k.kind.Listed?)
  }

  function Part(content: Content, columns: set<Column>): Content {
    map k | k in content && k in columns :: content[k]
  }

  function LastingPart(content: Content): Content {
    map k | k in content && !k.kind.Hanging? :: content[k]
  }

  // ---------------------------------------------------------------------------
  // Steps of a copy
  // ---------------------------------------------------------------------------

  function Returned(s: Store, r: CopyResult): Store {
    s.(pc := Idle, result := Some(r))
  }

  /** The heads are read and compared. */
  function Begin(s: Store): Store {
    if s.coldHead > s.finalHead then Returned(s, Failed(ColdHeadAhead))
    else if s.coldHead < s.tail then Returned(s, Failed(ColdHeadBehindTail))
    else if s.coldHead >= s.finalHead then Returned(s, NoBlockCopied)
    else if s.coldHead !in s.heights then Returned(s, Failed(NoColdHeadHash))
    else s.(pc := Trying(s.coldHead + 1, s.finalHead))
  }

  /** One height is tried; if there is a block, its keys are looked up. */
  function TryHeight(s: Store): Store
    requires s.pc.Trying?
  {
    var Trying(next, final) := s.pc;
    if next !in s.heights then
      if next + 1 > final then Returned(s, Failed(AllSkipped)) else s.(pc := Trying(next + 1, final))
    else if next !in s.data then Returned(s, Failed(DataMissing))
    else s.(pc := Reading(next, final, KeyColumns(s.heights[next]), map[]))
  }

  /** One column is read for its keys. */
  function ColumnRead(s: Store, k: Column): Store
    requires s.pc.Reading?
  {
    var Reading(next, final, unread, cache) := s.pc;
    var found := ContentAt(s.data, next);
    if k in found then s.(pc := Reading(next, final, unread - {k}, cache[k := found[k]]))
    else if k.kind.Required? then Returned(s, Failed(DataMissing))
    else s.(pc := Reading(next, final, unread - {k}, cache))
  }

  function KeysFound(s: Store): Store
    requires s.pc.Reading?
  {
    s.(pc := Copying(s.pc.next, s.pc.final, ContentAt(s.heights, s.pc.next).Keys, s.pc.cache))
  }

  /** What a copy can read of its block: the cache comes first. */
  function Seen(s: Store): Content
    requires s.pc.Copying?
  {
    ContentAt(s.data, s.pc.next) + s.pc.cache
  }

  /** What is stored, with column `k` added; if it is absent by now, it is skipped without an error. */
  function WithColumn(stored: Content, seen: Content, k: Column): Content {
    if k in seen then stored[k := seen[k]] else stored
  }

  /** One column is copied. */
  function ColumnCopied(s: Store, k: Column): Store
    requires s.pc.Copying?
  {
    var Copying(next, final, todo, cache) := s.pc;
    s.(cold := s.cold[next := WithColumn(ContentAt(s.cold, next), Seen(s), k)],
       pc := Copying(next, final, todo - {k}, cache))
  }

  function ColumnsDone(s: Store): Store
    requires s.pc.Copying?
  {
    s.(pc := Copied(s.pc.next, s.pc.final))
  }

  /** The cold head moves to the copied block. */
  function MoveHead(s: Store): Store
    requires s.pc.Copied?
  {
    var Copied(next, final) := s.pc;
    Returned(s.(coldHead := next), if next >= final then LatestBlockCopied else OtherBlockCopied)
  }

  ghost predicate ReadStep(s: Store, s': Store, k: Column) {
    s.pc.Reading? && k in s.pc.unread && s' == ColumnRead(s, k)
  }

  ghost predicate ColumnStep(s: Store, s': Store, k: Column) {
    s.pc.Copying? && k in s.pc.todo && s' == ColumnCopied(s, k)
  }

  ghost predicate CopyStep(s: Store, s': Store) {
    match s.pc
    case Idle => s' == Begin(s)
    case Trying(_, _) => s' == TryHeight(s)
    case Reading(_, _, unread, _) => (exists k :: ReadStep(s, s', k)) || (unread == {} && s' == KeysFound(s))
    case Copying(_, _, todo, _) => (exists k :: ColumnStep(s, s', k)) || (todo == {} && s' == ColumnsDone(s))
    case Copied(_, _) => s' == MoveHead(s)
  }

  // ---------------------------------------------------------------------------
  // Steps of the hot store
  // ---------------------------------------------------------------------------

  ghost predicate SameUpTo(a: map<nat, Content>, b: map<nat, Content>, top: nat) {
    forall h :: h <= top ==> (h in b <==> h in a) && (h in a ==> b[h] == a[h])
  }

  /** New blocks are indexed and the final head rises; at and below the final head the index no longer changes. */
  ghost predicate ChainGrows(s: Store, s': Store) {
    && s' == s.(heights := s'.heights, data := s'.data, finalHead := s'.finalHead)
    && s.finalHead <= s'.finalHead && s'.finalHead in s'.heights
    && SameUpTo(s.heights, s'.heights, s.finalHead) && SameUpTo(s.data, s'.data, s.finalHead)
    && (forall h :: h > s.finalHead ==>
         (h in s'.data <==> h in s'.heights) && (h in s'.heights ==> s'.data[h] == s'.heights[h]))
  }

  /** What remains of a block while it is not collected as a whole: only hanging columns can be gone. */
  ghost predicate Remains(part: Content, whole: Content) {
    Within(part, whole) && forall k :: k in whole && !k.kind.Hanging? ==> k in part
  }

  /** Garbage collection moves the tail and removes blocks below it, and hanging columns of the block it reaches. */
  ghost predicate TailRises(s: Store, s': Store) {
    && s' == s.(data := s'.data, tail := s'.tail)
    && s.tail <= s'.tail <= s.finalHead
    && (forall h :: h in s'.data ==> h in s.data && Remains(s'.data[h], s.data[h]))
    && (forall h :: h in s.data && h >= s'.tail ==> h in s'.data && (h > s'.tail ==> s'.data[h] == s.data[h]))
  }

  /** Garbage collection of a split store stops at the cold head. */
  ghost predicate GcStep(s: Store, s': Store) {
    TailRises(s, s') && s'.tail <= s.coldHead
  }

  ghost predicate Init(s: Store) {
    && s.pc == Idle && s.result == None
    && s.tail <= s.coldHead <= s.finalHead && s.finalHead in s.heights && s.coldHead in s.heights
    && DataOk(s) && Genuine(s, s.coldHead)
  }

  /** Runs in which garbage collection stops at the cold head. */
  ghost predicate Behavior(ss: seq<Store>) {
    && ss != [] && Init(ss[0])
    && (forall i :: 0 < i < |ss| ==> CopyStep(ss[i - 1], ss[i]) || ChainGrows(ss[i - 1], ss[i]) || GcStep(ss[i - 1], ss[i]))
  }

  ghost predicate LooseStep(s: Store, s': Store) {
    CopyStep(s, s') || ChainGrows(s, s') || TailRises(s, s')
  }

  ghost predicate LooseSteps(ss: seq<Store>) {
    forall i :: 0 < i < |ss| ==> LooseStep(ss[i - 1], ss[i])
  }

  /** Runs in which it does not. */
  ghost predicate LooseBehavior(ss: seq<Store>) {
    ss != [] && Init(ss[0]) && LooseSteps(ss)
  }

  // ---------------------------------------------------------------------------
  // The invariant of all runs
  // ---------------------------------------------------------------------------

  /** Every indexed block from the tail on is there, above the tail with all its columns, and nothing else is. */
  ghost predicate DataOk(s: Store) {
    && (forall h :: h in s.data ==> h in s.heights && Remains(s.data[h], s.heights[h]))
    && (forall h :: h in s.heights && h >= s.tail ==> h in s.data && (h > s.tail ==> s.data[h] == s.heights[h]))
  }

  /** What the cold store has of a block above `start` is what the block consists of, or part of it. */
  ghost predicate Genuine(s: Store, start: nat) {
    forall h :: h in s.cold && h > start ==> h <= s.finalHead && h in s.heights && Within(s.cold[h], s.heights[h])
  }

  ghost predicate Skipped(s: Store, lo: nat, hi: nat) {
    forall h :: lo < h < hi ==> h !in s.heights
  }

  /** What is cached belongs to the block, and every required column is cached or still to be read. */
  ghost predicate CacheOk(content: Content, unread: set<Column>, cache: Content) {
    && unread <= KeyColumns(content) && Within(cache, Part(content, KeyColumns(content)))
    && (forall k :: k in content && k.kind.Required? ==> k in unread || k in cache)
  }

  ghost predicate PcOk(s: Store) {
    match s.pc
    case Idle => true
    case Trying(next, final) =>
      s.coldHead < next <= final <= s.finalHead && final in s.heights && Skipped(s, s.coldHead, next)
    case Reading(next, final, unread, cache) =>
      && s.coldHead < next <= final <= s.finalHead && next in s.heights && Skipped(s, s.coldHead, next)
      && CacheOk(s.heights[next], unread, cache)
    case Copying(next, final, todo, cache) =>
      && s.coldHead < next <= final <= s.finalHead && next in s.heights && Skipped(s, s.coldHead, next)
      && todo <= s.heights[next].Keys && CacheOk(s.heights[next], {}, cache)
    case Copied(next, final) =>
      s.coldHead < next <= final <= s.finalHead && next in s.heights && Skipped(s, s.coldHead, next)
  }

  ghost predicate HasFailed(s: Store) {
    s.result.Some? && s.result.value.Failed?
  }

  /** `start` is the height of the cold head at the beginning. */
  ghost predicate Inv(s: Store, start: nat) {
    && start <= s.coldHead <= s.finalHead && s.coldHead in s.heights && s.finalHead in s.heights && s.tail <= s.finalHead
    && DataOk(s) && Genuine(s, start) && PcOk(s)
    && (HasFailed(s) ==> s.result.value.error == ColdHeadBehindTail || s.result.value.error == DataMissing)
  }

  lemma TryKeepsInv(s: Store, start: nat)
    requires Inv(s, start) && s.pc.Trying?
    ensures Inv(TryHeight(s), start)
  {
    if s.pc.next !in s.heights {
      assert s.pc.next != s.pc.final;
    }
  }

  lemma ReadKeepsInv(s: Store, k: Column, start: nat)
    requires Inv(s, start) && s.pc.Reading? && k in s.pc.unread
    ensures Inv(ColumnRead(s, k), start)
  {
    var Reading(next, _, unread, cache) := s.pc;
    var found := ContentAt(s.data, next);
    if k in found {
      assert CacheOk(s.heights[next], unread - {k}, cache[k := found[k]]);
    } else if !k.kind.Required? {
      assert CacheOk(s.heights[next], unread - {k}, cache);
    }
  }

  lemma KeysKeepInv(s: Store, start: nat)
    requires Inv(s, start) && s.pc.Reading? && s.pc.unread == {}
    ensures Inv(KeysFound(s), start)
  {
  }

  lemma ColumnKeepsInv(s: Store, k: Column, start: nat)
    requires Inv(s, start) && s.pc.Copying? && k in s.pc.todo
    ensures Inv(ColumnCopied(s, k), start)
  {
    var next := s.pc.next;
    assert Within(ContentAt(ColumnCopied(s, k).cold, next), s.heights[next]);
  }

  lemma BeginKeepsInv(s: Store, start: nat)
    requires Inv(s, start) && s.pc.Idle?
    ensures Inv(Begin(s), start)
  {
  }

  lemma DoneKeepsInv(s: Store, start: nat)
    requires Inv(s, start) && s.pc.Copying?
    ensures Inv(ColumnsDone(s), start)
  {
  }

  lemma MoveKeepsInv(s: Store, start: nat)
    requires Inv(s, start) && s.pc.Copied?
    ensures Inv(MoveHead(s), start)
  {
  }

  lemma CopyKeepsInv(s: Store, s': Store, start: nat)
    requires Inv(s, start) && CopyStep(s, s')
    ensures Inv(s', start)
  {
    match s.pc
    case Trying(_, _) => TryKeepsInv(s, start);
    case Reading(_, _, _, _) =>
      if k :| ReadStep(s, s', k) {
        ReadKeepsInv(s, k, start);
      } else {
        KeysKeepInv(s, start);
      }
    case Copying(_, _, _, _) =>
      if k :| ColumnStep(s, s', k) {
        ColumnKeepsInv(s, k, start);
      } else {
        DoneKeepsInv(s, start);
      }
    case Idle => BeginKeepsInv(s, start);
    case Copied(_, _) => MoveKeepsInv(s, start);
  }

  lemma GrowthKeepsInv(s: Store, s': Store, start: nat)
    requires Inv(s, start) && ChainGrows(s, s')
    ensures Inv(s', start)
  {
  }

  lemma TailKeepsInv(s: Store, s': Store, start: nat)
    requires Inv(s, start) && TailRises(s, s')
    ensures Inv(s', start)
  {
  }

  /** However the tail rises: the cold head rises, but not past the final head, and of the failures only those of a tail
      that overtook the cold head can occur. */
  lemma {:induction false} HeadsOrdered(ss: seq<Store>, i: nat)
    requires LooseBehavior(ss) && i < |ss|
    ensures Inv(ss[i], ss[0].coldHead)
  {
    if i > 0 {
      HeadsOrdered(ss, i - 1);
      var s, s', start := ss[i - 1], ss[i], ss[0].coldHead;
      if CopyStep(s, s') {
        CopyKeepsInv(s, s', start);
      } else if ChainGrows(s, s') {
        GrowthKeepsInv(s, s', start);
      } else {
        TailKeepsInv(s, s', start);
      }
    }
  }

  // ---------------------------------------------------------------------------
  // Nothing is skipped while the tail stays behind
  // ---------------------------------------------------------------------------

  ghost predicate CompleteAt(s: Store, h: nat) {
    h in s.heights ==> ContentAt(s.cold, h) == s.heights[h]
  }

  /** The cold store holds every block above `lo` up to `hi`, all columns of it. */
  ghost predicate Complete(s: Store, lo: nat, hi: nat) {
    forall h :: lo < h <= hi ==> CompleteAt(s, h)
  }

  /** Columns no longer to do have been copied. */
  ghost predicate ColumnsOk(s: Store) {
    match s.pc
    case Copying(next, _, todo, _) =>
      next in s.heights && forall k :: k in s.heights[next] && k !in todo ==> k in ContentAt(s.cold, next)
    case Copied(next, _) => CompleteAt(s, next)
    case _ => true
  }

  ghost predicate Full(s: Store, start: nat) {
    Inv(s, start) && s.tail <= s.coldHead && Complete(s, start, s.coldHead) && ColumnsOk(s) && !HasFailed(s)
  }

  lemma WithinAll(a: Content, b: Content)
    requires Within(a, b) && forall k :: k in b ==> k in a
    ensures a == b
  {
  }

  lemma CompleteKept(s: Store, s': Store, lo: nat, hi: nat)
    requires Complete(s, lo, hi)
    requires SameUpTo(s.heights, s'.heights, hi) && SameUpTo(s.cold, s'.cold, hi)
    ensures Complete(s', lo, hi)
  {
    forall h | lo < h <= hi ensures CompleteAt(s', h) {
      assert CompleteAt(s, h);
    }
  }

  lemma ColumnKeepsFull(s: Store, s': Store, k: Column, start: nat)
    requires Full(s, start) && ColumnStep(s, s', k) && Inv(s', start)
    ensures Full(s', start)
  {
    assert s.pc.next in s.data;
    CompleteKept(s, s', start, s.coldHead);
  }

  lemma DoneKeepsFull(s: Store, start: nat)
    requires Full(s, start) && s.pc.Copying? && s.pc.todo == {} && Inv(ColumnsDone(s), start)
    ensures Full(ColumnsDone(s), start)
  {
    var next := s.pc.next;
    WithinAll(ContentAt(s.cold, next), s.heights[next]);
    CompleteKept(s, ColumnsDone(s), start, s.coldHead);
  }

  lemma MoveKeepsFull(s: Store, start: nat)
    requires Full(s, start) && s.pc.Copied? && Inv(MoveHead(s), start)
    ensures Full(MoveHead(s), start)
  {
    var s' := MoveHead(s);
    forall h | start < h <= s'.coldHead ensures CompleteAt(s', h) {
      if h <= s.coldHead {
        assert CompleteAt(s, h);
      }
    }
  }

  lemma TryKeepsFull(s: Store, start: nat)
    requires Full(s, start) && s.pc.Trying? && Inv(TryHeight(s), start)
    ensures Full(TryHeight(s), start)
  {
    CompleteKept(s, TryHeight(s), start, s.coldHead);
  }

  lemma ReadKeepsFull(s: Store, s': Store, k: Column, start: nat)
    requires Full(s, start) && ReadStep(s, s', k) && Inv(s', start)
    ensures Full(s', start)
  {
    assert k in s.data[s.pc.next];
    CompleteKept(s, s', start, s.coldHead);
  }

  lemma KeysKeepFull(s: Store, start: nat)
    requires Full(s, start) && s.pc.Reading? && Inv(KeysFound(s), start)
    ensures Full(KeysFound(s), start)
  {
    CompleteKept(s, KeysFound(s), start, s.coldHead);
  }

  lemma BeginKeepsFull(s: Store, start: nat)
    requires Full(s, start) && s.pc.Idle? && Inv(Begin(s), start)
    ensures Full(Begin(s), start)
  {
    CompleteKept(s, Begin(s), start, s.coldHead);
  }

  lemma CopyKeepsFull(s: Store, s': Store, start: nat)
    requires Full(s, start) && CopyStep(s, s')
    ensures Full(s', start)
  {
    CopyKeepsInv(s, s', start);
    match s.pc
    case Reading(_, _, _, _) =>
      if k :| ReadStep(s, s', k) {
        ReadKeepsFull(s, s', k, start);
      } else {
        KeysKeepFull(s, start);
      }
    case Copying(_, _, _, _) =>
      if k :| ColumnStep(s, s', k) {
        ColumnKeepsFull(s, s', k, start);
      } else {
        DoneKeepsFull(s, start);
      }
    case Idle => BeginKeepsFull(s, start);
    case Trying(_, _) => TryKeepsFull(s, start);
    case Copied(_, _) => MoveKeepsFull(s, start);
  }

  lemma GrowthKeepsFull(s: Store, s': Store, start: nat)
    requires Full(s, start) && ChainGrows(s, s')
    ensures Full(s', start)
  {
    GrowthKeepsInv(s, s', start);
    CompleteKept(s, s', start, s.coldHead);
  }

  lemma GcKeepsFull(s: Store, s': Store, start: nat)
    requires Full(s, start) && GcStep(s, s')
    ensures Full(s', start)
  {
    TailKeepsInv(s, s', start);
    CompleteKept(s, s', start, s.coldHead);
  }

  /** At every point of every run in which garbage collection stops at the cold head: the cold store has every block,
      with all its columns, between where it began and its head, which is not past the final head; and no copy fails. */
  lemma {:induction false} NothingSkipped(ss: seq<Store>, i: nat)
    requires Behavior(ss) && i < |ss|
    ensures Full(ss[i], ss[0].coldHead)
  {
    if i > 0 {
      NothingSkipped(ss, i - 1);
      var s, s', start := ss[i - 1], ss[i], ss[0].coldHead;
      if CopyStep(s, s') {
        CopyKeepsFull(s, s', start);
      } else if ChainGrows(s, s') {
        GrowthKeepsFull(s, s', start);
      } else {
        GcKeepsFull(s, s', start);
      }
    }
  }

  // ---------------------------------------------------------------------------
  // When the tail may pass the block being copied
  // ---------------------------------------------------------------------------

  predicate Busy(pc: Pc) {
    pc.Reading? || pc.Copying?
  }

  /** The copying of one block, to its last column, while the tail rises to `t` at most. */
  ghost predicate CopyRun(ss: seq<Store>, t: nat) {
    && ss != [] && ss[|ss| - 1].pc.Copied?
    && (forall i :: 0 < i < |ss| ==> RunStep(ss[i - 1], ss[i], t))
  }

  ghost predicate RunStep(s: Store, s': Store, t: nat) {
    Busy(s.pc) && (CopyStep(s, s') || (TailRises(s, s') && s'.tail <= t))
  }

  ghost predicate AllComplete(s: Store, t: nat, next: nat) {
    forall ss :: CopyRun(ss, t) && ss[0] == s ==> CompleteAt(ss[|ss| - 1], next)
  }

  /** A block that is about to be copied, its keys read or not, and nothing of it was copied before. */
  ghost predicate Fresh(s: Store, next: nat, start: nat) {
    && Inv(s, start) && Busy(s.pc) && s.pc.next == next && next !in s.cold
    && (s.pc.Reading? ==> next in s.data)
    && (s.pc.Copying? ==> s.pc.todo == s.heights[next].Keys)
  }

  /** A column that can be gone, without an error, when the copy comes to it, if the tail rises to `t`. */
  predicate AtRisk(pc: Pc, k: Column, t: nat)
    requires Busy(pc)
  {
    && k !in pc.cache && !(pc.Reading? && k.kind.Required?)
    && (t > pc.next || (t == pc.next && k.kind.Hanging?))
  }

  ghost predicate NoneAtRisk(pc: Pc, content: Content, t: nat)
    requires Busy(pc)
  {
    forall k :: k in content ==> !AtRisk(pc, k, t)
  }

  /** What a copy keeps as long as no column of its block is at risk. */
  ghost predicate Underway(s: Store, next: nat, start: nat, t: nat) {
    && Inv(s, start) && s.tail <= t && ColumnsOk(s)
    && (Busy(s.pc) ==> s.pc.next == next && NoneAtRisk(s.pc, s.heights[next], t))
    && (s.pc.Copied? ==> s.pc.next == next)
  }

  lemma SafeIsSeen(s: Store, start: nat, t: nat, k: Column)
    requires Inv(s, start) && s.pc.Copying? && s.tail <= t && k in s.heights[s.pc.next] && !AtRisk(s.pc, k, t)
    ensures k in Seen(s)
  {
  }

  lemma UnderwayCopying(s: Store, s': Store, next: nat, start: nat, t: nat)
    requires Underway(s, next, start, t) && s.pc.Copying? && CopyStep(s, s') && Inv(s', start)
    ensures Underway(s', next, start, t)
  {
    if k :| ColumnStep(s, s', k) {
      SafeIsSeen(s, start, t, k);
    } else {
      WithinAll(ContentAt(s.cold, next), s.heights[next]);
    }
  }

  lemma UnderwayReading(s: Store, s': Store, next: nat, start: nat, t: nat)
    requires Underway(s, next, start, t) && s.pc.Reading? && CopyStep(s, s') && Inv(s', start)
    ensures Underway(s', next, start, t)
  {
    if Busy(s'.pc) {
      forall k | k in s.heights[next] ensures !AtRisk(s'.pc, k, t) {
        assert !AtRisk(s.pc, k, t);
      }
    }
  }

  lemma UnderwayStep(s: Store, s': Store, next: nat, start: nat, t: nat)
    requires Underway(s, next, start, t) && RunStep(s, s', t)
    ensures Underway(s', next, start, t)
  {
    if !CopyStep(s, s') {
      TailKeepsInv(s, s', start);
    } else {
      CopyKeepsInv(s, s', start);
      if s.pc.Reading? {
        UnderwayReading(s, s', next, start, t);
      } else {
        UnderwayCopying(s, s', next, start, t);
      }
    }
  }

  lemma {:induction false} UnderwayRun(ss: seq<Store>, t: nat, next: nat, start: nat, i: nat)
    requires CopyRun(ss, t) && Underway(ss[0], next, start, t) && i < |ss|
    ensures Underway(ss[i], next, start, t)
  {
    if i > 0 {
      UnderwayRun(ss, t, next, start, i - 1);
      UnderwayStep(ss[i - 1], ss[i], next, start, t);
    }
  }

  /** A column that neither the cache nor the store has, nor the cold store yet. */
  ghost predicate Gone(s: Store, k: Column)
    requires Busy(s.pc)
  {
    k !in s.pc.cache && k !in ContentAt(s.data, s.pc.next) && k !in ContentAt(s.cold, s.pc.next)
  }

  ghost predicate EndsWithout(ss: seq<Store>, t: nat, s: Store, k: Column)
    requires Busy(s.pc)
  {
    CopyRun(ss, t) && ss[0] == s && k !in ContentAt(ss[|ss| - 1].cold, s.pc.next) && ss[|ss| - 1].heights == s.heights
  }

  lemma RunExtended(s: Store, s': Store, t: nat, k: Column, rest: seq<Store>)
    requires RunStep(s, s', t) && Busy(s'.pc) && s'.pc.next == s.pc.next && s'.heights == s.heights
    requires EndsWithout(rest, t, s', k)
    ensures EndsWithout([s] + rest, t, s, k)
  {
    var ss := [s] + rest;
    forall i | 0 < i < |ss| ensures RunStep(ss[i - 1], ss[i], t) {
      assert ss[i] == rest[i - 1];
    }
  }

  /** A column that is gone is skipped and the copy ends all the same. */
  lemma {:induction false} SkipRest(s: Store, t: nat, k: Column) returns (ss: seq<Store>)
    requires s.pc.Copying? && Gone(s, k)
    ensures EndsWithout(ss, t, s, k)
    decreases s.pc.todo
  {
    if s.pc.todo == {} {
      ss := [s, ColumnsDone(s)];
    } else {
      var c :| c in s.pc.todo;
      var s1 := ColumnCopied(s, c);
      assert ColumnStep(s, s1, c);
      var rest := SkipRest(s1, t, k);
      RunExtended(s, s1, t, k, rest);
      ss := [s] + rest;
    }
  }

  ghost predicate RequiredRead(unread: set<Column>) {
    forall c :: c in unread ==> !c.kind.Required?
  }

  /** Once the required columns are read, looking up the keys does not fail. */
  lemma {:induction false} SkipReading(s: Store, t: nat, k: Column) returns (ss: seq<Store>)
    requires s.pc.Reading? && RequiredRead(s.pc.unread) && Gone(s, k)
    ensures EndsWithout(ss, t, s, k)
    decreases s.pc.unread
  {
    var s1, rest;
    if s.pc.unread == {} {
      s1 := KeysFound(s);
      rest := SkipRest(s1, t, k);
    } else {
      var c :| c in s.pc.unread;
      s1 := ColumnRead(s, c);
      assert ReadStep(s, s1, c);
      rest := SkipReading(s1, t, k);
    }
    RunExtended(s, s1, t, k, rest);
    ss := [s] + rest;
  }

  /** The tail rises to `t` and takes all it can. */
  function Collected(s: Store, t: nat): Store {
    s.(tail := t, data := map h | h in s.data && h >= t :: if h == t then LastingPart(s.data[h]) else s.data[h])
  }

  lemma CollectedGone(s: Store, t: nat, k: Column)
    requires Busy(s.pc) && s.tail <= t <= s.finalHead && AtRisk(s.pc, k, t) && s.pc.next !in s.cold
    ensures TailRises(s, Collected(s, t)) && Gone(Collected(s, t), k)
  {
  }

  /** The required columns are read, the tail rises, and the rest of the copy goes without column `k`. */
  lemma {:induction false} RiskyRun(s: Store, t: nat, next: nat, start: nat, k: Column) returns (ss: seq<Store>)
    requires Fresh(s, next, start) && s.tail <= t <= s.finalHead && AtRisk(s.pc, k, t)
    ensures EndsWithout(ss, t, s, k)
    decreases if s.pc.Reading? then s.pc.unread else {}
  {
    var s1, rest;
    if s.pc.Reading? && !RequiredRead(s.pc.unread) {
      var c :| c in s.pc.unread && c.kind.Required?;
      s1 := ColumnRead(s, c);
      assert c in s.data[next];
      assert ReadStep(s, s1, c);
      ReadKeepsInv(s, c, start);
      rest := RiskyRun(s1, t, next, start, k);
    } else {
      s1 := Collected(s, t);
      CollectedGone(s, t, k);
      if s.pc.Reading? {
        rest := SkipReading(s1, t, k);
      } else {
        rest := SkipRest(s1, t, k);
      }
    }
    RunExtended(s, s1, t, k, rest);
    ss := [s] + rest;
  }

  /** From any point of looking up its keys on: every copy of a block that ends without an error is complete if and only
      if the tail can neither pass the block meanwhile, nor reach it if it has hanging columns, except for columns that
      are in the cache, or without which the keys are not found. */
  lemma TailBoundExact(s: Store, t: nat, next: nat, start: nat)
    requires Fresh(s, next, start) && s.tail <= t <= s.finalHead
    ensures AllComplete(s, t, next) <==> NoneAtRisk(s.pc, s.heights[next], t)
  {
    if NoneAtRisk(s.pc, s.heights[next], t) {
      forall ss | CopyRun(ss, t) && ss[0] == s ensures CompleteAt(ss[|ss| - 1], next) {
        UnderwayRun(ss, t, next, start, |ss| - 1);
      }
    } else {
      var k :| k in s.heights[next] && AtRisk(s.pc, k, t);
      var ss := RiskyRun(s, t, next, start, k);
      assert !CompleteAt(ss[|ss| - 1], next);
    }
  }

  /** For a block with a hanging column, and every block has its link: if and only if the tail stays below it. */
  lemma TailStaysBelow(s: Store, t: nat, next: nat, start: nat, k: Column)
    requires Fresh(s, next, start) && s.tail <= t <= s.finalHead && k in s.heights[next] && k.kind.Hanging?
    ensures AllComplete(s, t, next) <==> t < next
  {
    TailBoundExact(s, t, next, start);
    assert AtRisk(s.pc, k, t) <==> t >= next;
  }

  const BLOCK := Column(0, Required)
  const LINK := Column(1, Hanging)

  lemma LooseJoined(ss: seq<Store>, rest: seq<Store>)
    requires LooseBehavior(ss) && rest != [] && LooseStep(ss[|ss| - 1], rest[0]) && LooseSteps(rest)
    ensures LooseBehavior(ss + rest)
  {
  }

  /** The keys of block 1 are looked up. */
  lemma BlockFound(blocks: map<nat, Content>) returns (ss: seq<Store>)
    requires blocks == map[0 := map[], 1 := map[BLOCK := 6, LINK := 7], 2 := map[]]
    ensures LooseBehavior(ss) && |ss| == 4
    ensures ss[3] == Store(blocks, blocks, 2, 0, map[], 0, Reading(1, 2, {}, map[BLOCK := 6]), None)
  {
    var s0 := Store(blocks, blocks, 2, 0, map[], 0, Idle, None);
    var s1 := s0.(pc := Trying(1, 2));
    var s2 := s0.(pc := Reading(1, 2, {BLOCK}, map[]));
    var s3 := s0.(pc := Reading(1, 2, {}, map[BLOCK := 6]));
    assert LooseStep(s0, s1);
    assert LooseStep(s1, s2) by {
      assert KeyColumns(blocks[1]) == {BLOCK};
    }
    assert LooseStep(s2, s3) by {
      assert {BLOCK} - {BLOCK} == {} && ReadStep(s2, s3, BLOCK);
    }
    ss := [s0, s1, s2, s3];
  }

  /** The tail rises to block 1 before its columns are copied. */
  lemma TailReachesBlock(s: Store) returns (s1: Store, s2: Store)
    requires s.heights == s.data == map[0 := map[], 1 := map[BLOCK := 6, LINK := 7], 2 := map[]]
    requires s.tail == 0 && s.finalHead == 2 && s.pc == Reading(1, 2, {}, map[BLOCK := 6])
    ensures LooseStep(s, s1) && LooseStep(s1, s2)
    ensures s2 == s.(tail := 1, data := map[1 := map[BLOCK := 6], 2 := map[]],
                     pc := Copying(1, 2, {BLOCK, LINK}, map[BLOCK := 6]))
  {
    s1 := s.(tail := 1, data := map[1 := map[BLOCK := 6], 2 := map[]]);
    s2 := s1.(pc := Copying(1, 2, {BLOCK, LINK}, map[BLOCK := 6]));
    assert TailRises(s, s1);
    assert LooseStep(s1, s2) by {
      assert s.heights[1].Keys == {BLOCK, LINK};
    }
  }

  /** The column in the cache is copied, the link is skipped. */
  lemma LinkSkipped(s: Store) returns (ss: seq<Store>)
    requires s.cold == map[] && s.data == map[1 := map[BLOCK := 6], 2 := map[]]
    requires s.pc == Copying(1, 2, {BLOCK, LINK}, map[BLOCK := 6])
    ensures |ss| == 4 && LooseStep(s, ss[0]) && LooseSteps(ss)
    ensures ss[3] == s.(cold := map[1 := map[BLOCK := 6]], coldHead := 1, pc := Idle, result := Some(OtherBlockCopied))
  {
    var s1 := s.(cold := map[1 := map[BLOCK := 6]], pc := Copying(1, 2, {LINK}, map[BLOCK := 6]));
    var s2 := s1.(pc := Copying(1, 2, {}, map[BLOCK := 6]));
    var s3 := ColumnsDone(s2);
    assert LooseStep(s, s1) by {
      assert Seen(s) == map[BLOCK := 6] && {BLOCK, LINK} - {BLOCK} == {LINK};
      assert ColumnStep(s, s1, BLOCK);
    }
    assert LooseStep(s1, s2) by {
      assert Seen(s1) == map[BLOCK := 6] && s1.cold[1 := map[BLOCK := 6]] == s1.cold;
      assert ColumnStep(s1, s2, LINK);
    }
    assert LooseStep(s2, s3);
    assert LooseStep(s3, MoveHead(s3));
    ss := [s1, s2, s3, MoveHead(s3)];
  }

  /** A run in which the tail rises to block 1, and not past it, while the block is copied: the column in the cache is
      copied, the link is not, the cold head moves to the block and the copy reports success. */
  lemma IncompleteRun() returns (ss: seq<Store>)
    ensures LooseBehavior(ss) && |ss| == 10
    ensures var s := ss[9];
      && s.result == Some(OtherBlockCopied) && s.coldHead == s.tail == 1 && !CompleteAt(s, 1)
      && ContentAt(s.heights, 1) == map[BLOCK := 6, LINK := 7] && ContentAt(s.cold, 1) == map[BLOCK := 6]
  {
    var before := BlockFound(map[0 := map[], 1 := map[BLOCK := 6, LINK := 7], 2 := map[]]);
    var s4, s5 := TailReachesBlock(before[3]);
    var after := LinkSkipped(s5);
    LooseJoined(before, [s4, s5]);
    LooseJoined(before + [s4, s5], after);
    ss := before + [s4, s5] + after;
    assert ss[9] == after[3] && LINK in s5.heights[1] && LINK !in after[3].cold[1];
  }

  // ---------------------------------------------------------------------------
  // A whole copy, with the hot store at rest
  // ---------------------------------------------------------------------------

  /** What is stored, with all columns of `todo` added that can be read. */
  function WithColumns(stored: Content, seen: Content, todo: set<Column>): Content {
    stored + Part(seen, todo)
  }

  /** A column is gone without which the keys cannot be found. */
  ghost predicate RequiredGone(s: Store)
    requires s.pc.Reading?
  {
    exists k :: k in s.pc.unread && k.kind.Required? && k !in ContentAt(s.data, s.pc.next)
  }

  /** All columns left to read, in whatever order. */
  ghost function AllRead(s: Store): Store
    requires s.pc.Reading?
  {
    var Reading(next, final, unread, cache) := s.pc;
    if RequiredGone(s) then Returned(s, Failed(DataMissing))
    else s.(pc := Copying(next, final, ContentAt(s.heights, next).Keys, WithColumns(cache, ContentAt(s.data, next), unread)))
  }

  /** All columns left to do, in whatever order. */
  function AllColumns(s: Store): Store
    requires s.pc.Copying?
  {
    var Copying(next, final, todo, cache) := s.pc;
    var cold := if todo == {} then s.cold else s.cold[next := WithColumns(ContentAt(s.cold, next), Seen(s), todo)];
    s.(cold := cold, pc := Copied(next, final))
  }

  lemma OneThenRest(stored: Content, seen: Content, todo: set<Column>, k: Column)
    requires k in todo
    ensures WithColumns(WithColumn(stored, seen, k), seen, todo - {k}) == WithColumns(stored, seen, todo)
  {
  }

  lemma NoneLeft(stored: Content, seen: Content)
    ensures WithColumns(stored, seen, {}) == stored
  {
  }

  lemma ReadInAnyOrder(s: Store, k: Column)
    requires s.pc.Reading? && k in s.pc.unread
    ensures var s1 := ColumnRead(s, k); AllRead(s) == if s1.pc.Reading? then AllRead(s1) else s1
  {
    OneThenRest(s.pc.cache, ContentAt(s.data, s.pc.next), s.pc.unread, k);
    var s1 := ColumnRead(s, k);
    if s1.pc.Reading? {
      assert RequiredGone(s) <==> RequiredGone(s1);
    }
  }

  lemma ColumnsInAnyOrder(s: Store, k: Column)
    requires s.pc.Copying? && k in s.pc.todo
    ensures AllColumns(ColumnCopied(s, k)) == AllColumns(s)
  {
    var stored, seen := ContentAt(s.cold, s.pc.next), Seen(s);
    OneThenRest(stored, seen, s.pc.todo, k);
    NoneLeft(WithColumn(stored, seen, k), seen);
    assert AllColumns(ColumnCopied(s, k)).cold == AllColumns(s).cold;
  }

  ghost function Rest(s: Store): Store
    decreases match s.pc case Trying(n, f) => if n <= f then f - n + 2 else 2 case Reading(_, _, _, _) => 1 case _ => 0
  {
    match s.pc
    case Idle => s
    case Trying(_, _) => Rest(TryHeight(s))
    case Reading(_, _, _, _) => Rest(AllRead(s))
    case Copying(_, _, _, _) => MoveHead(AllColumns(s))
    case Copied(_, _) => MoveHead(s)
  }

  /** The copying of the block at `next` begins. */
  function Started(s: Store, next: nat, final: nat): Store {
    s.(pc := Reading(next, final, KeyColumns(ContentAt(s.heights, next)), map[]))
  }

  lemma RestOfFound(s: Store, next: nat, final: nat)
    requires next in s.heights && next in s.data
    ensures Rest(s.(pc := Trying(next, final))) == Rest(AllRead(Started(s, next, final)))
  {
    assert TryHeight(s.(pc := Trying(next, final))) == Started(s, next, final);
  }

  ghost function Copy(s: Store): Store
    requires s.pc == Idle
  {
    Rest(Begin(s))
  }

  ghost predicate IsNextBlock(s: Store, h: nat) {
    s.coldHead < h && h in s.heights && Skipped(s, s.coldHead, h)
  }

  /** Exactly the block at height `h` was copied, completely, and the cold head moved to it. */
  ghost predicate BlockCopied(s: Store, s': Store, h: nat) {
    && s' == s.(cold := s'.cold, coldHead := h, pc := Idle,
                result := Some(if h >= s.finalHead then LatestBlockCopied else OtherBlockCopied))
    && CompleteAt(s', h)
    && (forall n :: n != h ==> ContentAt(s'.cold, n) == ContentAt(s.cold, n))
  }

  lemma FoundRead(s: Store, h: nat)
    requires h in s.heights && h in s.data && s.data[h] == s.heights[h]
    ensures var s1 := AllRead(Started(s, h, s.finalHead));
            s1 == s.(pc := s1.pc) && s1.pc.Copying? && s1.pc.next == h && s1.pc.final == s.finalHead
            && s1.pc.todo == s.heights[h].Keys && Seen(s1) == s.heights[h]
  {
    var s1 := AllRead(Started(s, h, s.finalHead));
    assert s1.pc.Copying? && s1.pc.cache == Part(s.heights[h], KeyColumns(s.heights[h]));
  }

  /** Of a block that is all there, all columns are copied. */
  lemma FoundCopied(s: Store, h: nat, start: nat)
    requires Inv(s, start) && s.pc.Trying? && s.tail < h && s.coldHead < h && h in s.heights
    ensures h in s.data && BlockCopied(s, Rest(AllRead(Started(s, h, s.finalHead))), h)
  {
    FoundRead(s, h);
    var s1 := AllRead(Started(s, h, s.finalHead));
    WithinAll(ContentAt(AllColumns(s1).cold, h), s.heights[h]);
  }

  lemma {:induction false} RestCopies(s: Store, h: nat, start: nat)
    requires Inv(s, start) && s.pc.Trying? && s.pc.final == s.finalHead && s.tail <= s.coldHead && IsNextBlock(s, h)
    ensures BlockCopied(s, Rest(s), h)
    decreases s.finalHead - s.pc.next
  {
    var next := s.pc.next;
    if next !in s.heights {
      TryKeepsInv(s, start);
      RestCopies(TryHeight(s), h, start);
    } else {
      assert next == h;
      FoundCopied(s, h, start);
      RestOfFound(s, h, s.finalHead);
    }
  }

  /** A copy takes the lowest block above the cold head. */
  lemma CopyExact(s: Store, h: nat, start: nat)
    requires Inv(s, start) && s.pc == Idle
    ensures s.coldHead < s.tail ==> Copy(s) == s.(result := Some(Failed(ColdHeadBehindTail)))
    ensures s.tail <= s.coldHead == s.finalHead ==> Copy(s) == s.(result := Some(NoBlockCopied))
    ensures s.tail <= s.coldHead < s.finalHead && IsNextBlock(s, h) ==> BlockCopied(s, Copy(s), h)
  {
    if s.tail <= s.coldHead < s.finalHead && IsNextBlock(s, h) {
      CopyKeepsInv(s, Begin(s), start);
      RestCopies(Begin(s), h, start);
    }
  }

  /** There is a block between the cold head and the final head. */
  ghost predicate BlockAhead(s: Store) {
    exists h :: s.coldHead < h <= s.finalHead && h in s.heights
  }

  /** The outcome of a copy of any stores, in whatever state: which error, and when. */
  lemma CopyOutcome(s: Store)
    requires s.pc == Idle
    ensures Copy(s).result.Some?
    ensures var r := Copy(s).result.value;
            && (r == Failed(ColdHeadAhead) <==> s.coldHead > s.finalHead)
            && (r == Failed(ColdHeadBehindTail) <==> s.coldHead <= s.finalHead && s.coldHead < s.tail)
            && (r == NoBlockCopied <==> s.tail <= s.coldHead == s.finalHead)
            && (r == Failed(NoColdHeadHash) <==> s.tail <= s.coldHead < s.finalHead && s.coldHead !in s.heights)
            && (r == Failed(AllSkipped) <==>
                 s.tail <= s.coldHead < s.finalHead && s.coldHead in s.heights && !BlockAhead(s))
    ensures Copy(s).result.value.Failed? || Copy(s).result.value.NoBlockCopied? ==>
              Copy(s).cold == s.cold && Copy(s).coldHead == s.coldHead
  {
    if s.tail <= s.coldHead < s.finalHead && s.coldHead in s.heights {
      RestOutcome(Begin(s), s.coldHead);
    }
  }

  lemma {:induction false} RestOutcome(s: Store, low: nat)
    requires s.pc.Trying? && low < s.pc.next <= s.pc.final && forall h :: low < h < s.pc.next ==> h !in s.heights
    ensures var r := Rest(s);
            && r.result.Some?
            && (r.result == Some(Failed(AllSkipped)) <==> forall h :: low < h <= s.pc.final ==> h !in s.heights)
            && (r.result.value.Failed? ==> r.result.value.error == AllSkipped || r.result.value.error == DataMissing)
            && !r.result.value.NoBlockCopied?
            && (r.result.value.Failed? ==> r.cold == s.cold && r.coldHead == s.coldHead)
    decreases s.pc.final - s.pc.next
  {
    var s1 := TryHeight(s);
    if s1.pc.Trying? {
      RestOutcome(s1, low);
    } else if s1.pc.Reading? {
      var s2 := AllRead(s1);
      assert Rest(s1) == Rest(s2) == if s2.pc.Idle? then s2 else MoveHead(AllColumns(s2));
    }
  }

  /** The stores; heads that are not set stand for the genesis height. */
  class Stores {
    const genesis: nat
    var heights: map<nat, Content>
    var data: map<nat, Content>
    var finalHead: Option<nat>
    var tail: Option<nat>
    var cold: map<nat, Content>
    var coldHead: Option<nat>

    function OrGenesis(h: Option<nat>): nat {
      if h == None then genesis else h.value
    }

    ghost function View(pc: Pc, result: Option<CopyResult>): Store
      reads this
    {
      Store(heights, data, OrGenesis(finalHead), OrGenesis(tail), cold, OrGenesis(coldHead), pc, result)
    }

    /** Looks up the keys of the block at `next`: what was read for that, or nothing if the data is gone. */
    method KeysFromStore(next: nat, ghost final: nat) returns (cache: Option<Content>)
      requires next in heights && next in data
      ensures var s := AllRead(Started(View(Idle, None), next, final));
              if cache == None then s == View(Idle, Some(Failed(DataMissing)))
              else s == View(Copying(next, final, heights[next].Keys, cache.value), None)
    {
      var unread, found := KeyColumns(heights[next]), data[next];
      var have: Content := map[];
      while unread != {}
        invariant AllRead(View(Reading(next, final, unread, have), None)) == AllRead(Started(View(Idle, None), next, final))
        decreases unread
      {
        var k :| k in unread;
        ReadInAnyOrder(View(Reading(next, final, unread, have), None), k);
        if k !in found && k.kind.Required? {
          return None;
        }
        have, unread := WithColumn(have, found, k), unread - {k};
      }
      NoneLeft(have, found);
      cache := Some(have);
    }

    /** Copies the columns of the block at `next`. */
    method UpdateColdDb(next: nat, ghost final: nat) returns (r: Option<bool>)
      modifies this`cold
      ensures r == Some(false) <==> next !in heights
      ensures r == None <==>
                next in heights && (next !in data || RequiredGone(Started(old(View(Idle, None)), next, final)))
      ensures r != Some(true) ==> cold == old(cold)
      ensures next in heights ==>
                var s := old(View(Trying(next, final), None));
                Rest(s) == if r == None then View(Idle, Some(Failed(DataMissing)))
                           else MoveHead(View(Copied(next, final), None))
    {
      if next !in heights {
        return Some(false);
      }
      ghost var s := View(Trying(next, final), None);
      if next !in data {
        return None;
      }
      var cache := KeysFromStore(next, final);
      RestOfFound(s, next, final);
      if cache == None {
        return None;
      }
      CopyColumns(next, final, cache.value);
      r := Some(true);
    }

    method CopyColumns(next: nat, ghost final: nat, cache: Content)
      requires next in heights
      modifies this`cold
      ensures View(Copied(next, final), None) == AllColumns(old(View(Copying(next, final, heights[next].Keys, cache), None)))
    {
      var keys := heights[next].Keys;
      ghost var s := View(Copying(next, final, keys, cache), None);
      while keys != {}
        invariant AllColumns(View(Copying(next, final, keys, cache), None)) == AllColumns(s)
        decreases keys
      {
        var k :| k in keys;
        ColumnsInAnyOrder(View(Copying(next, final, keys, cache), None), k);
        keys := keys - {k};
        cold := cold[next := WithColumn(ContentAt(cold, next), ContentAt(data, next) + cache, k)];
      }
    }

    method ColdStoreCopy() returns (r: CopyResult)
      modifies this`cold, this`coldHead
      ensures View(Idle, Some(r)) == Copy(old(View(Idle, None)))
    {
      ghost var s := View(Idle, None);
      var coldHeight, finalHeight, tailHeight := OrGenesis(coldHead), OrGenesis(finalHead), OrGenesis(tail);
      if coldHeight > finalHeight {
        return Failed(ColdHeadAhead);
      }
      if coldHeight < tailHeight {
        return Failed(ColdHeadBehindTail);
      }
      if coldHeight >= finalHeight {
        return NoBlockCopied;
      }
      if coldHeight !in heights {
        return Failed(NoColdHeadHash);
      }
      var next := coldHeight + 1;
      var updated := UpdateColdDb(next, finalHeight);
      while updated == Some(false)
        invariant next <= finalHeight
        invariant Copy(s) == Rest(s.(pc := Trying(next, finalHeight)))
        invariant updated == Some(false) <==> next !in heights
        invariant updated != Some(true) ==> View(Idle, None) == s
        invariant next in heights ==>
                    Copy(s) == if updated == None then View(Idle, Some(Failed(DataMissing)))
                               else MoveHead(View(Copied(next, finalHeight), None))
        decreases finalHeight - next
      {
        next := next + 1;
        if next > finalHeight {
          assert TryHeight(s.(pc := Trying(next - 1, finalHeight))) == Returned(s, Failed(AllSkipped));
          return Failed(AllSkipped);
        }
        updated := UpdateColdDb(next, finalHeight);
      }
      if updated == None {
        return Failed(DataMissing);
      }
      coldHead := Some(next);
      r := if next >= finalHeight then LatestBlockCopied else OtherBlockCopied;
    }
  }
}
