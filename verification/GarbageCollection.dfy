/**
 Garbage collection of old blocks: fork clearing by reference count, then
 clearing of the canonical chain behind the tail.

 Every store update is committed at once, so the invariant `Valid` at the head of
 each loop is what a crash at any point leaves behind.
 */
module GarbageCollection {
  import opened Prelude
  import opened BlockTree

  datatype Result = Ok | GCError

  // ---------------------------------------------------------------------------
  // The store as a value, and what keeps it consistent
  // ---------------------------------------------------------------------------

  datatype Store = Store(blocks: Tree, counts: Counts, index: Index, head: Hash, tail: nat, forkTail: nat, root: Hash)

  /** The stored blocks are a single tree; its root is the only block at or below the tail; reference counts are the
      numbers of stored children; the index is exact; and forks are cleared only below the head. */
  ghost predicate Consistent(s: Store) {
    && IsTree(s.blocks, s.root)
    && OnlyRootBelow(s.blocks, s.root, s.tail)
    && CountsExact(s.blocks, s.counts) && CountsStored(s.blocks, s.counts)
    && IndexExact(s.blocks, s.index)
    && s.head in s.blocks && s.forkTail <= s.blocks[s.head].height
  }

  ghost predicate CountsStored(t: Tree, counts: Counts) {
    forall b :: b in counts ==> b in t
  }

  ghost predicate OnlyRootBelow(t: Tree, root: Hash, tail: nat) {
    && root in t && t[root].height <= tail
    && (forall b :: b in t && b != root ==> t[b].height > tail)
  }

  function BlockAdded(s: Store, hash: Hash, block: Block): Store
    requires s.head in s.blocks
  {
    s.(blocks := s.blocks[hash := block],
       counts := s.counts[block.prev := CountOf(s.counts, block.prev) + 1],
       index := IndexAdd(s.index, hash, block.height),
       head := if block.height > s.blocks[s.head].height then hash else s.head)
  }

  function ForkBlockCleared(s: Store, b: Hash): Store
    requires b in s.blocks && CountOf(s.counts, s.blocks[b].prev) > 0
  {
    s.(blocks := s.blocks - {b},
       counts := (s.counts - {b})[s.blocks[b].prev := CountOf(s.counts, s.blocks[b].prev) - 1],
       index := IndexRemove(s.index, b, s.blocks[b].height))
  }

  function TailMoved(s: Store, h: nat): Store {
    s.(tail := h, forkTail := Max(s.forkTail, h))
  }

  /** The root is deleted and its child `b`, at height `h`, becomes the root and the tail. */
  function RootCleared(s: Store, b: Hash, h: nat): Store
    requires s.root in s.blocks
  {
    TailMoved(s.(blocks := s.blocks - {s.root},
                 counts := s.counts - {s.root},
                 index := IndexRemove(s.index, s.root, s.blocks[s.root].height),
                 root := b), h)
  }

  /** A new block: not stored, above a stored parent, and not from before the tail. */
  ghost predicate Acceptable(s: Store, hash: Hash, block: Block) {
    && hash !in s.blocks
    && s.root in s.blocks && hash != s.blocks[s.root].prev
    && block.prev in s.blocks && block.height > s.blocks[block.prev].height && block.height > s.tail
  }

  lemma NewHasNoChildren(t: Tree, root: Hash, hash: Hash)
    requires IsTree(t, root) && hash !in t && hash != t[root].prev
    ensures Children(t, hash) == {}
  {
    forall x | x in t ensures t[x].prev != hash {
      assert x != root ==> t[x].prev in t;
    }
  }

  lemma AddKeepsTree(s: Store, hash: Hash, block: Block)
    requires IsTree(s.blocks, s.root) && OnlyRootBelow(s.blocks, s.root, s.tail) && Acceptable(s, hash, block)
    ensures IsTree(s.blocks[hash := block], s.root) && OnlyRootBelow(s.blocks[hash := block], s.root, s.tail)
  {
    AddLeaf(s.blocks, s.root, hash, block);
  }

  lemma AddKeepsCounts(s: Store, hash: Hash, block: Block)
    requires IsTree(s.blocks, s.root) && CountsExact(s.blocks, s.counts) && CountsStored(s.blocks, s.counts)
    requires Acceptable(s, hash, block)
    ensures var counts := s.counts[block.prev := CountOf(s.counts, block.prev) + 1];
            CountsExact(s.blocks[hash := block], counts) && CountsStored(s.blocks[hash := block], counts)
  {
    NewHasNoChildren(s.blocks, s.root, hash);
    CountsAfterAdd(s.blocks, s.counts, hash, block);
  }

  lemma AddKeepsConsistent(s: Store, hash: Hash, block: Block)
    requires Consistent(s) && Acceptable(s, hash, block)
    ensures Consistent(BlockAdded(s, hash, block))
  {
    var s' := BlockAdded(s, hash, block);
    assert CountsExact(s'.blocks, s'.counts) by { AddKeepsCounts(s, hash, block); }
    assert CountsStored(s'.blocks, s'.counts) by { AddKeepsCounts(s, hash, block); }
    assert IndexExact(s'.blocks, s'.index) by { IndexAfterAdd(s.blocks, s.index, hash, block); }
    assert IsTree(s'.blocks, s'.root) by { AddKeepsTree(s, hash, block); }
    assert OnlyRootBelow(s'.blocks, s'.root, s'.tail) by { AddKeepsTree(s, hash, block); }
  }

  lemma ForkClearKeepsConsistent(s: Store, b: Hash)
    requires Consistent(s) && Leaf(s.blocks, b) && b != s.root && b != s.head
    ensures s.blocks[b].prev != b && CountOf(s.counts, s.blocks[b].prev) > 0
    ensures Consistent(ForkBlockCleared(s, b))
  {
    RemoveLeaf(s.blocks, s.root, b);
    CountsAfterLeaf(s.blocks, s.root, s.counts, b);
    IndexAfterRemove(s.blocks, s.index, b);
  }

  /** A leaf below the head is never the root. */
  lemma LeafBelowHead(s: Store, b: Hash)
    requires Consistent(s) && Leaf(s.blocks, b) && s.blocks[b].height < s.blocks[s.head].height
    ensures b != s.root
  {
    if b == s.root {
      RootIsAncestor(s.blocks, s.root, s.head);
      var c := AncestorViaChild(s.blocks, s.root, s.head);
      assert false;
    }
  }

  /** What the first block above the tail shows: its parent is the root, which therefore has a reference; and if it is
      the only one, there is no other block at this height and the root can go. */
  lemma FirstBlockAboveTail(s: Store, b: Hash)
    requires Consistent(s) && b in HashesAt(s.index, s.tail + 1)
    ensures b in s.blocks && s.blocks[b].height == s.tail + 1
    ensures s.blocks[b].prev == s.root && CountOf(s.counts, s.root) > 0
    ensures CountOf(s.counts, s.root) == 1 ==> Children(s.blocks, s.root) == {b} && HashesAt(s.index, s.tail + 1) == {b}
  {
    assert HashesAt(s.index, s.tail + 1) == AtHeight(s.blocks, s.tail + 1);
    var children := Children(s.blocks, s.root);
    assert b in children && CountOf(s.counts, s.root) == |children|;
    if |children| == 1 {
      SingletonOf(children, b);
      forall x | x in AtHeight(s.blocks, s.tail + 1) ensures x in children {
        assert s.blocks[x].prev in s.blocks;
      }
    }
  }

  lemma SingletonOf(s: set<Hash>, b: Hash)
    requires |s| == 1 && b in s
    ensures s == {b}
  {
    assert |s - {b}| == 0;
  }

  lemma RootClearKeepsConsistent(s: Store, b: Hash)
    requires Consistent(s) && Children(s.blocks, s.root) == {b} && s.blocks[b].height == s.tail + 1
    requires s.tail + 1 < s.blocks[s.head].height
    ensures Consistent(RootCleared(s, b, s.tail + 1))
  {
    RemoveRoot(s.blocks, s.root, b);
    CountsAfterRoot(s.blocks, s.root, s.counts, b);
    IndexAfterRemove(s.blocks, s.index, s.root);
    var t' := s.blocks - {s.root};
    assert b in Children(s.blocks, s.root);
    forall x | x in t' && x != b ensures t'[x].height > s.tail + 1 {
      assert s.blocks[x].prev == s.root ==> x in Children(s.blocks, s.root);
      assert s.blocks[x].prev in s.blocks && s.blocks[s.blocks[x].prev].height > s.tail;
    }
  }

  lemma TailMoveKeepsConsistent(s: Store)
    requires Consistent(s) && HashesAt(s.index, s.tail + 1) == {} && s.tail + 1 < s.blocks[s.head].height
    ensures Consistent(TailMoved(s, s.tail + 1))
  {
    assert AtHeight(s.blocks, s.tail + 1) == {};
    forall b | b in s.blocks && b != s.root ensures s.blocks[b].height > s.tail + 1 {
      assert b !in AtHeight(s.blocks, s.tail + 1);
    }
  }

  // ---------------------------------------------------------------------------
  // Fork clearing
  // ---------------------------------------------------------------------------

  /** What fork clearing of heights [lo, hi) has left of `t0`, whether or not it is done. */
  ghost predicate Clearing(t0: Tree, t: Tree, lo: nat, hi: nat) {
    && SubTree(t, t0)
    && (forall b :: b in t0 && b !in t ==> Doomed(t0, lo, hi, b))
  }

  /** No fork that ends in [from, hi) is left, and no block has become a leaf. */
  ghost predicate Cleared(t0: Tree, t: Tree, from: nat, hi: nat) {
    forall l :: Leaf(t, l) ==> Leaf(t0, l) && !(from <= t[l].height < hi)
  }

  /** No fork ends in [from, hi). */
  ghost predicate NoForkEndsIn(t: Tree, from: nat, hi: nat) {
    forall l :: Leaf(t, l) ==> !(from <= t[l].height < hi)
  }

  /** Exactly the blocks go all of whose leaves lie in the range. */
  ghost predicate ExactlyDoomedGone(t0: Tree, t: Tree, lo: nat, hi: nat) {
    SubTree(t, t0) && forall b :: b in t0 ==> (b !in t <==> Doomed(t0, lo, hi, b))
  }

  lemma ClearedIsExact(t0: Tree, t: Tree, root: Hash, lo: nat, hi: nat)
    requires Clearing(t0, t, lo, hi) && Cleared(t0, t, lo, hi) && IsTree(t, root)
    ensures ExactlyDoomedGone(t0, t, lo, hi)
  {
    forall b | b in t ensures !Doomed(t0, lo, hi, b) {
      SurvivorNotDoomed(t0, t, root, lo, hi, b);
    }
  }

  /** Taking the leaf `b` away keeps to the condemned blocks and can make only its parent a leaf. */
  lemma WalkStep(t0: Tree, t: Tree, root: Hash, lo: nat, hi: nat, b: Hash)
    requires IsTree(t, root) && Leaf(t, b) && b != root
    requires Clearing(t0, t, lo, hi) && (Leaf(t0, b) ==> lo <= t0[b].height < hi)
    ensures Clearing(t0, t - {b}, lo, hi)
    ensures forall l :: Leaf(t - {b}, l) ==> Leaf(t, l) || l == t[b].prev
    ensures !Leaf(t0, t[b].prev)
    ensures t[b].prev in t - {b} && t[t[b].prev].height < t[b].height
  {
    DoomedByChildren(t0, t, lo, hi, b);
    RemoveLeaf(t, root, b);
    assert b in Children(t0, t[b].prev);
    forall l | Leaf(t - {b}, l) && l != t[b].prev ensures Leaf(t, l) {
      assert Children(t - {b}, l) == Children(t, l);
    }
  }

  /** The blocks still to be visited at a height, among them every leaf at that height. */
  ghost predicate ToVisit(t: Tree, todo: set<Hash>, height: nat) {
    && (forall b :: b in todo ==> b in t && t[b].height == height)
    && (forall l :: Leaf(t, l) && t[l].height == height ==> l in todo)
  }

  /** What a walk from `b` did to the tree: it took `b` or lower blocks. */
  ghost predicate Walked(t: Tree, t': Tree, b: Hash) {
    && SubTree(t', t)
    && (forall x :: x in t && x !in t' ==> b in t && (x == b || t[x].height < t[b].height))
  }

  /** A block that a walk from `b` made a leaf is below `b`. */
  lemma WalkedBelow(t0: Tree, t: Tree, t': Tree, root: Hash, b: Hash, height: nat, hi: nat)
    requires IsTree(t, root) && Walked(t, t', b) && b in t && t[b].height == height && Cleared(t0, t, height + 1, hi)
    ensures NoForkEndsIn(t', height + 1, hi)
  {
    forall l | Leaf(t', l) && t'[l].height > height ensures Leaf(t, l) {
      forall c | c in Children(t, l) ensures c in Children(t', l) {
        assert t[c].prev == l && c != root;
      }
    }
  }

  /** ... and when it ends, no block has become a leaf and `b` is none. */
  ghost predicate WalkEnded(t: Tree, t': Tree, b: Hash) {
    forall l :: Leaf(t', l) ==> Leaf(t, l) && l != b
  }

  /** Where a walk from `b` stands: it is at `current`, the only block that may have become a leaf. */
  ghost predicate Walking(t0: Tree, t: Tree, t': Tree, b: Hash, current: Hash) {
    && b in t && current in t' && Walked(t, t', b)
    && (current == b || (t'[current].height < t[b].height && !Leaf(t0, current) && b !in t'))
    && (forall l :: Leaf(t', l) ==> Leaf(t, l) || l == current)
  }

  lemma WalkGoesOn(t0: Tree, t: Tree, t': Tree, root: Hash, lo: nat, hi: nat, b: Hash, current: Hash)
    requires Walking(t0, t, t', b, current) && Clearing(t0, t', lo, hi) && lo <= t[b].height < hi
    requires IsTree(t', root) && Leaf(t', current) && current != root
    ensures Clearing(t0, t' - {current}, lo, hi) && Walking(t0, t, t' - {current}, b, t'[current].prev)
    ensures |t' - {current}| == |t'| - 1
  {
    WalkStep(t0, t', root, lo, hi, current);
    assert (t' - {current}).Keys == t'.Keys - {current};
  }

  lemma WalkDone(t0: Tree, t: Tree, t': Tree, b: Hash, current: Hash)
    requires Walking(t0, t, t', b, current) && !Leaf(t', current)
    ensures WalkEnded(t, t', b)
  {
  }

  lemma AfterWalk(t0: Tree, t: Tree, t': Tree, b: Hash, todo: set<Hash>, height: nat, hi: nat)
    requires ToVisit(t, todo, height) && b in todo && Cleared(t0, t, height + 1, hi)
    requires Walked(t, t', b) && WalkEnded(t, t', b)
    ensures ToVisit(t', todo - {b}, height) && Cleared(t0, t', height + 1, hi)
  {
  }

  // ---------------------------------------------------------------------------
  // Canonical chain clearing
  // ---------------------------------------------------------------------------

  /** Exactly the proper ancestors of the block `root` are gone. */
  ghost predicate ClearedUpTo(t0: Tree, t: Tree, root: Hash) {
    && SubTree(t, t0) && root in t
    && (forall b :: b in t0 ==> (b !in t <==> b != root && IsAncestor(t0, b, root)))
  }

  lemma ClearedUpToChild(t0: Tree, t: Tree, root: Hash, child: Hash)
    requires ClearedUpTo(t0, t, root) && IsTree(t, root) && child in Children(t, root)
    ensures ClearedUpTo(t0, t - {root}, child)
  {
    assert t0[child].prev == root && t[child].prev == root && child != root;
    forall b | b in t0 ensures b !in t - {root} <==> b != child && IsAncestor(t0, b, child) {
      assert IsAncestor(t0, b, child) <==> b == child || IsAncestor(t0, b, root);
    }
  }

  /** Why canonical clearing stopped: it arrived, or the budget is spent, or a fork starts at the root. */
  ghost predicate Stopped(s: Store, gcStop: nat, left: nat) {
    || s.tail + 1 >= gcStop
    || left == 0
    || (HashesAt(s.index, s.tail + 1) != {} && |Children(s.blocks, s.root)| > 1)
  }

  /** What cleaning the forks of heights [lo, hi) does with `left` of the budget unspent: nothing but doomed blocks go, and
      with budget left all of them; the fork tail comes down to where no fork ends above it. */
  ghost predicate ForksCleaned(s: Store, s': Store, lo: nat, hi: nat, left: nat) {
    && s'.head == s.head && s'.tail == s.tail && s'.root == s.root
    && Clearing(s.blocks, s'.blocks, lo, hi)
    && (forall b :: s.head in s.blocks && IsAncestor(s.blocks, b, s.head) ==> b in s'.blocks)
    && (left > 0 || lo >= hi ==> ExactlyDoomedGone(s.blocks, s'.blocks, lo, hi))
    && (if lo >= hi then s'.forkTail == hi else if left > 0 then s'.forkTail == lo else lo < s'.forkTail <= hi)
    && NoForkEndsIn(s'.blocks, s'.forkTail, hi)
  }

  /** What canonical clearing does: exactly the proper ancestors of the new root go; the tail rises, and the fork tail with
      it, until the end or the budget or a fork stops it. */
  ghost predicate CanonicalCleaned(s: Store, s': Store, gcStop: nat, left: nat) {
    && s'.head == s.head && ClearedUpTo(s.blocks, s'.blocks, s'.root) && Stopped(s', gcStop, left)
    && (s'.tail == s.tail || s.tail < s'.tail < gcStop)
    && (left == 0 ==> s'.tail == s'.blocks[s'.root].height)
    && s'.forkTail == (if s'.tail == s.tail then s.forkTail else Max(s.forkTail, s'.tail))
  }

  class ChainStore {
    var blocks: Tree
    var refcounts: Counts
    var perHeight: Index
    var head: Hash
    var tail: nat
    var forkTail: nat
    ghost var root: Hash

    ghost function View(): Store
      reads this
    {
      Store(blocks, refcounts, perHeight, head, tail, forkTail, root)
    }

    ghost predicate Valid()
      reads this
    {
      Consistent(View())
    }

    constructor (genesis: Hash, block: Block)
      requires block.prev != genesis
      ensures Valid() && blocks == map[genesis := block] && head == genesis && tail == forkTail == block.height
    {
      blocks := map[genesis := block];
      refcounts := map[];
      perHeight := map[block.height := {genesis}];
      head, root := genesis, genesis;
      tail, forkTail := block.height, block.height;
    }

    /** A validated block is stored, whether or not it is on the canonical chain. */
    method AddBlock(hash: Hash, block: Block)
      requires Valid() && Acceptable(View(), hash, block)
      modifies this
      ensures Valid() && View() == BlockAdded(old(View()), hash, block)
      ensures blocks == old(blocks)[hash := block] && tail == old(tail) && forkTail == old(forkTail) && root == old(root)
      ensures head == if block.height > old(blocks[head]).height then hash else old(head)
    {
      AddKeepsConsistent(View(), hash, block);
      SaveBlock(hash, block);
    }

    method SaveBlock(hash: Hash, block: Block)
      requires head in blocks
      modifies this
      ensures View() == BlockAdded(old(View()), hash, block)
    {
      if block.height > blocks[head].height {
        head := hash;
      }
      blocks := blocks[hash := block];
      refcounts := refcounts[block.prev := CountOf(refcounts, block.prev) + 1];
      perHeight := IndexAdd(perHeight, hash, block.height);
    }

    /** Deletes a leaf of a fork and gives back its parent's reference: the count never falls below zero. */
    method ClearForkBlock(b: Hash)
      requires Valid() && Leaf(blocks, b) && b != root && b != head
      modifies this`blocks, this`refcounts, this`perHeight
      ensures Valid() && blocks == old(blocks) - {b}
    {
      ForkClearKeepsConsistent(View(), b);
      DeleteForkBlock(b);
    }

    method DeleteForkBlock(b: Hash)
      requires b in blocks && blocks[b].prev != b && CountOf(refcounts, blocks[b].prev) > 0
      modifies this`blocks, this`refcounts, this`perHeight
      ensures View() == ForkBlockCleared(old(View()), b)
    {
      var block := blocks[b];
      blocks := blocks - {b};
      refcounts := refcounts - {b};
      perHeight := IndexRemove(perHeight, b, block.height);
      refcounts := refcounts[block.prev := CountOf(refcounts, block.prev) - 1];
    }

    /** From one block at the height being cleared: deletes it and its ancestors as long as nothing else refers to them. */
    method WalkUp(b: Hash, budget: nat, ghost t0: Tree, ghost lo: nat, ghost hi: nat) returns (left: nat)
      requires Valid() && b in blocks && lo <= blocks[b].height < hi <= blocks[head].height
      requires Clearing(t0, blocks, lo, hi)
      modifies this`blocks, this`refcounts, this`perHeight
      ensures Valid() && Clearing(t0, blocks, lo, hi)
      ensures Walked(old(blocks), blocks, b) && blocks[head] == old(blocks)[head]
      ensures left <= budget && |blocks| + (budget - left) == |old(blocks)|
      ensures left > 0 ==> WalkEnded(old(blocks), blocks, b)
    {
      ghost var t := blocks;
      var current := b;
      left := budget;
      while true
        invariant Valid() && Clearing(t0, blocks, lo, hi)
        invariant Walking(t0, t, blocks, b, current) && blocks[head] == t[head]
        invariant left <= budget && |blocks| + (budget - left) == |t|
        decreases left
      {
        if left == 0 {
          return;
        }
        assert CountOf(refcounts, current) == |Children(blocks, current)|;
        if CountOf(refcounts, current) == 0 {
          LeafBelowHead(View(), current);
          var prev := blocks[current].prev;
          WalkGoesOn(t0, t, blocks, root, lo, hi, b, current);
          ClearForkBlock(current);
          left := left - 1;
          current := prev;
        } else {
          WalkDone(t0, t, blocks, b, current);
          break;
        }
      }
    }

    /** Clears the forks that end at one height. */
    method ClearForksData(height: nat, budget: nat, ghost t0: Tree, ghost lo: nat, ghost hi: nat) returns (left: nat)
      requires Valid() && lo <= height < hi <= blocks[head].height
      requires Clearing(t0, blocks, lo, hi) && Cleared(t0, blocks, height + 1, hi)
      modifies this`blocks, this`refcounts, this`perHeight
      ensures Valid() && Clearing(t0, blocks, lo, hi)
      ensures blocks[head] == old(blocks)[head]
      ensures left <= budget && |blocks| + (budget - left) == |old(blocks)|
      ensures left > 0 ==> Cleared(t0, blocks, height, hi)
      ensures NoForkEndsIn(blocks, height + 1, hi)
    {
      left := budget;
      var todo := HashesAt(perHeight, height);
      assert todo == AtHeight(blocks, height);
      ghost var t1 := blocks;
      while todo != {}
        invariant Valid() && Clearing(t0, blocks, lo, hi) && Cleared(t0, blocks, height + 1, hi)
        invariant blocks[head] == t1[head]
        invariant left <= budget && |blocks| + (budget - left) == |t1|
        invariant ToVisit(blocks, todo, height)
        decreases todo
      {
        var b :| b in todo;
        ghost var t := blocks;
        left := WalkUp(b, left, t0, lo, hi);
        if left == 0 {
          WalkedBelow(t0, t, blocks, root, b, height, hi);
          return;
        }
        AfterWalk(t0, t, blocks, b, todo, height, hi);
        todo := todo - {b};
      }
    }

    /** Forks Cleaning: the heights [lo, fork_tail), from above.  If the budget lasts, exactly the blocks go all of
        whose leaves lie in that range; in any case nothing else goes, and no more than the budget. */
    method CleanForks(lo: nat, budget: nat) returns (left: nat)
      requires Valid()
      modifies this`blocks, this`refcounts, this`perHeight, this`forkTail
      ensures Valid() && head in blocks && blocks[head] == old(blocks[head])
      ensures Clearing(old(blocks), blocks, lo, old(forkTail))
      ensures left <= budget && |blocks| + (budget - left) == |old(blocks)|
      ensures left > 0 ==> ExactlyDoomedGone(old(blocks), blocks, lo, old(forkTail))
      ensures left > 0 ==> forkTail == (if lo < old(forkTail) then lo else old(forkTail))
      ensures left == 0 ==> (if lo < old(forkTail) then lo < forkTail <= old(forkTail) else forkTail == old(forkTail))
      ensures NoForkEndsIn(blocks, forkTail, old(forkTail))
    {
      ghost var t0 := blocks;
      var hi := forkTail;
      left := budget;
      var height := hi;
      while lo < height
        invariant Valid() && Clearing(t0, blocks, lo, hi) && height <= hi && forkTail == height
        invariant lo <= height || height == hi
        invariant SubTree(blocks, t0) && head in blocks && blocks[head] == t0[head] && hi <= t0[head].height
        invariant left <= budget && |blocks| + (budget - left) == |t0|
        invariant height < hi ==> left > 0
        invariant Cleared(t0, blocks, height, hi)
        decreases height
      {
        height := height - 1;
        left := ClearForksData(height, left, t0, lo, hi);
        if left == 0 {
          return;
        }
        forkTail := height;
      }
      assert Cleared(t0, blocks, lo, hi);
      ClearedIsExact(t0, blocks, root, lo, hi);
    }

    /** The block on the canonical chain at the new tail is kept; its parent, the root, is deleted. */
    method ClearCanonicalBlock(b: Hash, height: nat)
      requires Valid() && Children(blocks, root) == {b} && blocks[b].height == height == tail + 1
      requires height < blocks[head].height
      modifies this`blocks, this`refcounts, this`perHeight, this`tail, this`forkTail, this`root
      ensures Valid() && View() == RootCleared(old(View()), b, height)
    {
      RootClearKeepsConsistent(View(), b);
      DeletePrev(b, height);
    }

    method DeletePrev(b: Hash, height: nat)
      requires b in blocks && blocks[b].prev == root && root in blocks
      modifies this`blocks, this`refcounts, this`perHeight, this`tail, this`forkTail, this`root
      ensures View() == RootCleared(old(View()), b, height)
    {
      var prev := blocks[b].prev;
      perHeight := IndexRemove(perHeight, prev, blocks[prev].height);
      blocks := blocks - {prev};
      refcounts := refcounts - {prev};
      root := b;
      UpdateTail(height);
    }

    method UpdateTail(height: nat)
      modifies this`tail, this`forkTail
      ensures View() == TailMoved(old(View()), height)
      ensures tail <= forkTail && old(forkTail) <= forkTail
    {
      tail := height;
      if forkTail < height {
        forkTail := height;
      }
    }

    /** What canonical clearing does with the next height: it stops at a fork, else it moves the tail and may delete a block.
        Neither the error nor a second block at this height is possible. */
    method ClearHeight(height: nat, ghost t0: Tree) returns (r: Result, deleted: nat, stop: bool)
      requires Valid() && height == tail + 1 && height < blocks[head].height && ClearedUpTo(t0, blocks, root)
      modifies this`blocks, this`refcounts, this`perHeight, this`tail, this`forkTail, this`root
      ensures r == Ok && Valid() && ClearedUpTo(t0, blocks, root) && deleted <= 1
      ensures |blocks| + deleted == |old(blocks)| && blocks[head] == old(blocks[head])
      ensures stop ==> View() == old(View()) && HashesAt(perHeight, height) != {} && |Children(blocks, root)| > 1
      ensures !stop ==> tail == height && forkTail == Max(old(forkTail), height)
      ensures deleted > 0 ==> tail == blocks[root].height
    {
      r, deleted, stop := Ok, 0, false;
      var hashes := HashesAt(perHeight, height);
      if hashes != {} {
        var b :| b in hashes;
        FirstBlockAboveTail(View(), b);
        var prev := blocks[b].prev;
        if CountOf(refcounts, prev) > 1 {
          assert CountOf(refcounts, root) == |Children(blocks, root)|;
          stop := true;
        } else if CountOf(refcounts, prev) == 1 {
          assert hashes == {b};
          ClearedUpToChild(t0, blocks, root, b);
          ClearCanonicalBlock(b, height);
          deleted := 1;
        } else {
          assert false;
          r := GCError;
        }
      } else {
        TailMoveKeepsConsistent(View());
        UpdateTail(height);
      }
    }

    /** Canonical Chain Clearing. */
    method ClearCanonical(gcStop: nat, budget: nat) returns (r: Result, left: nat)
      requires Valid() && gcStop <= blocks[head].height
      modifies this`blocks, this`refcounts, this`perHeight, this`tail, this`forkTail, this`root
      ensures r == Ok && Valid()
      ensures ClearedUpTo(old(blocks), blocks, root)
      ensures left <= budget && |blocks| + (budget - left) == |old(blocks)|
      ensures Stopped(View(), gcStop, left)
      ensures tail == old(tail) || old(tail) < tail < gcStop
      ensures left == 0 < budget ==> tail == blocks[root].height
      ensures forkTail == if tail == old(tail) then old(forkTail) else Max(old(forkTail), tail)
    {
      ghost var t0 := blocks;
      r, left := Ok, budget;
      var height := tail + 1;
      ClearedUpToRoot(t0, root);
      while height < gcStop
        invariant Valid() && gcStop <= blocks[head].height && height == tail + 1
        invariant r == Ok && ClearedUpTo(t0, blocks, root)
        invariant left <= budget && |blocks| + (budget - left) == |t0|
        invariant tail == old(tail) || old(tail) < tail < gcStop
        invariant left == 0 < budget ==> tail == blocks[root].height
        invariant forkTail == if tail == old(tail) then old(forkTail) else Max(old(forkTail), tail)
        decreases gcStop - height
      {
        if left == 0 {
          return;
        }
        var deleted, stop;
        r, deleted, stop := ClearHeight(height, t0);
        if stop {
          return;
        }
        left := left - deleted;
        height := height + 1;
      }
    }

    /** The fork tail moves up at an epoch boundary; then the forks of at most `forkCleanStep` heights are cleaned. */
    method CleanForkRange(gcStop: nat, epochChange: bool, forkCleanStep: nat, budget: nat)
      returns (left: nat, ghost lo: nat, ghost hi: nat)
      requires Valid() && gcStop <= blocks[head].height
      modifies this`blocks, this`refcounts, this`perHeight, this`forkTail
      ensures Valid() && blocks[head] == old(blocks)[head]
      ensures hi == (if epochChange then Max(old(forkTail), gcStop) else old(forkTail))
      ensures lo == Max(tail, SaturatingSub(hi, forkCleanStep))
      ensures if lo >= hi then forkTail == hi else if left > 0 then forkTail == lo else lo < forkTail <= hi
      ensures NoForkEndsIn(blocks, forkTail, hi)
      ensures Clearing(old(blocks), blocks, lo, hi)
      ensures left <= budget && |blocks| + (budget - left) == |old(blocks)|
      ensures left > 0 || lo >= hi ==> ExactlyDoomedGone(old(blocks), blocks, lo, hi)
      ensures forall b :: IsAncestor(old(blocks), b, head) ==> b in blocks
    {
      if epochChange && forkTail < gcStop {
        forkTail := gcStop;
      }
      hi := forkTail;
      var stopHeight := Max(tail, SaturatingSub(forkTail, forkCleanStep));
      lo, left := stopHeight, budget;
      if stopHeight < forkTail {
        left := CleanForks(stopHeight, budget);
      } else {
        NothingDoomed(blocks, root, lo, hi);
      }
      HeadAncestorsSurvive(old(blocks), blocks, root, lo, hi, head);
    }

    /** One run of garbage collection.  `mid` is the store after cleaning the forks of heights [lo, hi), and `forkLeft` what
        that left of the budget; canonical clearing follows unless the budget is spent on forks. */
    method ClearData(gcStop: nat, epochChange: bool, forkCleanStep: nat, blocksLimit: nat)
      returns (r: Result, ghost mid: Store, ghost lo: nat, ghost hi: nat, ghost forkLeft: nat, ghost left: nat)
      requires Valid()
      modifies this`blocks, this`refcounts, this`perHeight, this`tail, this`forkTail, this`root
      ensures Valid() && Consistent(mid) && SubTree(blocks, mid.blocks) && SubTree(mid.blocks, old(blocks))
      ensures r == GCError <==> gcStop > old(blocks[head]).height
      ensures r == GCError ==> View() == old(View())
      ensures left <= forkLeft <= blocksLimit && |blocks| + (blocksLimit - left) == |old(blocks)|
      ensures r == Ok ==>
                && hi == (if epochChange then Max(old(forkTail), gcStop) else old(forkTail))
                && lo == Max(old(tail), SaturatingSub(hi, forkCleanStep))
                && ForksCleaned(old(View()), mid, lo, hi, forkLeft)
                && |mid.blocks| + (blocksLimit - forkLeft) == |old(blocks)|
      ensures r == Ok && forkLeft == 0 ==> View() == mid
      ensures r == Ok && forkLeft > 0 ==> CanonicalCleaned(mid, View(), gcStop, left)
      ensures r == Ok && forkLeft > 0 && hi == old(forkTail) ==>
                GcRun(old(View()), View(), gcStop, forkCleanStep, mid, forkLeft, left)
    {
      mid, lo, hi, forkLeft, left := View(), 0, 0, blocksLimit, blocksLimit;
      if gcStop > blocks[head].height {
        r := GCError;
        return;
      }
      var remaining: nat;
      remaining, lo, hi := CleanForkRange(gcStop, epochChange, forkCleanStep, blocksLimit);
      mid, forkLeft, left := View(), remaining, remaining;
      if remaining == 0 {
        return Ok, mid, lo, hi, forkLeft, left;
      }
      r, remaining := ClearCanonical(gcStop, remaining);
      left := remaining;
    }
  }

  // ---------------------------------------------------------------------------
  // Several runs
  // ---------------------------------------------------------------------------

  /** Cleaning forks below `hi` makes no leaf at or above it. */
  lemma CleaningMakesNoLeaf(t0: Tree, t: Tree, root: Hash, lo: nat, hi: nat, l: Hash)
    requires IsTree(t0, root) && Clearing(t0, t, lo, hi) && Leaf(t, l) && t[l].height >= hi
    ensures Leaf(t0, l)
  {
    forall c | c in Children(t0, l) ensures c in Children(t, l) {
      var x := LeafBelow(t0, root, c);
      AncestorLower(t0, c, x);
      assert c != root && t0[c].prev == l;
    }
  }

  /** Canonical clearing makes no leaf. */
  lemma ClearingUpMakesNoLeaf(t0: Tree, t: Tree, root0: Hash, root: Hash, l: Hash)
    requires IsTree(t0, root0) && ClearedUpTo(t0, t, root) && Leaf(t, l)
    ensures Leaf(t0, l)
  {
    forall c | c in Children(t0, l) ensures c in Children(t, l) {
      assert c != root0 && t0[c].prev == l && t0[l].height < t0[c].height;
      if IsAncestor(t0, c, root) && c != root {
        StepUp(t0, l, c, root);
        AncestorLower(t0, c, root);
      }
    }
  }

  /** One run of garbage collection that does not raise the fork tail and has budget left for canonical clearing. */
  ghost predicate GcRun(s: Store, s': Store, gcStop: nat, step: nat, mid: Store, forkLeft: nat, left: nat) {
    && Consistent(s) && Consistent(mid) && Consistent(s') && forkLeft > 0
    && ForksCleaned(s, mid, Max(s.tail, SaturatingSub(s.forkTail, step)), s.forkTail, forkLeft)
    && CanonicalCleaned(mid, s', gcStop, left)
  }

  ghost predicate NextRun(s: Store, s': Store, step: nat) {
    exists gcStop, mid, forkLeft, left :: GcRun(s, s', gcStop, step, mid, forkLeft, left)
  }

  ghost predicate GcRuns(ss: seq<Store>, step: nat) {
    ss != [] && forall i :: 0 < i < |ss| ==> NextRun(ss[i - 1], ss[i], step)
  }

  lemma RunKeepsForksGone(s: Store, s': Store, step: nat, top: nat)
    requires NextRun(s, s', step) && NoForkEndsIn(s.blocks, s.forkTail, top)
    ensures NoForkEndsIn(s'.blocks, s'.forkTail, top)
  {
    var gcStop, mid, forkLeft, left :| GcRun(s, s', gcStop, step, mid, forkLeft, left);
    var lo := Max(s.tail, SaturatingSub(s.forkTail, step));
    forall l | Leaf(s'.blocks, l) ensures !(s'.forkTail <= s'.blocks[l].height < top) {
      ClearingUpMakesNoLeaf(mid.blocks, s'.blocks, mid.root, s'.root, l);
      if mid.blocks[l].height >= s.forkTail {
        CleaningMakesNoLeaf(s.blocks, mid.blocks, s.root, lo, s.forkTail, l);
      }
    }
  }

  lemma RunMovesTails(s: Store, s': Store, step: nat)
    requires NextRun(s, s', step) && step > 0
    ensures s.tail <= s'.tail && (s'.forkTail <= s'.tail || s'.forkTail <= s.forkTail - step)
  {
    var gcStop, mid, forkLeft, left :| GcRun(s, s', gcStop, step, mid, forkLeft, left);
  }

  /** Over runs in a row with budget left: with each run the fork tail comes down by `step` heights until it meets the tail,
      and no fork is left that ends between there and where it began. */
  lemma {:induction false} ForksGone(ss: seq<Store>, step: nat, i: nat)
    requires GcRuns(ss, step) && step > 0 && i < |ss|
    ensures NoForkEndsIn(ss[i].blocks, ss[i].forkTail, ss[0].forkTail) && ss[0].tail <= ss[i].tail
    ensures ss[i].forkTail <= ss[i].tail || ss[i].forkTail <= ss[0].forkTail - i * step
  {
    if i > 0 {
      ForksGone(ss, step, i - 1);
      RunKeepsForksGone(ss[i - 1], ss[i], step, ss[0].forkTail);
      RunMovesTails(ss[i - 1], ss[i], step);
      assert i * step == (i - 1) * step + step;
    }
  }

  /** So enough runs clear every fork that ends between the tail and the fork tail. */
  lemma AllForksGone(ss: seq<Store>, step: nat, i: nat)
    requires GcRuns(ss, step) && step > 0 && i < |ss| && i * step >= ss[0].forkTail - ss[0].tail
    ensures NoForkEndsIn(ss[i].blocks, ss[i].tail, ss[0].forkTail)
  {
    ForksGone(ss, step, i);
  }

  lemma ClearedUpToRoot(t: Tree, root: Hash)
    requires IsTree(t, root)
    ensures ClearedUpTo(t, t, root)
  {
    forall b | b in t && b != root ensures !IsAncestor(t, b, root) {
      if IsAncestor(t, b, root) {
        AncestorLower(t, b, root);
      }
    }
  }

  /** Fork clearing below the head touches no ancestor of the head. */
  lemma HeadAncestorsSurvive(t0: Tree, t: Tree, root: Hash, lo: nat, hi: nat, head: Hash)
    requires IsTree(t0, root) && Clearing(t0, t, lo, hi) && head in t0 && hi <= t0[head].height
    ensures forall b :: IsAncestor(t0, b, head) ==> b in t
  {
    var l := LeafBelow(t0, root, head);
    AncestorLower(t0, head, l);
    forall b | IsAncestor(t0, b, head) ensures b in t {
      AncestorLower(t0, b, head);
      AncestorTransitive(t0, b, head, l);
    }
  }

  lemma NothingDoomed(t: Tree, root: Hash, lo: nat, hi: nat)
    requires IsTree(t, root) && hi <= lo
    ensures Clearing(t, t, lo, hi) && ExactlyDoomedGone(t, t, lo, hi)
  {
    forall b | b in t ensures !Doomed(t, lo, hi, b) {
      var l := LeafBelow(t, root, b);
    }
  }
}
