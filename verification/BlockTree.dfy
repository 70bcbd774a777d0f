/**
 Stored blocks as a finite tree: parents, leaves, ancestors, and which blocks a
 range of fork heights condemns.
 */
module BlockTree {

  type Hash = nat

  datatype Block = Block(prev: Hash, height: nat)

  type Tree = map<Hash, Block>

  /** A single tree: every block but the root has its parent stored, at a lower height. */
  ghost predicate IsTree(t: Tree, root: Hash) {
    && root in t && t[root].prev !in t
    && (forall b {:trigger t[b].prev} :: b in t && b != root ==> t[b].prev in t && t[t[b].prev].height < t[b].height)
  }

  ghost function Children(t: Tree, b: Hash): set<Hash> {
    set c | c in t && t[c].prev == b
  }

  ghost predicate Leaf(t: Tree, b: Hash) {
    b in t && Children(t, b) == {}
  }

  ghost predicate IsAncestor(t: Tree, a: Hash, b: Hash)
    requires b in t
    decreases t[b].height
  {
    || a == b
    || (t[b].prev in t && t[t[b].prev].height < t[b].height && IsAncestor(t, a, t[b].prev))
  }

  ghost predicate SubTree(t: Tree, t0: Tree) {
    forall b :: b in t ==> b in t0 && t[b] == t0[b]
  }

  /** Every leaf at or below `b` has a height in [lo, hi). */
  ghost predicate Doomed(t: Tree, lo: nat, hi: nat, b: Hash) {
    forall l :: Leaf(t, l) && IsAncestor(t, b, l) ==> lo <= t[l].height < hi
  }

  lemma {:induction false} RootIsAncestor(t: Tree, root: Hash, b: Hash)
    requires IsTree(t, root) && b in t
    ensures IsAncestor(t, root, b)
    decreases t[b].height
  {
    if b != root {
      RootIsAncestor(t, root, t[b].prev);
    }
  }

  lemma {:induction false} AncestorLower(t: Tree, a: Hash, b: Hash)
    requires b in t && IsAncestor(t, a, b)
    ensures a in t && (a != b ==> t[a].height < t[b].height)
    decreases t[b].height
  {
    if a != b {
      AncestorLower(t, a, t[b].prev);
    }
  }

  lemma {:induction false} AncestorTransitive(t: Tree, a: Hash, b: Hash, c: Hash)
    requires b in t && c in t && IsAncestor(t, a, b) && IsAncestor(t, b, c)
    ensures IsAncestor(t, a, c)
    decreases t[c].height
  {
    if b != c {
      AncestorTransitive(t, a, b, t[c].prev);
    }
  }

  /** Below an ancestor the path starts with one of its children. */
  lemma {:induction false} AncestorViaChild(t: Tree, a: Hash, b: Hash) returns (c: Hash)
    requires b in t && IsAncestor(t, a, b) && a != b
    ensures c in Children(t, a) && IsAncestor(t, c, b)
    decreases t[b].height
  {
    if t[b].prev == a {
      c := b;
    } else {
      c := AncestorViaChild(t, a, t[b].prev);
    }
  }

  lemma {:induction false} AncestorInSuperTree(t: Tree, t0: Tree, a: Hash, b: Hash)
    requires SubTree(t, t0) && b in t && IsAncestor(t, a, b)
    ensures IsAncestor(t0, a, b)
    decreases t[b].height
  {
    if a != b {
      AncestorInSuperTree(t, t0, a, t[b].prev);
    }
  }

  /** An upper bound of the heights in a finite tree. */
  ghost function Bound(t: Tree): (h: nat)
    ensures forall b :: b in t ==> t[b].height <= h
    decreases |t|
  {
    if t == map[] then 0
    else
      var b :| b in t;
      var rest := t - {b};
      assert forall x :: x in t && x != b ==> x in rest && rest[x] == t[x];
      var h := Bound(rest);
      if t[b].height > h then t[b].height else h
  }

  /** Below every block there is a leaf. */
  lemma {:induction false} LeafBelow(t: Tree, root: Hash, b: Hash) returns (l: Hash)
    requires IsTree(t, root) && b in t
    ensures Leaf(t, l) && IsAncestor(t, b, l)
    decreases Bound(t) - t[b].height
  {
    if Leaf(t, b) {
      l := b;
    } else {
      var c :| c in Children(t, b);
      assert c != root;
      l := LeafBelow(t, root, c);
      StepUp(t, b, c, l);
    }
  }

  lemma {:induction false} StepUp(t: Tree, b: Hash, c: Hash, l: Hash)
    requires c in t && t[c].prev == b && b in t && t[b].height < t[c].height
    requires l in t && IsAncestor(t, c, l)
    ensures IsAncestor(t, b, l)
    decreases t[l].height
  {
    if c != l {
      StepUp(t, b, c, t[l].prev);
    }
  }

  /** A block that is a leaf of what is left, and all of whose original children are condemned, is condemned. */
  lemma DoomedByChildren(t0: Tree, t: Tree, lo: nat, hi: nat, b: Hash)
    requires SubTree(t, t0) && Leaf(t, b)
    requires forall x :: x in t0 && x !in t ==> Doomed(t0, lo, hi, x)
    requires Leaf(t0, b) ==> lo <= t0[b].height < hi
    ensures Doomed(t0, lo, hi, b)
  {
    forall l | Leaf(t0, l) && IsAncestor(t0, b, l)
      ensures lo <= t0[l].height < hi
    {
      if l != b {
        var c := AncestorViaChild(t0, b, l);
        assert c in t ==> c in Children(t, b);
      }
    }
  }

  /** Removing a leaf other than the root leaves a tree. */
  lemma RemoveLeaf(t: Tree, root: Hash, b: Hash)
    requires IsTree(t, root) && Leaf(t, b) && b != root
    ensures IsTree(t - {b}, root)
    ensures forall x :: Children(t - {b}, x) == Children(t, x) - (if x == t[b].prev then {b} else {})
  {
    var t' := t - {b};
    forall x | x in t' && x != root ensures t'[x].prev in t' {
      assert t[x].prev == b ==> x in Children(t, b);
    }
  }

  /** Removing a root with a single child makes that child the root. */
  lemma RemoveRoot(t: Tree, root: Hash, child: Hash)
    requires IsTree(t, root) && Children(t, root) == {child}
    ensures IsTree(t - {root}, child)
    ensures forall x :: x in t && x != root ==> Children(t - {root}, x) == Children(t, x)
  {
    var t' := t - {root};
    assert child in Children(t, root) && child != root;
    forall x | x in t' && x != child ensures t'[x].prev in t' {
      assert t[x].prev == root ==> x in Children(t, root);
    }
    forall x | x in t && x != root ensures Children(t', x) == Children(t, x) {
      assert root !in Children(t, x);
    }
  }

  /** Reference counts; a missing entry counts as zero. */
  type Counts = map<Hash, nat>

  function CountOf(counts: Counts, b: Hash): nat {
    if b in counts then counts[b] else 0
  }

  /** Each stored block's reference count is the number of its stored children. */
  ghost predicate CountsExact(t: Tree, counts: Counts) {
    forall b {:trigger CountOf(counts, b)} :: b in t ==> CountOf(counts, b) == |Children(t, b)|
  }

  lemma CountsAfterAdd(t: Tree, counts: Counts, hash: Hash, block: Block)
    requires CountsExact(t, counts) && hash !in t && block.prev in t && hash !in counts
    requires Children(t, hash) == {}
    ensures CountsExact(t[hash := block], counts[block.prev := CountOf(counts, block.prev) + 1])
  {
    var t', counts' := t[hash := block], counts[block.prev := CountOf(counts, block.prev) + 1];
    forall b | b in t' ensures CountOf(counts', b) == |Children(t', b)| {
      assert Children(t', b) == Children(t, b) + (if b == block.prev then {hash} else {});
      assert b != hash ==> CountOf(counts, b) == |Children(t, b)|;
    }
  }

  lemma CountsAfterLeaf(t: Tree, root: Hash, counts: Counts, b: Hash)
    requires IsTree(t, root) && CountsExact(t, counts) && Leaf(t, b) && b != root
    ensures CountOf(counts, t[b].prev) > 0 && t[b].prev != b
    ensures CountsExact(t - {b}, (counts - {b})[t[b].prev := CountOf(counts, t[b].prev) - 1])
  {
    RemoveLeaf(t, root, b);
    var prev := t[b].prev;
    assert b in Children(t, prev);
    assert CountOf(counts, prev) == |Children(t, prev)|;
    var t', counts' := t - {b}, (counts - {b})[prev := CountOf(counts, prev) - 1];
    forall x | x in t' ensures CountOf(counts', x) == |Children(t', x)| {
      assert CountOf(counts, x) == |Children(t, x)|;
      assert x == prev ==> Children(t', x) == Children(t, x) - {b};
      assert x != prev ==> Children(t', x) == Children(t, x);
    }
  }

  lemma CountsAfterRoot(t: Tree, root: Hash, counts: Counts, child: Hash)
    requires IsTree(t, root) && CountsExact(t, counts) && Children(t, root) == {child}
    ensures CountsExact(t - {root}, counts - {root})
  {
    RemoveRoot(t, root, child);
    var t', counts' := t - {root}, counts - {root};
    forall x | x in t' ensures CountOf(counts', x) == |Children(t', x)| {
      assert CountOf(counts, x) == |Children(t, x)|;
      assert Children(t', x) == Children(t, x);
    }
  }

  /** The index of block hashes by height; heights without blocks have no entry. */
  type Index = map<nat, set<Hash>>

  function HashesAt(index: Index, h: nat): set<Hash> {
    if h in index then index[h] else {}
  }

  ghost function AtHeight(t: Tree, h: nat): set<Hash> {
    set b | b in t && t[b].height == h
  }

  ghost predicate IndexExact(t: Tree, index: Index) {
    forall h {:trigger HashesAt(index, h)} :: HashesAt(index, h) == AtHeight(t, h)
  }

  function IndexAdd(index: Index, hash: Hash, h: nat): Index {
    index[h := HashesAt(index, h) + {hash}]
  }

  function IndexRemove(index: Index, hash: Hash, h: nat): Index {
    var rest := HashesAt(index, h) - {hash};
    if rest == {} then index - {h} else index[h := rest]
  }

  lemma IndexAfterAdd(t: Tree, index: Index, hash: Hash, block: Block)
    requires IndexExact(t, index) && hash !in t
    ensures IndexExact(t[hash := block], IndexAdd(index, hash, block.height))
  {
    var t', index' := t[hash := block], IndexAdd(index, hash, block.height);
    forall h ensures HashesAt(index', h) == AtHeight(t', h) {
      assert HashesAt(index, h) == AtHeight(t, h);
      assert AtHeight(t', h) == AtHeight(t, h) + (if h == block.height then {hash} else {});
    }
  }

  lemma IndexAfterRemove(t: Tree, index: Index, hash: Hash)
    requires IndexExact(t, index) && hash in t
    ensures IndexExact(t - {hash}, IndexRemove(index, hash, t[hash].height))
  {
    var t', index' := t - {hash}, IndexRemove(index, hash, t[hash].height);
    forall h ensures HashesAt(index', h) == AtHeight(t', h) {
      assert HashesAt(index, h) == AtHeight(t, h);
      assert AtHeight(t', h) == AtHeight(t, h) - {hash};
      assert h != t[hash].height ==> hash !in AtHeight(t, h);
    }
  }

  lemma AddLeaf(t: Tree, root: Hash, hash: Hash, block: Block)
    requires IsTree(t, root) && hash !in t && hash != t[root].prev
    requires block.prev in t && t[block.prev].height < block.height
    ensures IsTree(t[hash := block], root)
  {
  }

  /** After clearing, what is left below a surviving block shows that it was not condemned. */
  lemma SurvivorNotDoomed(t0: Tree, t: Tree, root: Hash, lo: nat, hi: nat, b: Hash)
    requires SubTree(t, t0) && IsTree(t, root) && b in t
    requires forall l :: Leaf(t, l) ==> Leaf(t0, l) && !(lo <= t[l].height < hi)
    ensures !Doomed(t0, lo, hi, b)
  {
    var l := LeafBelow(t, root, b);
    AncestorInSuperTree(t, t0, b, l);
  }
}
