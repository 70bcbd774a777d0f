/**
 The canonical chain as the chain store keeps it: an index by height and a link
 from each block to the next one, rewritten back to the common ancestor whenever
 the header head changes, also across reorganisations.
 */
module CanonicalChain {
  import opened Prelude
  import opened BlockTree

  type Heights = map<nat, Hash>
  type NextHashes = map<Hash, Hash>

  datatype Links = Links(heights: Heights, next: NextHashes)

  datatype Chain = Chain(headers: Tree, root: Hash, heights: Heights, next: NextHashes, head: Hash, final: Hash)

  // ---------------------------------------------------------------------------
  // Saving a header head
  // ---------------------------------------------------------------------------

  function Without(heights: Heights, lo: nat, hi: nat): Heights {
    map n | n in heights && !(lo <= n < hi) :: heights[n]
  }

  /** From `x`, whose child on the new chain is at height `above`, back to a block that is indexed already; nothing if
      a header on the way is missing. */
  function Walk(t: Tree, root: Hash, links: Links, x: Hash, above: nat): Option<Links>
    requires IsTree(t, root)
    decreases if x in t then t[x].height + 1 else 0
  {
    if x !in t then None
    else
      var h := t[x].height;
      var cleaned := Without(links.heights, h + 1, above);
      if h in cleaned && cleaned[h] == x then Some(Links(cleaned, links.next))
      else Walk(t, root, Links(cleaned[h := x], links.next[t[x].prev := x]), t[x].prev, h)
  }

  /** `x` itself is put on top of the chain that was walked, and heights above it are cleared. */
  function Linked(c: Chain, links: Links, x: Hash): Chain
    requires x in c.headers && c.head in c.headers
  {
    var b := c.headers[x];
    c.(heights := Without(links.heights, b.height + 1, c.headers[c.head].height + 1)[b.height := x],
       next := links.next[b.prev := x],
       head := x)
  }

  function HeadSaved(c: Chain, x: Hash): Option<Chain>
    requires IsTree(c.headers, c.root) && x in c.headers && c.head in c.headers
  {
    var b := c.headers[x];
    var walked := if b.height > c.headers[c.root].height
                  then Walk(c.headers, c.root, Links(c.heights, c.next), b.prev, b.height)
                  else Some(Links(c.heights, c.next));
    if walked == None then None else Some(Linked(c, walked.value, x))
  }

  // ---------------------------------------------------------------------------
  // What the links must say
  // ---------------------------------------------------------------------------

  /** At height `h` the index names the ancestor of the head at that height, if there is one. */
  ghost predicate IndexRight(t: Tree, heights: Heights, head: Hash, h: nat)
    requires head in t
  {
    if h in heights then heights[h] in t && t[heights[h]].height == h && IsAncestor(t, heights[h], head)
    else forall x :: x in t && t[x].height == h ==> !IsAncestor(t, x, head)
  }

  /** The link of `y` leads to its child on the way to the head. */
  ghost predicate NextRight(t: Tree, next: NextHashes, head: Hash, y: Hash)
    requires head in t
  {
    y in next && next[y] in t && t[next[y]].prev == y && IsAncestor(t, next[y], head)
  }

  ghost predicate ProperAncestor(t: Tree, y: Hash, x: Hash)
    requires x in t
  {
    y in t && y != x && IsAncestor(t, y, x)
  }

  ghost predicate IndexedBelow(t: Tree, heights: Heights, head: Hash, above: nat)
    requires head in t
  {
    forall h: nat :: h < above ==> IndexRight(t, heights, head, h)
  }

  ghost predicate LinkedBelow(t: Tree, next: NextHashes, head: Hash, above: nat)
    requires head in t
  {
    forall y :: ProperAncestor(t, y, head) && t[y].height < above ==> NextRight(t, next, head, y)
  }

  ghost predicate Canonical(c: Chain) {
    && IsTree(c.headers, c.root) && c.head in c.headers
    && (forall h: nat :: IndexRight(c.headers, c.heights, c.head, h))
    && (forall y :: ProperAncestor(c.headers, y, c.head) ==> NextRight(c.headers, c.next, c.head, y))
  }

  ghost predicate SameFrom(heights: Heights, heights': Heights, above: nat) {
    forall h: nat :: h >= above ==> (h in heights' <==> h in heights) && (h in heights ==> heights'[h] == heights[h])
  }

  ghost predicate SameLinksFrom(t: Tree, next: NextHashes, next': NextHashes, above: nat) {
    forall y :: y in t && t[y].height >= above ==> (y in next' <==> y in next) && (y in next ==> next'[y] == next[y])
  }

  /** Two ancestors of one block: the lower one is an ancestor of the other. */
  lemma {:induction false} Comparable(t: Tree, a: Hash, b: Hash, c: Hash)
    requires c in t && IsAncestor(t, a, c) && IsAncestor(t, b, c)
    ensures a in t && b in t && (t[a].height <= t[b].height ==> IsAncestor(t, a, b))
    decreases t[c].height
  {
    AncestorLower(t, a, c);
    AncestorLower(t, b, c);
    if a != c && b != c {
      Comparable(t, a, b, t[c].prev);
    }
  }

  /** Below a common ancestor two chains are the same. */
  lemma SameBelow(t: Tree, x: Hash, o: Hash, n: Hash, y: Hash)
    requires o in t && n in t && y in t && IsAncestor(t, x, o) && IsAncestor(t, x, n)
    requires x in t && t[y].height <= t[x].height
    ensures IsAncestor(t, y, o) <==> IsAncestor(t, y, n)
  {
    if IsAncestor(t, y, o) {
      Comparable(t, y, x, o);
      AncestorTransitive(t, y, x, n);
    }
    if IsAncestor(t, y, n) {
      Comparable(t, y, x, n);
      AncestorTransitive(t, y, x, o);
    }
  }

  /** Nothing on the way to `n` lies between `x` and the height `above`. */
  ghost predicate Gap(t: Tree, n: Hash, x: Hash, above: nat)
    requires n in t && x in t
  {
    forall y :: y in t && IsAncestor(t, y, n) ==> t[y].height <= t[x].height || t[y].height >= above
  }

  lemma ParentGap(t: Tree, root: Hash, n: Hash, x: Hash)
    requires IsTree(t, root) && n in t && x in t && x != root && IsAncestor(t, x, n)
    ensures IsAncestor(t, t[x].prev, n) && Gap(t, n, t[x].prev, t[x].height)
  {
    StepUp(t, t[x].prev, x, n);
    forall y | y in t && IsAncestor(t, y, n) && t[y].height < t[x].height ensures t[y].height <= t[t[x].prev].height {
      Comparable(t, y, x, n);
      AncestorLower(t, y, t[x].prev);
    }
  }

  /** The root is always indexed. */
  lemma RootIndexed(t: Tree, root: Hash, heights: Heights, o: Hash)
    requires IsTree(t, root) && o in t && IndexRight(t, heights, o, t[root].height)
    ensures t[root].height in heights && heights[t[root].height] == root
  {
    RootIsAncestor(t, root, o);
    var e := heights[t[root].height];
    Comparable(t, e, root, o);
    AncestorLower(t, e, root);
  }

  /** What holds at each stage of a walk to the new head `n`, away from the old head `o`. */
  ghost predicate Walking(t: Tree, root: Hash, heights: Heights, o: Hash, n: Hash, x: Hash, above: nat) {
    && IsTree(t, root) && o in t && n in t && x in t && IsAncestor(t, x, n) && t[x].height < above && Gap(t, n, x, above)
    && IndexedBelow(t, heights, o, above)
  }

  lemma WalkStep(t: Tree, root: Hash, heights: Heights, o: Hash, n: Hash, x: Hash, above: nat)
    requires Walking(t, root, heights, o, n, x, above)
    requires var cleaned := Without(heights, t[x].height + 1, above); !(t[x].height in cleaned && cleaned[t[x].height] == x)
    ensures x != root
    ensures Walking(t, root, Without(heights, t[x].height + 1, above)[t[x].height := x], o, n, t[x].prev, t[x].height)
  {
    assert IndexRight(t, heights, o, t[x].height);
    if x == root {
      RootIndexed(t, root, heights, o);
    }
    ParentGap(t, root, n, x);
    var heights' := Without(heights, t[x].height + 1, above)[t[x].height := x];
    forall k: nat | k < t[x].height ensures IndexRight(t, heights', o, k) {
      assert IndexRight(t, heights, o, k);
    }
  }

  /** At a block that is on both chains the walk may stop. */
  lemma WalkStops(t: Tree, root: Hash, heights: Heights, o: Hash, n: Hash, x: Hash, above: nat)
    requires Walking(t, root, heights, o, n, x, above)
    requires var cleaned := Without(heights, t[x].height + 1, above); t[x].height in cleaned && cleaned[t[x].height] == x
    ensures IsAncestor(t, x, o)
    ensures IndexedBelow(t, Without(heights, t[x].height + 1, above), n, above)
  {
    assert IndexRight(t, heights, o, t[x].height);
    var cleaned := Without(heights, t[x].height + 1, above);
    forall k: nat | k < above ensures IndexRight(t, cleaned, n, k) {
      if k <= t[x].height {
        assert IndexRight(t, heights, o, k);
        IndexMoves(t, heights, cleaned, o, n, x, k);
      }
    }
  }

  lemma IndexMoves(t: Tree, heights: Heights, heights': Heights, o: Hash, n: Hash, x: Hash, k: nat)
    requires o in t && n in t && x in t && IsAncestor(t, x, o) && IsAncestor(t, x, n) && k <= t[x].height
    requires IndexRight(t, heights, o, k)
    requires (k in heights <==> k in heights') && (k in heights ==> heights'[k] == heights[k])
    ensures IndexRight(t, heights', n, k)
  {
    if k in heights {
      SameBelow(t, x, o, n, heights[k]);
    } else {
      forall y | y in t && t[y].height == k ensures !IsAncestor(t, y, n) {
        SameBelow(t, x, o, n, y);
      }
    }
  }

  lemma LinkMoves(t: Tree, next: NextHashes, o: Hash, n: Hash, x: Hash, y: Hash)
    requires o in t && n in t && x in t && IsAncestor(t, x, o) && IsAncestor(t, x, n)
    requires ProperAncestor(t, y, n) && t[y].height < t[x].height && LinkedBelow(t, next, o, t[x].height)
    ensures NextRight(t, next, n, y)
  {
    SameBelow(t, x, o, n, y);
    AncestorLower(t, x, o);
    assert NextRight(t, next, o, y);
    var child := next[y];
    Comparable(t, child, x, o);
    Comparable(t, x, child, o);
    if t[child].height > t[x].height {
      AncestorLower(t, x, t[child].prev);
    }
    AncestorTransitive(t, child, x, n);
  }

  /** The walk succeeds, puts the new chain into the index below where it started, and touches nothing above. */
  lemma {:induction false} WalkIndexes(t: Tree, root: Hash, links: Links, o: Hash, n: Hash, x: Hash, above: nat)
    requires Walking(t, root, links.heights, o, n, x, above)
    ensures var r := Walk(t, root, links, x, above);
            r.Some? && IndexedBelow(t, r.value.heights, n, above) && SameFrom(links.heights, r.value.heights, above)
    decreases t[x].height
  {
    var h, cleaned := t[x].height, Without(links.heights, t[x].height + 1, above);
    if h in cleaned && cleaned[h] == x {
      WalkStops(t, root, links.heights, o, n, x, above);
    } else {
      WalkStep(t, root, links.heights, o, n, x, above);
      var rewired := Links(cleaned[h := x], links.next[t[x].prev := x]);
      WalkIndexes(t, root, rewired, o, n, t[x].prev, h);
      IndexExtends(t, links.heights, Walk(t, root, rewired, t[x].prev, h).value.heights, n, x, above);
    }
  }

  lemma IndexExtends(t: Tree, heights: Heights, heights': Heights, n: Hash, x: Hash, above: nat)
    requires n in t && x in t && IsAncestor(t, x, n) && Gap(t, n, x, above) && t[x].height < above
    requires IndexedBelow(t, heights', n, t[x].height)
    requires SameFrom(Without(heights, t[x].height + 1, above)[t[x].height := x], heights', t[x].height)
    ensures IndexedBelow(t, heights', n, above) && SameFrom(heights, heights', above)
  {
  }

  /** The links below where the walk started lead along the new chain; those from there on are not touched. */
  lemma {:induction false} WalkLinks(t: Tree, root: Hash, links: Links, o: Hash, n: Hash, x: Hash, above: nat)
    requires Walking(t, root, links.heights, o, n, x, above) && LinkedBelow(t, links.next, o, t[x].height)
    ensures var r := Walk(t, root, links, x, above);
            r.Some? && LinkedBelow(t, r.value.next, n, t[x].height) && SameLinksFrom(t, links.next, r.value.next, t[x].height)
    decreases t[x].height
  {
    var h, cleaned := t[x].height, Without(links.heights, t[x].height + 1, above);
    if h in cleaned && cleaned[h] == x {
      WalkStops(t, root, links.heights, o, n, x, above);
      LinksMove(t, links.next, o, n, x);
    } else {
      WalkStep(t, root, links.heights, o, n, x, above);
      var rewired := Links(cleaned[h := x], links.next[t[x].prev := x]);
      LinksRewired(t, root, links.next, o, x);
      WalkLinks(t, root, rewired, o, n, t[x].prev, h);
      LinksExtend(t, root, Walk(t, root, rewired, t[x].prev, h).value.next, n, x);
    }
  }

  lemma LinksMove(t: Tree, next: NextHashes, o: Hash, n: Hash, x: Hash)
    requires o in t && n in t && x in t && IsAncestor(t, x, o) && IsAncestor(t, x, n) && LinkedBelow(t, next, o, t[x].height)
    ensures LinkedBelow(t, next, n, t[x].height)
  {
    forall y: Hash | ProperAncestor(t, y, n) && t[y].height < t[x].height ensures NextRight(t, next, n, y) {
      LinkMoves(t, next, o, n, x, y);
    }
  }

  lemma LinksRewired(t: Tree, root: Hash, next: NextHashes, o: Hash, x: Hash)
    requires IsTree(t, root) && o in t && x in t && x != root && LinkedBelow(t, next, o, t[x].height)
    ensures LinkedBelow(t, next[t[x].prev := x], o, t[t[x].prev].height)
  {
    forall y: Hash | ProperAncestor(t, y, o) && t[y].height < t[t[x].prev].height
      ensures NextRight(t, next[t[x].prev := x], o, y)
    {
      assert NextRight(t, next, o, y);
    }
  }

  /** Links that are right below the parent of `x`, and right at it, are right below `x`. */
  lemma LinksExtend(t: Tree, root: Hash, next: NextHashes, n: Hash, x: Hash)
    requires IsTree(t, root) && n in t && x in t && x != root && IsAncestor(t, x, n)
    requires LinkedBelow(t, next, n, t[t[x].prev].height) && t[x].prev in next && next[t[x].prev] == x
    ensures LinkedBelow(t, next, n, t[x].height)
  {
    var prev := t[x].prev;
    ParentGap(t, root, n, x);
    forall y | ProperAncestor(t, y, n) && t[y].height < t[x].height ensures NextRight(t, next, n, y) {
      if t[y].height >= t[prev].height {
        Comparable(t, y, prev, n);
        AncestorLower(t, y, prev);
      }
    }
  }

  /** Saving any known header as the head, on the same chain or across a reorganisation, never fails and leaves the
      index and the links exactly right for it. */
  lemma HeadSavedCanonical(c: Chain, x: Hash)
    requires Canonical(c) && x in c.headers
    ensures HeadSaved(c, x).Some? && Canonical(HeadSaved(c, x).value)
    ensures var s := HeadSaved(c, x).value; s.head == x && s.headers == c.headers && s.root == c.root && s.final == c.final
  {
    if x == c.root {
      RootSavedCanonical(c);
    } else {
      var t, b := c.headers, c.headers[x];
      assert IsAncestor(t, x, x);
      RootBelow(t, c.root, x);
      ParentGap(t, c.root, x, x);
      assert Walking(t, c.root, c.heights, c.head, x, b.prev, b.height);
      SavedIndex(c, x);
      SavedLinks(c, x);
    }
  }

  lemma SavedIndex(c: Chain, x: Hash)
    requires Canonical(c) && x in c.headers && c.headers[x].height > c.headers[c.root].height
    requires Walking(c.headers, c.root, c.heights, c.head, x, c.headers[x].prev, c.headers[x].height)
    ensures HeadSaved(c, x).Some? && forall h: nat :: IndexRight(c.headers, HeadSaved(c, x).value.heights, x, h)
  {
    var t, b := c.headers, c.headers[x];
    WalkIndexes(t, c.root, Links(c.heights, c.next), c.head, x, b.prev, b.height);
    var r := Walk(t, c.root, Links(c.heights, c.next), b.prev, b.height).value;
    forall h: nat ensures IndexRight(t, HeadSaved(c, x).value.heights, x, h) {
      if h < b.height {
        assert IndexRight(t, r.heights, x, h);
      } else {
        AboveHead(t, c.heights, c.head, x, h);
      }
    }
  }

  lemma SavedLinks(c: Chain, x: Hash)
    requires Canonical(c) && x in c.headers && x != c.root && c.headers[x].height > c.headers[c.root].height
    requires Walking(c.headers, c.root, c.heights, c.head, x, c.headers[x].prev, c.headers[x].height)
    requires HeadSaved(c, x).Some?
    ensures forall y :: ProperAncestor(c.headers, y, x) ==> NextRight(c.headers, HeadSaved(c, x).value.next, x, y)
  {
    var t, b := c.headers, c.headers[x];
    WalkLinks(t, c.root, Links(c.heights, c.next), c.head, x, b.prev, b.height);
    var r, s := Walk(t, c.root, Links(c.heights, c.next), b.prev, b.height).value, HeadSaved(c, x).value;
    forall y: Hash | ProperAncestor(t, y, x) && t[y].height < t[b.prev].height ensures NextRight(t, s.next, x, y) {
      assert NextRight(t, r.next, x, y);
    }
    LinksExtend(t, c.root, s.next, x, x);
    forall y: Hash | ProperAncestor(t, y, x) ensures NextRight(t, s.next, x, y) {
      AncestorLower(t, y, x);
    }
  }

  lemma RootBelow(t: Tree, root: Hash, x: Hash)
    requires IsTree(t, root) && x in t
    ensures x != root ==> t[root].height < t[x].height
  {
    RootIsAncestor(t, root, x);
    AncestorLower(t, root, x);
  }

  /** Above both heads there is nothing. */
  lemma AboveHead(t: Tree, heights: Heights, o: Hash, x: Hash, h: nat)
    requires o in t && x in t && IndexRight(t, heights, o, h) && h >= t[x].height
    ensures h > t[o].height ==> h !in heights
    ensures forall y :: y in t && t[y].height == h && y != x ==> !IsAncestor(t, y, x)
  {
    if h > t[o].height && h in heights {
      AncestorLower(t, heights[h], o);
    }
    forall y | y in t && t[y].height == h && y != x ensures !IsAncestor(t, y, x) {
      if IsAncestor(t, y, x) {
        AncestorLower(t, y, x);
      }
    }
  }

  lemma RootSavedCanonical(c: Chain)
    requires Canonical(c)
    ensures HeadSaved(c, c.root).Some? && Canonical(HeadSaved(c, c.root).value)
  {
    var t, s := c.headers, HeadSaved(c, c.root).value;
    forall h: nat ensures IndexRight(t, s.heights, c.root, h) {
      assert IndexRight(t, c.heights, c.head, h);
      if h < t[c.root].height {
        forall y | y in t ensures t[y].height >= t[c.root].height {
          RootBelow(t, c.root, y);
        }
      } else {
        AboveHead(t, c.heights, c.head, c.root, h);
      }
    }
  }

  /** Towards any block of the canonical chain the links lead through its ancestors. */
  lemma NextTowards(c: Chain, b: Hash, f: Hash)
    requires Canonical(c) && f in c.headers && IsAncestor(c.headers, f, c.head) && ProperAncestor(c.headers, b, f)
    ensures b in c.next && c.next[b] in c.headers && c.headers[c.next[b]].prev == b
    ensures IsAncestor(c.headers, c.next[b], f)
  {
    var t := c.headers;
    AncestorTransitive(t, b, f, c.head);
    AncestorLower(t, b, f);
    AncestorLower(t, f, c.head);
    assert NextRight(t, c.next, c.head, b);
    Comparable(t, c.next[b], f, c.head);
    Comparable(t, f, c.next[b], c.head);
    if t[c.next[b]].height > t[f].height {
      AncestorLower(t, f, t[c.next[b]].prev);
    }
  }

  // ---------------------------------------------------------------------------
  // New headers, and the final head
  // ---------------------------------------------------------------------------

  function HeaderAdded(c: Chain, x: Hash, b: Block): Chain {
    c.(headers := c.headers[x := b])
  }

  ghost predicate NewHeader(c: Chain, x: Hash, b: Block) {
    && x !in c.headers && c.root in c.headers && x != c.headers[c.root].prev
    && b.prev in c.headers && b.height > c.headers[b.prev].height
  }

  /** A new header changes nothing for the blocks known before. */
  lemma {:induction false} SameAncestors(t: Tree, root: Hash, x: Hash, b: Block, a: Hash, y: Hash)
    requires IsTree(t, root) && x !in t && x != t[root].prev && y in t
    ensures IsAncestor(t[x := b], a, y) <==> IsAncestor(t, a, y)
    decreases t[y].height
  {
    if y != root {
      SameAncestors(t, root, x, b, a, t[y].prev);
    }
  }

  lemma HeaderKeepsCanonical(c: Chain, x: Hash, b: Block)
    requires Canonical(c) && NewHeader(c, x, b)
    ensures Canonical(HeaderAdded(c, x, b))
    ensures var s := HeaderAdded(c, x, b);
            x in s.headers && s.headers[x] == b && s.headers - {x} == c.headers && s.head == c.head && s.final == c.final
  {
    var t, t' := c.headers, c.headers[x := b];
    AddLeaf(t, c.root, x, b);
    forall a: Hash ensures IsAncestor(t', a, c.head) <==> IsAncestor(t, a, c.head) {
      SameAncestors(t, c.root, x, b, a, c.head);
    }
    if IsAncestor(t, x, c.head) {
      AncestorLower(t, x, c.head);
    }
    forall h: nat ensures IndexRight(t', c.heights, c.head, h) {
      assert IndexRight(t, c.heights, c.head, h);
    }
    forall y: Hash | ProperAncestor(t', y, c.head) ensures NextRight(t', c.next, c.head, y) {
      AncestorLower(t, y, c.head);
      assert NextRight(t, c.next, c.head, y);
    }
  }

  /** The final head is on the canonical chain. */
  ghost predicate Finalized(c: Chain) {
    Canonical(c) && c.final in c.headers && IsAncestor(c.headers, c.final, c.head)
  }

  /** A higher final head on the canonical chain descends from the one before. */
  lemma FinalDescends(c: Chain, f: Hash)
    requires Finalized(c) && f in c.headers && IsAncestor(c.headers, f, c.head)
    requires c.headers[f].height >= c.headers[c.final].height
    ensures IsAncestor(c.headers, c.final, f)
  {
    Comparable(c.headers, c.final, f, c.head);
  }

  // ---------------------------------------------------------------------------
  // The store
  // ---------------------------------------------------------------------------

  method ClearHeights(heights: Heights, lo: nat, hi: nat) returns (cleared: Heights)
    ensures cleared == Without(heights, lo, hi)
  {
    cleared := heights;
    var h := lo;
    while h < hi
      invariant lo <= h && (if lo <= hi then h <= hi else h == lo)
      invariant cleared == Without(heights, lo, h)
    {
      cleared := cleared - {h};
      h := h + 1;
    }
    assert Without(heights, lo, h) == Without(heights, lo, hi);
  }

  /** Walks back from `hash` until a block is indexed already. */
  method UpdateHeight(headers: Tree, ghost root: Hash, known: Links, height: nat, hash: Hash) returns (r: Option<Links>)
    requires IsTree(headers, root)
    ensures r == Walk(headers, root, known, hash, height)
  {
    var prevHash, prevHeight, links := hash, height, known;
    while prevHash in headers
      invariant Walk(headers, root, known, hash, height) == Walk(headers, root, links, prevHash, prevHeight)
      decreases if prevHash in headers then headers[prevHash].height + 1 else 0
    {
      var header := headers[prevHash];
      var cleaned := ClearHeights(links.heights, header.height + 1, prevHeight);
      if header.height in cleaned && cleaned[header.height] == prevHash {
        return Some(Links(cleaned, links.next));
      }
      links := Links(cleaned[header.height := prevHash], links.next[header.prev := prevHash]);
      prevHash, prevHeight := header.prev, header.height;
    }
    r := None;
  }

  class ChainIndex {
    var headers: Tree
    const root: Hash
    var heights: Heights
    var next: NextHashes
    var head: Hash
    var final: Hash

    ghost function View(): Chain
      reads this
    {
      Chain(headers, root, heights, next, head, final)
    }

    constructor (genesis: Hash, block: Block)
      requires block.prev != genesis
      ensures Finalized(View()) && headers == map[genesis := block] && head == final == genesis
    {
      headers, root := map[genesis := block], genesis;
      heights, next := map[block.height := genesis], map[block.prev := genesis];
      head, final := genesis, genesis;
    }

    /** Makes `x` the header head; nothing is written if a header is missing. */
    method SaveHeaderHead(x: Hash) returns (ok: bool)
      requires IsTree(headers, root) && x in headers && head in headers
      modifies this`heights, this`next, this`head
      ensures ok ==> Some(View()) == HeadSaved(old(View()), x)
      ensures !ok ==> HeadSaved(old(View()), x) == None && View() == old(View())
    {
      var b := headers[x];
      var links := Some(Links(heights, next));
      if b.height > headers[root].height {
        links := UpdateHeight(headers, root, Links(heights, next), b.height, b.prev);
      }
      if links == None {
        return false;
      }
      WriteHead(x, links.value);
      ok := true;
    }

    method WriteHead(x: Hash, links: Links)
      requires x in headers && head in headers
      modifies this`heights, this`next, this`head
      ensures View() == Linked(old(View()), links, x)
    {
      var b := headers[x];
      var cleared := ClearHeights(links.heights, b.height + 1, headers[head].height + 1);
      heights, next, head := cleared[b.height := x], links.next[b.prev := x], x;
    }
  }
}
