/**
 A network of Doomslug nodes: what a quorum of endorsements excludes, and why no
 two blocks that any node takes for final are ever on different chains.

 Honest accounts run the timer of module `Timer`; the others sign what they like.
 Anybody may publish a block whose header passes validation.
 */
module Consensus {
  import opened Prelude
  import opened Pledges
  import opened Approvals
  import opened Timer
  import BlockTree
  import Trackers
  import Doomslug

  // The default hash: no block has it.
  const NO_BLOCK: Hash := 0

  datatype Header = Header(prev: Hash, height: nat, approvals: seq<Option<Signature>>, lastDsFinal: Hash, lastFinal: Hash)

  datatype Config = Config(ps: seq<ApprovalPledge>, faulty: set<AccountId>, genesis: Hash, genesisHeight: nat)

  /** `votes` is what each honest account has approved; `signed` is every signature in existence. */
  datatype Net = Net(nodes: map<AccountId, Node>, votes: map<AccountId, seq<Vote>>, signed: set<Signature>,
                     headers: map<Hash, Header>)

  ghost predicate Honest(c: Config, a: AccountId) {
    a in Accounts(c.ps) && a !in c.faulty
  }

  /** One pledge list, with at most a third of the pledge faulty and a threshold that is not zero. */
  ghost predicate Assumptions(c: Config) {
    && Distinct(c.ps)
    && Total(c.ps, ThisEpoch) >= 2
    && 3 * Weight(c.ps, c.faulty, ThisEpoch) <= Total(c.ps, ThisEpoch)
    && c.genesis != NO_BLOCK
  }

  function SignatureOf(a: AccountId, v: Vote): Signature {
    Signature(a, InnerOf(v.hash, v.parent, v.target), v.target)
  }

  function ExpectedDsFinal(headers: map<Hash, Header>, prev: Hash, height: nat): Hash
    requires prev in headers
  {
    if height == headers[prev].height + 1 then prev else headers[prev].lastDsFinal
  }

  function ExpectedFinal(headers: map<Hash, Header>, prev: Hash, height: nat): Hash
    requires prev in headers
  {
    if height == headers[prev].height + 1 && headers[prev].lastDsFinal == headers[prev].prev
    then headers[prev].prev else headers[prev].lastFinal
  }

  /** The part of header validation that concerns approvals and finality. */
  ghost predicate ValidHeader(c: Config, headers: map<Hash, Header>, signed: set<Signature>, h: Header) {
    && h.prev in headers
    && VerifyApproval(c.ps, h.prev, headers[h.prev].height, h.height, h.approvals)
    && CanApprovedBlockBeProduced(TwoThirds, h.approvals, Slots(c.ps))
    && h.lastDsFinal == ExpectedDsFinal(headers, h.prev, h.height)
    && h.lastFinal == ExpectedFinal(headers, h.prev, h.height)
    // signatures cannot be made up
    && (forall i :: 0 <= i < |h.approvals| && h.approvals[i].Some? ==> h.approvals[i].value in signed)
  }

  // ---------------------------------------------------------------------------
  // The network as a transition system
  // ---------------------------------------------------------------------------

  ghost predicate Init(c: Config, n: Net) {
    && (forall a :: Honest(c, a) ==> a in n.nodes && a in n.votes && n.votes[a] == [] && n.nodes[a].height == 0)
    && (forall s :: s in n.signed ==> !Honest(c, s.account))
    && n.headers == map[c.genesis := Header(NO_BLOCK, c.genesisHeight, [], NO_BLOCK, NO_BLOCK)]
  }

  /** An honest node gets a tip no lower than before, polls its timer once it has a tip, or restarts. */
  ghost predicate LocalStep(c: Config, n: Net, n': Net, a: AccountId, ev: Event) {
    && Honest(c, a) && a in n.nodes && a in n.votes
    && (ev.Tick? ==> n.nodes[a].height > 0)
    && (!ev.Tick? ==> ev.height >= n.nodes[a].tipHeight)
    && var (s, more) := Step(n.nodes[a], ev);
       n' == n.(nodes := n.nodes[a := s],
                votes := n.votes[a := n.votes[a] + more],
                signed := n.signed + set i | 0 <= i < |more| :: SignatureOf(a, more[i]))
  }

  ghost predicate ForgeStep(c: Config, n: Net, n': Net, s: Signature) {
    !Honest(c, s.account) && n' == n.(signed := n.signed + {s})
  }

  ghost predicate PublishStep(c: Config, n: Net, n': Net, hash: Hash, h: Header) {
    && hash !in n.headers && hash != NO_BLOCK
    && ValidHeader(c, n.headers, n.signed, h)
    && n' == n.(headers := n.headers[hash := h])
  }

  ghost predicate Next(c: Config, n: Net, n': Net) {
    || (exists a, ev :: LocalStep(c, n, n', a, ev))
    || (exists s :: ForgeStep(c, n, n', s))
    || (exists hash, h :: PublishStep(c, n, n', hash, h))
  }

  ghost predicate Behavior(c: Config, ns: seq<Net>) {
    && ns != [] && Init(c, ns[0])
    && (forall i :: 0 <= i < |ns| - 1 ==> Next(c, ns[i], ns[i + 1]))
  }

  // ---------------------------------------------------------------------------
  // Invariants
  // ---------------------------------------------------------------------------

  ghost predicate NodesInv(c: Config, n: Net) {
    forall a :: Honest(c, a) ==>
      && a in n.nodes && a in n.votes
      && Covered(n.nodes[a], n.votes[a]) && Disciplined(n.votes[a])
      && (n.nodes[a].height > 0 ==> TimerAhead(n.nodes[a]))
  }

  ghost predicate SignedInv(c: Config, n: Net) {
    forall s :: s in n.signed && Honest(c, s.account) ==>
      && s.account in n.votes
      && exists i :: 0 <= i < |n.votes[s.account]| && s == SignatureOf(s.account, n.votes[s.account][i])
  }

  ghost predicate HeadersInv(c: Config, n: Net) {
    && NO_BLOCK !in n.headers
    && c.genesis in n.headers
    && n.headers[c.genesis] == Header(NO_BLOCK, c.genesisHeight, [], NO_BLOCK, NO_BLOCK)
    && (forall x :: x in n.headers ==> n.headers[x].height >= c.genesisHeight)
    && (forall x :: x in n.headers && x != c.genesis ==>
         && ValidHeader(c, n.headers, n.signed, n.headers[x])
         && n.headers[x].height > n.headers[n.headers[x].prev].height)
  }

  ghost predicate Inv(c: Config, n: Net) {
    NodesInv(c, n) && SignedInv(c, n) && HeadersInv(c, n)
  }

  lemma StepDisciplined(s: Node, ev: Event, votes: seq<Vote>)
    requires Covered(s, votes) && Disciplined(votes) && (s.height > 0 ==> TimerAhead(s))
    requires ev.Tick? ==> s.height > 0
    requires !ev.Tick? ==> ev.height >= s.tipHeight
    ensures var (s1, more) := Step(s, ev);
            Covered(s1, votes + more) && Disciplined(votes + more) && TimerAhead(s1)
  {
    if ev.Tick? {
      PollDisciplined(s, ev.now, MAX_TIMER_ITERS, votes);
    } else {
      assert votes + [] == votes;
    }
  }

  lemma LocalKeepsInv(c: Config, n: Net, n': Net, a: AccountId, ev: Event)
    requires Inv(c, n) && LocalStep(c, n, n', a, ev)
    ensures Inv(c, n')
  {
    StepDisciplined(n.nodes[a], ev, n.votes[a]);
    var more := Step(n.nodes[a], ev).1;
    forall s | s in n'.signed && Honest(c, s.account)
      ensures s.account in n'.votes &&
              exists i :: 0 <= i < |n'.votes[s.account]| && s == SignatureOf(s.account, n'.votes[s.account][i])
    {
      if s in n.signed {
        var i :| 0 <= i < |n.votes[s.account]| && s == SignatureOf(s.account, n.votes[s.account][i]);
        assert n'.votes[s.account][i] == n.votes[s.account][i];
      } else {
        var i :| 0 <= i < |more| && s == SignatureOf(a, more[i]);
        assert n'.votes[a][|n.votes[a]| + i] == more[i];
      }
    }
    HeadersKept(c, n, n');
  }

  /** A valid header stays valid as signatures and headers are added. */
  lemma HeadersKept(c: Config, n: Net, n': Net)
    requires HeadersInv(c, n) && n.signed <= n'.signed && n'.headers == n.headers
    ensures HeadersInv(c, n')
  {
  }

  /** Heights rise along every chain: no honest account approves a block that is not above its parent. */
  lemma HeightsRise(c: Config, n: Net, h: Header)
    requires Assumptions(c) && NodesInv(c, n) && SignedInv(c, n)
    requires ValidHeader(c, n.headers, n.signed, h)
    ensures h.height > n.headers[h.prev].height
  {
    var inner := InnerOf(h.prev, n.headers[h.prev].height, h.height);
    HeaderSupported(c, n, h);
    var supporters := Supporters(c, n, inner, h.height);
    var a := QuorumsShareHonest(c.ps, supporters, supporters, c.faulty, ThisEpoch);
    var votes, s := n.votes[a], Signature(a, inner, h.height);
    assert s in n.signed && Honest(c, s.account);
    var i :| 0 <= i < |votes| && s == SignatureOf(a, votes[i]);
    assert votes[i].parent < votes[i].target;
  }

  lemma PublishKeepsInv(c: Config, n: Net, n': Net, hash: Hash, h: Header)
    requires Assumptions(c) && Inv(c, n) && PublishStep(c, n, n', hash, h)
    ensures Inv(c, n')
  {
    HeightsRise(c, n, h);
    forall x | x in n'.headers && x != c.genesis
      ensures ValidHeader(c, n'.headers, n'.signed, n'.headers[x])
      ensures n'.headers[x].height > n'.headers[n'.headers[x].prev].height
    {
      var hx := n'.headers[x];
      assert ValidHeader(c, n.headers, n.signed, hx);
      assert n'.headers[hx.prev] == n.headers[hx.prev];
    }
  }

  lemma NextKeepsInv(c: Config, n: Net, n': Net)
    requires Assumptions(c) && Inv(c, n) && Next(c, n, n')
    ensures Inv(c, n')
  {
    if a, ev :| LocalStep(c, n, n', a, ev) {
      LocalKeepsInv(c, n, n', a, ev);
    } else if s :| ForgeStep(c, n, n', s) {
      HeadersKept(c, n, n');
    } else {
      var hash, h :| PublishStep(c, n, n', hash, h);
      PublishKeepsInv(c, n, n', hash, h);
    }
  }

  /** Every state of every behaviour satisfies the invariant. */
  lemma {:induction false} BehaviorInv(c: Config, ns: seq<Net>, i: nat)
    requires Assumptions(c) && Behavior(c, ns) && i < |ns|
    ensures Inv(c, ns[i])
  {
    if i > 0 {
      BehaviorInv(c, ns, i - 1);
      assert Next(c, ns[i - 1], ns[i - 1 + 1]);
      NextKeepsInv(c, ns[i - 1], ns[i]);
    }
  }

  ghost predicate Extends(n: Net, n': Net) {
    && n.signed <= n'.signed
    && (forall x :: x in n.headers ==> x in n'.headers && n'.headers[x] == n.headers[x])
  }

  lemma NextExtends(c: Config, n: Net, n': Net)
    requires Next(c, n, n')
    ensures Extends(n, n')
  {
  }

  /** Nothing signed or published is ever lost. */
  lemma {:induction false} BehaviorGrows(c: Config, ns: seq<Net>, i: nat, j: nat)
    requires Behavior(c, ns) && i <= j < |ns|
    ensures Extends(ns[i], ns[j])
    decreases j - i
  {
    if i < j {
      assert Next(c, ns[i], ns[i + 1]);
      NextExtends(c, ns[i], ns[i + 1]);
      BehaviorGrows(c, ns, i + 1, j);
      ExtendsTransitive(ns[i], ns[i + 1], ns[j]);
    }
  }

  lemma ExtendsTransitive(a: Net, b: Net, d: Net)
    requires Extends(a, b) && Extends(b, d)
    ensures Extends(a, d)
  {
  }

  // ---------------------------------------------------------------------------
  // What a quorum of endorsements excludes
  // ---------------------------------------------------------------------------

  ghost function Supporters(c: Config, n: Net, inner: ApprovalInner, target: nat): set<AccountId> {
    set a | a in Accounts(c.ps) && Signature(a, inner, target) in n.signed
  }

  /** More than two thirds of the pledge signed this approval. */
  ghost predicate Supported(c: Config, n: Net, inner: ApprovalInner, target: nat) {
    Weight(c.ps, Supporters(c, n, inner, target), ThisEpoch) > Threshold(Total(c.ps, ThisEpoch))
  }

  /** An honest account never signs two conflicting approvals. */
  lemma HonestSignsOnce(c: Config, n: Net, a: AccountId, b: Hash, h: nat, inner: ApprovalInner, target: nat)
    requires NodesInv(c, n) && SignedInv(c, n) && Honest(c, a)
    requires Signature(a, Endorsement(b), h + 1) in n.signed && Signature(a, inner, target) in n.signed
    ensures inner.Skip? ==> !(inner.parentHeight < h < target)
    ensures inner.Endorsement? && target == h + 1 ==> inner.hash == b
  {
    var votes := n.votes[a];
    var s, t := Signature(a, Endorsement(b), h + 1), Signature(a, inner, target);
    var i :| 0 <= i < |votes| && s == SignatureOf(a, votes[i]);
    var j :| 0 <= j < |votes| && t == SignatureOf(a, votes[j]);
    assert !Conflicting(votes[i], votes[j]);
  }

  /** Network safety.  Once two thirds endorsed block `b` at height `h`, no block that skips over `h` and no other
      block at height `h` can gather two thirds. */
  lemma EndorsementQuorumExcludes(c: Config, n: Net, b: Hash, h: nat, inner: ApprovalInner, target: nat)
    requires Assumptions(c) && NodesInv(c, n) && SignedInv(c, n)
    requires Supported(c, n, Endorsement(b), h + 1)
    requires || (inner.Skip? && inner.parentHeight < h < target)
             || (inner.Endorsement? && inner.hash != b && target == h + 1)
    ensures !Supported(c, n, inner, target)
  {
    if Supported(c, n, inner, target) {
      var a := QuorumsShareHonest(c.ps, Supporters(c, n, Endorsement(b), h + 1), Supporters(c, n, inner, target), c.faulty,
                                  ThisEpoch);
      HonestSignsOnce(c, n, a, b, h, inner, target);
      assert false;
    }
  }

  lemma SupportGrows(c: Config, n: Net, n': Net, inner: ApprovalInner, target: nat)
    requires Extends(n, n') && Supported(c, n, inner, target)
    ensures Supported(c, n', inner, target)
  {
    WeightMonotone(c.ps, Supporters(c, n, inner, target), Supporters(c, n', inner, target), ThisEpoch);
  }

  /** The same over whole behaviours, whichever of the two quorums would come first. */
  lemma NetworkSafety(c: Config, ns: seq<Net>, i: nat, b: Hash, h: nat, j: nat, inner: ApprovalInner, target: nat)
    requires Assumptions(c) && Behavior(c, ns) && i < |ns| && j < |ns|
    requires Supported(c, ns[i], Endorsement(b), h + 1)
    requires || (inner.Skip? && inner.parentHeight < h < target)
             || (inner.Endorsement? && inner.hash != b && target == h + 1)
    ensures !Supported(c, ns[j], inner, target)
  {
    var k := if i <= j then j else i;
    BehaviorInv(c, ns, k);
    BehaviorGrows(c, ns, i, k);
    BehaviorGrows(c, ns, j, k);
    SupportGrows(c, ns[i], ns[k], Endorsement(b), h + 1);
    EndorsementQuorumExcludes(c, ns[k], b, h, inner, target);
    if Supported(c, ns[j], inner, target) {
      SupportGrows(c, ns[j], ns[k], inner, target);
    }
  }

  /** The approvals of a valid header come from two thirds of the pledge. */
  lemma HeaderSupported(c: Config, n: Net, h: Header)
    requires Assumptions(c) && ValidHeader(c, n.headers, n.signed, h)
    ensures Supported(c, n, InnerOf(h.prev, n.headers[h.prev].height, h.height), h.height)
  {
    var inner := InnerOf(h.prev, n.headers[h.prev].height, h.height);
    var signers, supporters := Signers(c.ps, h.approvals), Supporters(c, n, inner, h.height);
    ProducibleIffQuorum(c.ps, h.approvals);
    forall a | a in signers ensures a in supporters {
      var i :| 0 <= i < |c.ps| && i < |h.approvals| && h.approvals[i].Some? && c.ps[i].account == a;
      assert h.approvals[i].value == Signature(a, inner, h.height);
      assert a in Accounts(c.ps);
    }
    WeightMonotone(c.ps, signers, supporters, ThisEpoch);
  }

  /** Whoever has the approvals of a quorum can publish a block with them: the header passes validation, under any hash
      that is still free. */
  lemma QuorumCanPublish(c: Config, n: Net, prev: Hash, height: nat, w: map<AccountId, Approval>, hash: Hash) returns (h: Header)
    requires Distinct(c.ps) && prev in n.headers && hash !in n.headers && hash != NO_BLOCK
    requires w.Keys <= Accounts(c.ps) && Trackers.Quorum(c.ps, w.Keys)
    requires forall a :: a in w ==>
               && Doomslug.Authentic(w[a]) && w[a].account == a && w[a].signature in n.signed
               && w[a].inner == InnerOf(prev, n.headers[prev].height, height) && w[a].target == height
    ensures h.prev == prev && h.height == height && Next(c, n, n.(headers := n.headers[hash := h]))
  {
    var approvals := Doomslug.Layout(c.ps, w);
    h := Header(prev, height, approvals, ExpectedDsFinal(n.headers, prev, height), ExpectedFinal(n.headers, prev, height));
    Doomslug.LayoutVerifies(c.ps, w, prev, n.headers[prev].height, height);
    Doomslug.QuorumIsProducible(c.ps, w);
    assert PublishStep(c, n, n.(headers := n.headers[hash := h]), hash, h);
  }

  // ---------------------------------------------------------------------------
  // Finality
  // ---------------------------------------------------------------------------

  function TreeOf(headers: map<Hash, Header>): BlockTree.Tree {
    map x | x in headers :: BlockTree.Block(headers[x].prev, headers[x].height)
  }

  /** Three blocks in a row at consecutive heights, the lowest of which is `f`. */
  ghost predicate Consecutive(headers: map<Hash, Header>, f: Hash, child: Hash, grandchild: Hash) {
    && f in headers && child in headers && grandchild in headers
    && headers[child].prev == f && headers[grandchild].prev == child
    && headers[child].height == headers[f].height + 1
    && headers[grandchild].height == headers[child].height + 1
  }

  lemma ConsecutiveNotGenesis(c: Config, n: Net, f: Hash, child: Hash, grandchild: Hash)
    requires Inv(c, n) && Consecutive(n.headers, f, child, grandchild)
    ensures child != c.genesis && grandchild != c.genesis
  {
  }

  lemma {:induction false} DsFinalIsLower(c: Config, n: Net, x: Hash)
    requires Inv(c, n) && x in n.headers
    ensures var f := n.headers[x].lastDsFinal;
            f != NO_BLOCK ==> f in n.headers && n.headers[f].height < n.headers[x].height
    decreases n.headers[x].height
  {
    if x != c.genesis {
      assert ValidHeader(c, n.headers, n.signed, n.headers[x]);
      DsFinalIsLower(c, n, n.headers[x].prev);
    }
  }

  /** What the field `last_final_block` of a valid header claims. */
  lemma {:induction false} FinalIsConsecutive(c: Config, n: Net, x: Hash) returns (child: Hash, grandchild: Hash)
    requires Inv(c, n) && x in n.headers && n.headers[x].lastFinal != NO_BLOCK
    ensures Consecutive(n.headers, n.headers[x].lastFinal, child, grandchild)
    decreases n.headers[x].height
  {
    var hx := n.headers[x];
    assert x != c.genesis && ValidHeader(c, n.headers, n.signed, hx);
    var hp := n.headers[hx.prev];
    if hx.height == hp.height + 1 && hp.lastDsFinal == hp.prev {
      child, grandchild := hx.prev, x;
      assert hx.prev != c.genesis && ValidHeader(c, n.headers, n.signed, hp);
      DsFinalIsLower(c, n, hp.prev);
    } else {
      child, grandchild := FinalIsConsecutive(c, n, hx.prev);
    }
  }

  /** A block on the chain of `x` whose child on that chain is at the next height. */
  ghost predicate DsFinalOn(headers: map<Hash, Header>, x: Hash, f: Hash, child: Hash)
    requires x in headers
  {
    && f in headers && child in headers && headers[child].prev == f && headers[child].height == headers[f].height + 1
    && BlockTree.IsAncestor(TreeOf(headers), child, x)
  }

  /** A block on the chain of `x` with a child and a grandchild on that chain at the next two heights. */
  ghost predicate FinalOn(headers: map<Hash, Header>, x: Hash, f: Hash, child: Hash, grandchild: Hash)
    requires x in headers
  {
    Consecutive(headers, f, child, grandchild) && BlockTree.IsAncestor(TreeOf(headers), grandchild, x)
  }

  /** What `last_ds_final_block` is for: the highest block with a child at the next height, or none if there is none. */
  ghost predicate DsFinalRight(headers: map<Hash, Header>, x: Hash)
    requires x in headers
  {
    var d := headers[x].lastDsFinal;
    && (d != NO_BLOCK ==> exists child :: DsFinalOn(headers, x, d, child))
    && (forall f, child :: DsFinalOn(headers, x, f, child) ==>
         d in headers && headers[f].height <= headers[d].height && (headers[f].height == headers[d].height ==> f == d))
  }

  /** What `last_final_block` is for: the highest block with a child and a grandchild at the next two heights, or none. */
  ghost predicate FinalRight(headers: map<Hash, Header>, x: Hash)
    requires x in headers
  {
    var d := headers[x].lastFinal;
    && (d != NO_BLOCK ==> exists child, grandchild :: FinalOn(headers, x, d, child, grandchild))
    && (forall f, child, grandchild :: FinalOn(headers, x, f, child, grandchild) ==>
         d in headers && headers[f].height <= headers[d].height && (headers[f].height == headers[d].height ==> f == d))
  }

  /** What ends at `x` or below it ends at `x` or below its parent. */
  lemma ChainStep(c: Config, n: Net, x: Hash, y: Hash)
    requires Inv(c, n) && x in n.headers && x != c.genesis && y in n.headers
    ensures BlockTree.IsAncestor(TreeOf(n.headers), y, x) <==>
            y == x || BlockTree.IsAncestor(TreeOf(n.headers), y, n.headers[x].prev)
  {
    assert ValidHeader(c, n.headers, n.signed, n.headers[x]);
  }

  lemma NothingBelowGenesis(c: Config, n: Net)
    requires Inv(c, n)
    ensures forall y :: BlockTree.IsAncestor(TreeOf(n.headers), y, c.genesis) ==> y == c.genesis
  {
  }

  lemma {:induction false} DsFinalExact(c: Config, n: Net, x: Hash)
    requires Inv(c, n) && x in n.headers
    ensures DsFinalRight(n.headers, x)
    decreases n.headers[x].height
  {
    var hs, hx := n.headers, n.headers[x];
    if x == c.genesis {
      assert forall f, child :: !DsFinalOn(hs, x, f, child) by { NothingBelowGenesis(c, n); }
    } else {
      assert ValidHeader(c, hs, n.signed, hx);
      DsFinalExact(c, n, hx.prev);
      if hx.height == hs[hx.prev].height + 1 {
        assert DsFinalOn(hs, x, hx.prev, x);
      } else if hx.lastDsFinal != NO_BLOCK {
        var child :| DsFinalOn(hs, hx.prev, hx.lastDsFinal, child);
        ChainStep(c, n, x, child);
        assert DsFinalOn(hs, x, hx.lastDsFinal, child);
      }
      forall f, child | DsFinalOn(hs, x, f, child) && child != x ensures DsFinalOn(hs, hx.prev, f, child) {
        ChainStep(c, n, x, child);
      }
      forall f, child | DsFinalOn(hs, hx.prev, f, child) ensures hs[f].height < hs[hx.prev].height {
        BlockTree.AncestorLower(TreeOf(hs), child, hx.prev);
      }
    }
  }

  /** A new final block is named exactly when `x` is the third of three blocks in a row. */
  lemma ThirdInARow(c: Config, n: Net, x: Hash)
    requires Inv(c, n) && x in n.headers && x != c.genesis
    ensures var hx := n.headers[x];
            var hp := n.headers[hx.prev];
            && (Consecutive(n.headers, hp.prev, hx.prev, x) <==>
                hx.height == hp.height + 1 && hp.lastDsFinal == hp.prev && hx.prev != c.genesis)
            && (hx.prev == c.genesis ==> hp.prev !in n.headers)
  {
    var hx := n.headers[x];
    assert ValidHeader(c, n.headers, n.signed, hx);
    var hp := n.headers[hx.prev];
    if hx.prev != c.genesis {
      assert ValidHeader(c, n.headers, n.signed, hp);
      DsFinalIsLower(c, n, hp.prev);
    }
  }

  lemma FinalStep(c: Config, n: Net, x: Hash, f: Hash, child: Hash, grandchild: Hash)
    requires Inv(c, n) && x in n.headers && x != c.genesis
    ensures n.headers[x].prev in n.headers
    ensures FinalOn(n.headers, x, f, child, grandchild) <==>
            || (grandchild == x && Consecutive(n.headers, f, child, x))
            || FinalOn(n.headers, n.headers[x].prev, f, child, grandchild)
  {
    assert ValidHeader(c, n.headers, n.signed, n.headers[x]);
    if grandchild in n.headers {
      ChainStep(c, n, x, grandchild);
    }
  }

  lemma {:induction false} FinalExact(c: Config, n: Net, x: Hash)
    requires Inv(c, n) && x in n.headers
    ensures FinalRight(n.headers, x)
    decreases n.headers[x].height
  {
    var hs, hx := n.headers, n.headers[x];
    if x == c.genesis {
      NothingBelowGenesis(c, n);
    } else {
      assert ValidHeader(c, hs, n.signed, hx);
      FinalExact(c, n, hx.prev);
      ThirdInARow(c, n, x);
      forall f, child, grandchild
        ensures FinalOn(hs, x, f, child, grandchild) <==>
                (grandchild == x && Consecutive(hs, f, child, x)) || FinalOn(hs, hx.prev, f, child, grandchild)
      {
        FinalStep(c, n, x, f, child, grandchild);
      }
      FinalMoves(c, n, x);
    }
  }

  lemma FinalMoves(c: Config, n: Net, x: Hash)
    requires Inv(c, n) && x in n.headers && x != c.genesis
    requires n.headers[x].prev in n.headers && FinalRight(n.headers, n.headers[x].prev)
    requires forall f, child, grandchild ::
               FinalOn(n.headers, x, f, child, grandchild) <==>
               || (grandchild == x && Consecutive(n.headers, f, child, x))
               || FinalOn(n.headers, n.headers[x].prev, f, child, grandchild)
    ensures FinalRight(n.headers, x)
  {
    var hs, hx := n.headers, n.headers[x];
    var hp := hs[hx.prev];
    assert ValidHeader(c, hs, n.signed, hx);
    ThirdInARow(c, n, x);
    if Consecutive(hs, hp.prev, hx.prev, x) {
      assert FinalOn(hs, x, hp.prev, hx.prev, x);
      forall f, child, grandchild | FinalOn(hs, hx.prev, f, child, grandchild) ensures hs[f].height < hs[hp.prev].height {
        BlockTree.AncestorLower(TreeOf(hs), grandchild, hx.prev);
      }
    } else if hx.lastFinal != NO_BLOCK {
      var child, grandchild :| FinalOn(hs, hx.prev, hx.lastFinal, child, grandchild);
      assert FinalOn(hs, x, hx.lastFinal, child, grandchild);
    }
  }

  /** In every state of every behaviour both finality fields of every published header are what they are for; the third of
      three blocks in a row names the first of them as final. */
  lemma FinalityFieldsExact(c: Config, ns: seq<Net>, i: nat, x: Hash)
    requires Assumptions(c) && Behavior(c, ns) && i < |ns| && x in ns[i].headers
    ensures FinalRight(ns[i].headers, x) && DsFinalRight(ns[i].headers, x)
    ensures forall f, child :: Consecutive(ns[i].headers, f, child, x) ==> ns[i].headers[x].lastFinal == f
  {
    BehaviorInv(c, ns, i);
    FinalExact(c, ns[i], x);
    DsFinalExact(c, ns[i], x);
    forall f, child | Consecutive(ns[i].headers, f, child, x) ensures ns[i].headers[x].lastFinal == f {
      ConsecutiveNotGenesis(c, ns[i], f, child, x);
      ThirdInARow(c, ns[i], x);
    }
  }

  /** A block right on top of its parent rules out steps over the parent's height, and steps of one from any other
      block at that height. */
  lemma EndorsedParent(c: Config, n: Net, hx: Header, hy: Header)
    requires Assumptions(c) && NodesInv(c, n) && SignedInv(c, n)
    requires ValidHeader(c, n.headers, n.signed, hx) && ValidHeader(c, n.headers, n.signed, hy)
    requires hx.height == n.headers[hx.prev].height + 1
    ensures var h, p := n.headers[hx.prev].height, n.headers[hy.prev].height;
            && !(p < h < hy.height)
            && (p == h && hy.height == h + 1 ==> hy.prev == hx.prev)
  {
    var h, p := n.headers[hx.prev].height, n.headers[hy.prev].height;
    HeaderSupported(c, n, hx);
    HeaderSupported(c, n, hy);
    if p < h < hy.height {
      EndorsementQuorumExcludes(c, n, hx.prev, h, Skip(p), hy.height);
    }
    if p == h && hy.height == h + 1 && hy.prev != hx.prev {
      EndorsementQuorumExcludes(c, n, hx.prev, h, Endorsement(hy.prev), h + 1);
    }
  }

  /** A final block is an ancestor of every block above it, on whatever chain. */
  lemma {:induction false} FinalInEveryChain(c: Config, n: Net, f: Hash, child: Hash, grandchild: Hash, y: Hash)
    requires Assumptions(c) && Inv(c, n)
    requires Consecutive(n.headers, f, child, grandchild) && child != c.genesis && grandchild != c.genesis
    requires y in n.headers && n.headers[y].height > n.headers[f].height
    ensures BlockTree.IsAncestor(TreeOf(n.headers), f, y)
    decreases n.headers[y].height
  {
    var prev := n.headers[y].prev;
    assert y != c.genesis;
    if n.headers[prev].height > n.headers[f].height {
      FinalInEveryChain(c, n, f, child, grandchild, prev);
    } else {
      // the step of the chain that passes the height of `f` can only be a step of one from `f`
      EndorsedParent(c, n, n.headers[child], n.headers[y]);
      EndorsedParent(c, n, n.headers[grandchild], n.headers[y]);
    }
  }

  /** Consensus safety, over every behaviour: a block that any header, at any time, names as final is an ancestor of
      every block published above it, at any time. */
  lemma FinalityTheorem(c: Config, ns: seq<Net>, i: nat, x: Hash, j: nat, y: Hash)
    requires Assumptions(c) && Behavior(c, ns) && i < |ns| && j < |ns|
    requires x in ns[i].headers && y in ns[j].headers
    requires var f := ns[i].headers[x].lastFinal; f != NO_BLOCK
    ensures var f := ns[i].headers[x].lastFinal;
            && f in ns[i].headers
            && (ns[j].headers[y].height > ns[i].headers[f].height ==>
                 f in ns[j].headers && BlockTree.IsAncestor(TreeOf(ns[j].headers), f, y))
  {
    var k := if i <= j then j else i;
    BehaviorInv(c, ns, i);
    BehaviorInv(c, ns, j);
    BehaviorInv(c, ns, k);
    BehaviorGrows(c, ns, i, k);
    BehaviorGrows(c, ns, j, k);
    var f := ns[i].headers[x].lastFinal;
    var child, grandchild := FinalIsConsecutive(c, ns[i], x);
    ConsecutiveNotGenesis(c, ns[i], f, child, grandchild);
    assert Consecutive(ns[k].headers, f, child, grandchild);
    if ns[j].headers[y].height > ns[i].headers[f].height {
      FinalInEveryChain(c, ns[k], f, child, grandchild, y);
      AncestorEarlier(c, ns[j], ns[k], f, y);
      BlockTree.AncestorLower(TreeOf(ns[j].headers), f, y);
    }
  }

  /** The ancestors of a block are the same in every state that has the block. */
  lemma {:induction false} AncestorEarlier(c: Config, n: Net, n': Net, a: Hash, x: Hash)
    requires HeadersInv(c, n) && HeadersInv(c, n') && x in n.headers
    requires Extends(n, n')
    requires BlockTree.IsAncestor(TreeOf(n'.headers), a, x)
    ensures BlockTree.IsAncestor(TreeOf(n.headers), a, x)
    decreases n.headers[x].height
  {
    if a != x {
      assert x != c.genesis;
      assert ValidHeader(c, n.headers, n.signed, n.headers[x]);
      AncestorEarlier(c, n, n', a, n.headers[x].prev);
    }
  }

  /** Any two blocks that are ever taken for final lie on one chain. */
  lemma FinalBlocksAgree(c: Config, ns: seq<Net>, i: nat, x: Hash, y: Hash)
    requires Assumptions(c) && Behavior(c, ns) && i < |ns|
    requires x in ns[i].headers && ns[i].headers[x].lastFinal != NO_BLOCK
    requires y in ns[i].headers && ns[i].headers[y].lastFinal != NO_BLOCK
    ensures var f, g := ns[i].headers[x].lastFinal, ns[i].headers[y].lastFinal;
            && f in ns[i].headers && g in ns[i].headers
            && (BlockTree.IsAncestor(TreeOf(ns[i].headers), f, g) || BlockTree.IsAncestor(TreeOf(ns[i].headers), g, f))
  {
    BehaviorInv(c, ns, i);
    LowerFinalIsAncestor(c, ns[i], x, y);
    LowerFinalIsAncestor(c, ns[i], y, x);
  }

  lemma LowerFinalIsAncestor(c: Config, n: Net, x: Hash, y: Hash)
    requires Assumptions(c) && Inv(c, n)
    requires x in n.headers && y in n.headers
    requires n.headers[x].lastFinal != NO_BLOCK && n.headers[y].lastFinal != NO_BLOCK
    ensures var f, g := n.headers[x].lastFinal, n.headers[y].lastFinal;
            && f in n.headers && g in n.headers
            && (n.headers[f].height <= n.headers[g].height ==> BlockTree.IsAncestor(TreeOf(n.headers), f, g))
  {
    var f, g := n.headers[x].lastFinal, n.headers[y].lastFinal;
    var fc, fg := FinalIsConsecutive(c, n, x);
    var gc, gg := FinalIsConsecutive(c, n, y);
    if n.headers[f].height <= n.headers[g].height {
      ConsecutiveNotGenesis(c, n, f, fc, fg);
      FinalInEveryChain(c, n, f, fc, fg, gc);
      assert f != gc;
    }
  }

  // ---------------------------------------------------------------------------
  // What a node's chain store may rely on
  // ---------------------------------------------------------------------------

  /** The published headers are a tree, and every block above one that was ever named as final descends from it: a new
      head descends from the final head, and a new final head is an ancestor of the head. */
  lemma HeadsDescendFromFinal(c: Config, ns: seq<Net>, i: nat, x: Hash, y: Hash)
    requires Assumptions(c) && Behavior(c, ns) && i < |ns| && x in ns[i].headers && y in ns[i].headers
    requires ns[i].headers[x].lastFinal != NO_BLOCK
    ensures BlockTree.IsTree(TreeOf(ns[i].headers), c.genesis)
    ensures var f := ns[i].headers[x].lastFinal;
            && f in ns[i].headers
            && (ns[i].headers[y].height > ns[i].headers[f].height ==> BlockTree.IsAncestor(TreeOf(ns[i].headers), f, y))
  {
    BehaviorInv(c, ns, i);
    FinalityTheorem(c, ns, i, x, i, y);
  }
}
