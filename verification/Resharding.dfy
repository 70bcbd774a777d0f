/**
 Splitting a shard: the gas, the burnt balance and the validator proposals of the
 parent chunk are divided over the children.
 */
module Resharding {

  type ShardUid = nat
  type AccountId = string
  type Root = nat

  datatype Proposal = Proposal(account: AccountId, amount: nat)

  datatype ChunkExtra = ChunkExtra(
    stateRoot: Root, outcomeRoot: Root, power: seq<Proposal>, pledge: seq<Proposal>,
    gasUsed: nat, gasLimit: nat, balanceBurnt: nat)

  datatype ChildResult = ChildResult(uid: ShardUid, newRoot: Root)

  /** Which child of the next epoch's layout an account belongs to. */
  type Layout = AccountId -> ShardUid

  // ---------------------------------------------------------------------------
  // Shares
  // ---------------------------------------------------------------------------

  /** The share of the child of a rank: the quotient, and one unit more for the first ones. */
  function Share(total: nat, n: nat, rank: nat): nat
    requires n > 0
  {
    total / n + if rank < total % n then 1 else 0
  }

  function SumOfShares(total: nat, n: nat, k: nat): nat
    requires n > 0
  {
    if k == 0 then 0 else SumOfShares(total, n, k - 1) + Share(total, n, k - 1)
  }

  lemma {:induction false} SumOfFirstShares(total: nat, n: nat, k: nat)
    requires n > 0
    ensures SumOfShares(total, n, k) == k * (total / n) + if k <= total % n then k else total % n
  {
    if k > 0 {
      SumOfFirstShares(total, n, k - 1);
      assert k * (total / n) == (k - 1) * (total / n) + total / n;
    }
  }

  /** The shares add up to the total and differ by at most one, the earlier ones being the greater. */
  lemma SharesConserve(total: nat, n: nat)
    requires n > 0
    ensures SumOfShares(total, n, n) == total
    ensures forall i: nat, j: nat :: Share(total, n, i) <= Share(total, n, j) + 1
    ensures forall i: nat, j: nat :: i <= j ==> Share(total, n, i) >= Share(total, n, j)
  {
    SumOfFirstShares(total, n, n);
    assert total == n * (total / n) + total % n;
  }

  // ---------------------------------------------------------------------------
  // Order of the children
  // ---------------------------------------------------------------------------

  function Uids(results: seq<ChildResult>): set<ShardUid> {
    set i | 0 <= i < |results| :: results[i].uid
  }

  ghost predicate Distinct(results: seq<ChildResult>) {
    forall i, j :: 0 <= i < j < |results| ==> results[i].uid != results[j].uid
  }

  ghost predicate Sorted(results: seq<ChildResult>) {
    forall i, j :: 0 <= i < j < |results| ==> results[i].uid <= results[j].uid
  }

  /** How many children come before. */
  function Rank(uids: set<ShardUid>, uid: ShardUid): nat {
    |set u | u in uids && u < uid|
  }

  function Insert(r: ChildResult, s: seq<ChildResult>): (t: seq<ChildResult>)
    ensures multiset(t) == multiset{r} + multiset(s)
  {
    if s == [] || r.uid <= s[0].uid then [r] + s
    else
      assert s == [s[0]] + s[1..];
      [s[0]] + Insert(r, s[1..])
  }

  /** The results in the order of their shards. */
  function SortByUid(s: seq<ChildResult>): (t: seq<ChildResult>)
    ensures multiset(t) == multiset(s)
  {
    if s == [] then []
    else
      assert s == [s[0]] + s[1..];
      Insert(s[0], SortByUid(s[1..]))
  }

  lemma {:induction false} InsertSorted(r: ChildResult, s: seq<ChildResult>)
    requires Sorted(s)
    ensures Sorted(Insert(r, s))
  {
    if s != [] && r.uid > s[0].uid {
      InsertSorted(r, s[1..]);
      var t := Insert(r, s[1..]);
      forall i | 0 <= i < |t| ensures s[0].uid <= t[i].uid {
        assert t[i] in multiset(t);
        assert t[i] == r || t[i] in s[1..];
      }
    }
  }

  lemma {:induction false} SortSorted(s: seq<ChildResult>)
    ensures Sorted(SortByUid(s))
  {
    if s != [] {
      SortSorted(s[1..]);
      InsertSorted(s[0], SortByUid(s[1..]));
    }
  }

  lemma UidsOf(s: seq<ChildResult>, t: seq<ChildResult>)
    requires multiset(s) == multiset(t)
    ensures Uids(s) == Uids(t)
  {
    forall i | 0 <= i < |s| ensures s[i].uid in Uids(t) {
      assert s[i] in multiset(s);
      assert s[i] in t;
    }
    forall i | 0 <= i < |t| ensures t[i].uid in Uids(s) {
      assert t[i] in multiset(t);
      assert t[i] in s;
    }
  }

  lemma {:induction false} InsertDistinct(r: ChildResult, s: seq<ChildResult>)
    requires Distinct(s) && r.uid !in Uids(s)
    ensures Distinct(Insert(r, s))
  {
    if s != [] && r.uid > s[0].uid {
      assert forall i :: 0 <= i < |s[1..]| ==> s[1..][i] == s[i + 1];
      InsertDistinct(r, s[1..]);
      var t := Insert(r, s[1..]);
      forall i | 0 <= i < |t| ensures s[0].uid != t[i].uid {
        assert t[i] in multiset(t);
        assert t[i] == r || t[i] in s[1..];
      }
    }
  }

  lemma {:induction false} SortDistinct(s: seq<ChildResult>)
    requires Distinct(s)
    ensures Distinct(SortByUid(s))
  {
    if s != [] {
      SortDistinct(s[1..]);
      UidsOf(s[1..], SortByUid(s[1..]));
      InsertDistinct(s[0], SortByUid(s[1..]));
    }
  }

  lemma UidsLast(s: seq<ChildResult>)
    requires Distinct(s) && s != []
    ensures var init, last := s[..|s| - 1], s[|s| - 1];
            Distinct(init) && Uids(s) == Uids(init) + {last.uid} && last.uid !in Uids(init)
  {
    var init := s[..|s| - 1];
    assert forall i :: 0 <= i < |init| ==> init[i] == s[i];
    forall i | 0 <= i < |init| ensures s[i].uid in Uids(init) {
      assert init[i].uid in Uids(init);
    }
  }

  lemma {:induction false} UidsCount(s: seq<ChildResult>)
    requires Distinct(s)
    ensures |Uids(s)| == |s|
  {
    if s != [] {
      UidsLast(s);
      UidsCount(s[..|s| - 1]);
    }
  }

  /** In sorted order, a child stands at its rank. */
  lemma RankIsPosition(s: seq<ChildResult>, i: nat)
    requires Sorted(s) && Distinct(s) && i < |s|
    ensures Rank(Uids(s), s[i].uid) == i
  {
    assert (set u | u in Uids(s) && u < s[i].uid) == Uids(s[..i]);
    UidsCount(s[..i]);
  }

  // ---------------------------------------------------------------------------
  // What each child gets
  // ---------------------------------------------------------------------------

  /** The proposals of the accounts of one child, in their order. */
  function Only(ps: seq<Proposal>, layout: Layout, uid: ShardUid): seq<Proposal> {
    if ps == [] then []
    else
      var init, last := Only(ps[..|ps| - 1], layout, uid), ps[|ps| - 1];
      if layout(last.account) == uid then init + [last] else init
  }

  function ChildExtra(parent: ChunkExtra, layout: Layout, uids: set<ShardUid>, n: nat, r: ChildResult): ChunkExtra
    requires n > 0
  {
    ChunkExtra(
      r.newRoot, parent.outcomeRoot, Only(parent.power, layout, r.uid), Only(parent.pledge, layout, r.uid),
      Share(parent.gasUsed, n, Rank(uids, r.uid)), parent.gasLimit, Share(parent.balanceBurnt, n, Rank(uids, r.uid)))
  }

  function TotalGas(extras: seq<ChunkExtra>): nat {
    if extras == [] then 0 else extras[0].gasUsed + TotalGas(extras[1..])
  }

  function TotalBurnt(extras: seq<ChunkExtra>): nat {
    if extras == [] then 0 else extras[0].balanceBurnt + TotalBurnt(extras[1..])
  }

  function ChildExtras(parent: ChunkExtra, layout: Layout, uids: set<ShardUid>, n: nat, rs: seq<ChildResult>): seq<ChunkExtra>
    requires n > 0
  {
    if rs == [] then []
    else [ChildExtra(parent, layout, uids, n, rs[0])] + ChildExtras(parent, layout, uids, n, rs[1..])
  }

  lemma {:induction false} TotalsOfInsert(
    parent: ChunkExtra, layout: Layout, uids: set<ShardUid>, n: nat, r: ChildResult, s: seq<ChildResult>)
    requires n > 0
    ensures var a, b := ChildExtras(parent, layout, uids, n, Insert(r, s)), ChildExtras(parent, layout, uids, n, [r] + s);
            TotalGas(a) == TotalGas(b) && TotalBurnt(a) == TotalBurnt(b)
  {
    if s != [] && r.uid > s[0].uid {
      TotalsOfInsert(parent, layout, uids, n, r, s[1..]);
      assert ([r] + s)[1..] == s && ([r] + s[1..])[1..] == s[1..];
      assert Insert(r, s)[1..] == Insert(r, s[1..]);
    }
  }

  lemma {:induction false} TotalsOfSort(parent: ChunkExtra, layout: Layout, uids: set<ShardUid>, n: nat, s: seq<ChildResult>)
    requires n > 0
    ensures var a, b := ChildExtras(parent, layout, uids, n, SortByUid(s)), ChildExtras(parent, layout, uids, n, s);
            TotalGas(a) == TotalGas(b) && TotalBurnt(a) == TotalBurnt(b)
  {
    if s != [] {
      TotalsOfSort(parent, layout, uids, n, s[1..]);
      var t := SortByUid(s[1..]);
      TotalsOfInsert(parent, layout, uids, n, s[0], t);
      assert ([s[0]] + t)[1..] == t;
    }
  }

  lemma {:induction false} TotalsFrom(parent: ChunkExtra, layout: Layout, uids: set<ShardUid>, n: nat, s: seq<ChildResult>, i: nat)
    requires n > 0 && i <= |s| && (forall j :: 0 <= j < |s| ==> Rank(uids, s[j].uid) == j)
    ensures var rest := ChildExtras(parent, layout, uids, n, s[i..]);
            && SumOfShares(parent.gasUsed, n, i) + TotalGas(rest) == SumOfShares(parent.gasUsed, n, |s|)
            && SumOfShares(parent.balanceBurnt, n, i) + TotalBurnt(rest) == SumOfShares(parent.balanceBurnt, n, |s|)
    decreases |s| - i
  {
    if i < |s| {
      TotalsFrom(parent, layout, uids, n, s, i + 1);
      assert s[i..][1..] == s[i + 1..];
    }
  }

  /** Whatever the order of the results, nothing of the gas or the burnt balance is lost or made up. */
  lemma {:induction false} SplitConserves(parent: ChunkExtra, layout: Layout, results: seq<ChildResult>)
    requires Distinct(results) && results != []
    ensures var extras := ChildExtras(parent, layout, Uids(results), |results|, results);
            TotalGas(extras) == parent.gasUsed && TotalBurnt(extras) == parent.balanceBurnt
  {
    var sorted, n, uids := SortByUid(results), |results|, Uids(results);
    assert |multiset(sorted)| == |multiset(results)|;
    SortSorted(results);
    SortDistinct(results);
    UidsOf(results, sorted);
    forall j | 0 <= j < |sorted| ensures Rank(uids, sorted[j].uid) == j {
      RankIsPosition(sorted, j);
    }
    TotalsOfSort(parent, layout, uids, n, results);
    TotalsFrom(parent, layout, uids, n, sorted, 0);
    assert sorted[0..] == sorted;
    SharesConserve(parent.gasUsed, n);
    SharesConserve(parent.balanceBurnt, n);
  }

  /** All that the children of a list get, together. */
  function Gathered(ps: seq<Proposal>, layout: Layout, results: seq<ChildResult>): multiset<Proposal> {
    if results == [] then multiset{}
    else multiset(Only(ps, layout, results[0].uid)) + Gathered(ps, layout, results[1..])
  }

  /** What is listed for a child stays in its order. */
  lemma {:induction false} OnlyInOrder(a: seq<Proposal>, b: seq<Proposal>, layout: Layout, uid: ShardUid)
    ensures Only(a + b, layout, uid) == Only(a, layout, uid) + Only(b, layout, uid)
    ensures forall p :: Only([p], layout, uid) == if layout(p.account) == uid then [p] else []
    decreases |b|
  {
    if b == [] {
      assert a + b == a;
    } else {
      var init, last := b[..|b| - 1], b[|b| - 1];
      assert (a + b)[..|a + b| - 1] == a + init;
      OnlyInOrder(a, init, layout, uid);
    }
  }

  lemma {:induction false} OnlyExact(ps: seq<Proposal>, layout: Layout, uid: ShardUid, p: Proposal)
    ensures multiset(Only(ps, layout, uid))[p] == if layout(p.account) == uid then multiset(ps)[p] else 0
  {
    if ps != [] {
      OnlyExact(ps[..|ps| - 1], layout, uid, p);
      assert ps == ps[..|ps| - 1] + [ps[|ps| - 1]];
    }
  }

  /** Each proposal lands, as often as it was made, in the child of its account and in no other. */
  lemma {:induction false} ProposalsConserved(ps: seq<Proposal>, layout: Layout, results: seq<ChildResult>, p: Proposal)
    requires Distinct(results)
    ensures Gathered(ps, layout, results)[p] == if layout(p.account) in Uids(results) then multiset(ps)[p] else 0
    ensures forall i :: 0 <= i < |results| ==>
              (p in Only(ps, layout, results[i].uid) <==> p in ps && layout(p.account) == results[i].uid)
  {
    forall i | 0 <= i < |results|
      ensures p in Only(ps, layout, results[i].uid) <==> p in ps && layout(p.account) == results[i].uid
    {
      OnlyExact(ps, layout, results[i].uid, p);
      assert p in ps <==> p in multiset(ps);
      assert p in Only(ps, layout, results[i].uid) <==> p in multiset(Only(ps, layout, results[i].uid));
    }
    if results != [] {
      var rest := results[1..];
      OnlyExact(ps, layout, results[0].uid, p);
      ProposalsConserved(ps, layout, rest, p);
      assert forall i :: 0 <= i < |rest| ==> rest[i] == results[i + 1];
      assert Uids(results) == {results[0].uid} + Uids(rest) by {
        forall i | 0 < i < |results| ensures results[i].uid in Uids(rest) {
          assert results[i] == rest[i - 1];
        }
      }
    }
  }

  // ---------------------------------------------------------------------------
  // The split
  // ---------------------------------------------------------------------------

  /** The proposals gathered by child; children without proposals are absent. */
  ghost predicate Groups(groups: map<ShardUid, seq<Proposal>>, ps: seq<Proposal>, layout: Layout) {
    forall u :: Group(groups, u) == Only(ps, layout, u)
  }

  function Group(groups: map<ShardUid, seq<Proposal>>, u: ShardUid): seq<Proposal> {
    if u in groups then groups[u] else []
  }

  /** The groups of the results from `i` on are still there. */
  ghost predicate GroupedFrom(groups: map<ShardUid, seq<Proposal>>, ps: seq<Proposal>, layout: Layout,
                              rs: seq<ChildResult>, i: nat)
  {
    forall j :: i <= j < |rs| ==> Group(groups, rs[j].uid) == Only(ps, layout, rs[j].uid)
  }

  lemma GroupTaken(groups: map<ShardUid, seq<Proposal>>, ps: seq<Proposal>, layout: Layout, rs: seq<ChildResult>, i: nat)
    requires Distinct(rs) && i < |rs| && GroupedFrom(groups, ps, layout, rs, i)
    ensures GroupedFrom(groups - {rs[i].uid}, ps, layout, rs, i + 1)
  {
  }

  method GroupByShard(ps: seq<Proposal>, layout: Layout) returns (groups: map<ShardUid, seq<Proposal>>)
    ensures Groups(groups, ps, layout)
  {
    groups := map[];
    for i := 0 to |ps|
      invariant Groups(groups, ps[..i], layout)
    {
      var u := layout(ps[i].account);
      assert ps[..i + 1][..i] == ps[..i];
      groups := groups[u := Group(groups, u) + [ps[i]]];
    }
    assert ps[..|ps|] == ps;
  }

  /** The chunk extras after those of the listed children are saved. */
  function Saved(extras: map<ShardUid, ChunkExtra>, parent: ChunkExtra, layout: Layout, uids: set<ShardUid>, n: nat,
                 rs: seq<ChildResult>): map<ShardUid, ChunkExtra>
    requires n > 0
  {
    if rs == [] then extras
    else
      var init, last := rs[..|rs| - 1], rs[|rs| - 1];
      Saved(extras, parent, layout, uids, n, init)[last.uid := ChildExtra(parent, layout, uids, n, last)]
  }

  lemma {:induction false} SavedKeys(extras: map<ShardUid, ChunkExtra>, parent: ChunkExtra, layout: Layout,
                                     uids: set<ShardUid>, n: nat, rs: seq<ChildResult>)
    requires n > 0 && Distinct(rs)
    ensures Saved(extras, parent, layout, uids, n, rs).Keys == extras.Keys + Uids(rs)
  {
    if rs != [] {
      UidsLast(rs);
      SavedKeys(extras, parent, layout, uids, n, rs[..|rs| - 1]);
    }
  }

  /** The extra of each listed child is the one computed for it. */
  lemma {:induction false} SavedChild(extras: map<ShardUid, ChunkExtra>, parent: ChunkExtra, layout: Layout,
                                      uids: set<ShardUid>, n: nat, rs: seq<ChildResult>, j: nat)
    requires n > 0 && Distinct(rs) && j < |rs|
    ensures var saved := Saved(extras, parent, layout, uids, n, rs);
            rs[j].uid in saved && saved[rs[j].uid] == ChildExtra(parent, layout, uids, n, rs[j])
  {
    if j < |rs| - 1 {
      var init := rs[..|rs| - 1];
      assert init[j] == rs[j] && rs[j].uid != rs[|rs| - 1].uid;
      UidsLast(rs);
      SavedChild(extras, parent, layout, uids, n, init, j);
    }
  }

  /** All other extras stay as they are. */
  lemma {:induction false} SavedOther(extras: map<ShardUid, ChunkExtra>, parent: ChunkExtra, layout: Layout,
                                      uids: set<ShardUid>, n: nat, rs: seq<ChildResult>, u: ShardUid)
    requires n > 0 && Distinct(rs) && u in extras && u !in Uids(rs)
    ensures var saved := Saved(extras, parent, layout, uids, n, rs); u in saved && saved[u] == extras[u]
  {
    if rs != [] {
      UidsLast(rs);
      SavedOther(extras, parent, layout, uids, n, rs[..|rs| - 1], u);
    }
  }

  ghost predicate SavedAll(extras: map<ShardUid, ChunkExtra>, parent: ChunkExtra, layout: Layout, rs: seq<ChildResult>,
                           saved: map<ShardUid, ChunkExtra>)
    requires rs != []
  {
    && saved.Keys == extras.Keys + Uids(rs)
    && (forall r :: r in rs ==> r.uid in saved && saved[r.uid] == ChildExtra(parent, layout, Uids(rs), |rs|, r))
    && (forall u :: u in extras && u !in Uids(rs) ==> u in saved && saved[u] == extras[u])
  }

  lemma SavedExact(extras: map<ShardUid, ChunkExtra>, parent: ChunkExtra, layout: Layout, rs: seq<ChildResult>)
    requires rs != [] && Distinct(rs)
    ensures SavedAll(extras, parent, layout, rs, Saved(extras, parent, layout, Uids(rs), |rs|, rs))
  {
    SavedKeys(extras, parent, layout, Uids(rs), |rs|, rs);
    forall j | 0 <= j < |rs|
      ensures var saved := Saved(extras, parent, layout, Uids(rs), |rs|, rs);
              rs[j].uid in saved && saved[rs[j].uid] == ChildExtra(parent, layout, Uids(rs), |rs|, rs[j])
    {
      SavedChild(extras, parent, layout, Uids(rs), |rs|, rs, j);
    }
    forall u | u in extras && u !in Uids(rs)
      ensures var saved := Saved(extras, parent, layout, Uids(rs), |rs|, rs); u in saved && saved[u] == extras[u]
    {
      SavedOther(extras, parent, layout, Uids(rs), |rs|, rs, u);
    }
  }

  lemma SavedStep(extras: map<ShardUid, ChunkExtra>, parent: ChunkExtra, layout: Layout, uids: set<ShardUid>,
                  n: nat, rs: seq<ChildResult>, i: nat)
    requires n > 0 && i < |rs|
    ensures Saved(extras, parent, layout, uids, n, rs[..i + 1])
         == Saved(extras, parent, layout, uids, n, rs[..i])[rs[i].uid := ChildExtra(parent, layout, uids, n, rs[i])]
  {
    assert rs[..i + 1][..i] == rs[..i];
  }

  /** What is left of the remainder for the children from a rank on. */
  function Remainder(total: nat, n: nat, rank: nat): nat
    requires n > 0
  {
    if rank <= total % n then total % n - rank else 0
  }

  method TakeShare(split: nat, left: nat, ghost total: nat, ghost n: nat, ghost rank: nat) returns (share: nat, rest: nat)
    requires n > 0 && split == total / n && left == Remainder(total, n, rank)
    ensures share == Share(total, n, rank) && rest == Remainder(total, n, rank + 1)
  {
    share, rest := split, left;
    if left > 0 {
      share, rest := split + 1, left - 1;
    }
  }

  /** The chunk extras of one block, by shard. */
  class ChainUpdate {
    var extras: map<ShardUid, ChunkExtra>

    /** Fails where the source returns an error or panics. */
    method ProcessReshardingResults(shard: ShardUid, layout: Layout, children: nat, results: seq<ChildResult>)
      returns (ok: bool)
      requires Distinct(results)
      modifies this
      ensures ok <==> shard in old(extras) && 0 < children == |results|
      ensures !ok ==> extras == old(extras)
      ensures ok ==>
                && extras.Keys == old(extras).Keys + Uids(results)
                && (forall r :: r in results ==>
                     && r.uid in extras
                     && var parent, e, rank := old(extras)[shard], extras[r.uid], Rank(Uids(results), r.uid);
                        && e.stateRoot == r.newRoot && e.outcomeRoot == parent.outcomeRoot && e.gasLimit == parent.gasLimit
                        && e.power == Only(parent.power, layout, r.uid) && e.pledge == Only(parent.pledge, layout, r.uid)
                        && e.gasUsed == Share(parent.gasUsed, children, rank)
                        && e.balanceBurnt == Share(parent.balanceBurnt, children, rank))
                && (forall u :: u in old(extras) && u !in Uids(results) ==> extras[u] == old(extras)[u])
    {
      var sorted := SortByUid(results);
      assert |multiset(sorted)| == |multiset(results)|;
      if shard !in extras || children == 0 || children != |sorted| {
        return false;
      }
      SortSorted(results);
      SortDistinct(results);
      UidsOf(results, sorted);
      SavedExact(extras, extras[shard], layout, sorted);
      SaveChildren(extras[shard], layout, sorted);
      forall r | r in results ensures r in sorted {
        assert r in multiset(results);
      }
      ok := true;
    }

    /** The loop over the sorted results. */
    method SaveChildren(parent: ChunkExtra, layout: Layout, sorted: seq<ChildResult>)
      requires sorted != [] && Sorted(sorted) && Distinct(sorted)
      modifies this
      ensures extras == Saved(old(extras), parent, layout, Uids(sorted), |sorted|, sorted)
    {
      var power := GroupByShard(parent.power, layout);
      var pledge := GroupByShard(parent.pledge, layout);
      var n := |sorted|;
      var gasLeft: nat, gasSplit: nat := parent.gasUsed % n, parent.gasUsed / n;
      var burntLeft: nat, burntSplit: nat := parent.balanceBurnt % n, parent.balanceBurnt / n;
      var gasSum, burntSum := 0, 0;
      for i := 0 to n
        invariant gasLeft == Remainder(parent.gasUsed, n, i) && burntLeft == Remainder(parent.balanceBurnt, n, i)
        invariant gasSum == SumOfShares(parent.gasUsed, n, i) && burntSum == SumOfShares(parent.balanceBurnt, n, i)
        invariant GroupedFrom(power, parent.power, layout, sorted, i) && GroupedFrom(pledge, parent.pledge, layout, sorted, i)
        invariant extras == Saved(old(extras), parent, layout, Uids(sorted), n, sorted[..i])
      {
        var r := sorted[i];
        var gas, burnt;
        gas, gasLeft := TakeShare(gasSplit, gasLeft, parent.gasUsed, n, i);
        burnt, burntLeft := TakeShare(burntSplit, burntLeft, parent.balanceBurnt, n, i);
        var extra := ChunkExtra(r.newRoot, parent.outcomeRoot, Group(power, r.uid), Group(pledge, r.uid),
                                gas, parent.gasLimit, burnt);
        assert extra == ChildExtra(parent, layout, Uids(sorted), n, r) by {
          RankIsPosition(sorted, i);
        }
        GroupTaken(power, parent.power, layout, sorted, i);
        GroupTaken(pledge, parent.pledge, layout, sorted, i);
        power, pledge := power - {r.uid}, pledge - {r.uid};
        gasSum, burntSum := gasSum + gas, burntSum + burnt;
        SavedStep(old(extras), parent, layout, Uids(sorted), n, sorted, i);
        extras := extras[r.uid := extra];
      }
      assert sorted[..n] == sorted;
      SharesConserve(parent.gasUsed, n);
      SharesConserve(parent.balanceBurnt, n);
      assert gasSum == parent.gasUsed;
      assert burntSum == parent.balanceBurnt;
    }
  }
}
