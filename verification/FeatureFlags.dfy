/**
 Consistency of the nightly feature flag over the crates of a workspace: a
 depth-first walk finds the transitive dependencies of each crate, and a repair
 loop flags crates until no crate between two flagged ones is left out.
 */
module FeatureFlags {

  type Name = string

  /** Crates, in workspace order, and the workspace crates each depends on. */
  datatype Graph = Graph(crates: seq<Name>, deps: map<Name, seq<Name>>)

  ghost predicate IsGraph(g: Graph) {
    && (forall c :: c in g.deps <==> c in g.crates)
    && (forall c, d :: c in g.deps && d in g.deps[c] ==> d in g.deps)
  }

  // ---------------------------------------------------------------------------
  // Paths
  // ---------------------------------------------------------------------------

  ghost predicate Edge(g: Graph, a: Name, b: Name) {
    a in g.deps && b in g.deps[a]
  }

  ghost predicate IsPath(g: Graph, p: seq<Name>) {
    |p| >= 2 && forall i :: 0 < i < |p| ==> Edge(g, p[i - 1], p[i])
  }

  ghost predicate Connects(g: Graph, p: seq<Name>, a: Name, b: Name) {
    IsPath(g, p) && p[0] == a && p[|p| - 1] == b
  }

  /** `b` is a transitive dependency of `a`. */
  ghost predicate Reaches(g: Graph, a: Name, b: Name) {
    exists p :: Connects(g, p, a, b)
  }

  lemma EdgeReaches(g: Graph, a: Name, b: Name)
    requires Edge(g, a, b)
    ensures Reaches(g, a, b)
  {
    assert Connects(g, [a, b], a, b);
  }

  lemma ReachesTransitive(g: Graph, a: Name, b: Name, c: Name)
    requires Reaches(g, a, b) && Reaches(g, b, c)
    ensures Reaches(g, a, c)
  {
    var p :| Connects(g, p, a, b);
    var q :| Connects(g, q, b, c);
    assert Connects(g, p + q[1..], a, c);
  }

  /** From every place on a path but the last, the end is reached. */
  lemma PathSuffix(g: Graph, p: seq<Name>, i: nat)
    requires IsPath(g, p) && i < |p| - 1
    ensures Reaches(g, p[i], p[|p| - 1])
  {
    assert Connects(g, p[i..], p[i], p[|p| - 1]);
  }

  // ---------------------------------------------------------------------------
  // The walk
  // ---------------------------------------------------------------------------

  ghost predicate NoRepeats(s: seq<Name>) {
    forall i, j :: 0 <= i < j < |s| ==> s[i] != s[j]
  }

  function Elements(s: seq<Name>): set<Name> {
    set x | x in s
  }

  lemma ElementsAppend(s: seq<Name>, x: Name)
    ensures Elements(s + [x]) == Elements(s) + {x}
  {
    assert forall y :: y in s + [x] <==> y in s || y == x;
  }

  /** All dependencies of `from` are in `to`. */
  ghost predicate DepsWithin(g: Graph, from: set<Name>, to: set<Name>) {
    forall c, d :: c in from && Edge(g, c, d) ==> d in to
  }

  /** A set that holds the dependencies of `a` and of its own members holds everything `a` reaches. */
  lemma {:induction false} ClosedHoldsPath(g: Graph, a: Name, s: set<Name>, p: seq<Name>, i: nat)
    requires IsPath(g, p) && p[0] == a && DepsWithin(g, s + {a}, s) && 0 < i < |p|
    ensures p[i] in s
  {
    if i > 1 {
      ClosedHoldsPath(g, a, s, p, i - 1);
    }
    assert Edge(g, p[i - 1], p[i]);
  }

  class Walk {
    const g: Graph
    var visited: set<Name>
    var result: seq<Name>

    constructor (g: Graph)
      ensures this.g == g && visited == {} && result == []
    {
      this.g := g;
      visited, result := {}, [];
    }

    /** Every crate visited is in the result, once, except the one whose turn it is. */
    ghost predicate Valid(pending: set<Name>)
      reads this
    {
      && IsGraph(g) && visited <= g.deps.Keys
      && NoRepeats(result) && Elements(result) == visited - pending && pending <= visited
    }

    /** Adds `crate`, already marked, and all that is reached from it through unmarked crates. */
    method Visit(crate: Name)
      requires Valid({crate}) && crate in g.deps
      modifies this
      ensures Valid({}) && old(visited) <= visited
      ensures forall x :: x in visited - old(visited) ==> Reaches(g, crate, x)
      ensures DepsWithin(g, visited - old(visited) + {crate}, visited)
      decreases g.deps.Keys - visited
    {
      assert crate !in Elements(result);
      ElementsAppend(result, crate);
      result := result + [crate];
      VisitAll(crate, g.deps[crate]);
    }

    /** The loop over the dependencies of a crate. */
    method VisitAll(crate: Name, deps: seq<Name>)
      requires Valid({}) && crate in g.deps && deps == g.deps[crate]
      modifies this
      ensures Valid({}) && old(visited) <= visited
      ensures forall x :: x in visited - old(visited) ==> Reaches(g, crate, x)
      ensures DepsWithin(g, visited - old(visited) + {crate}, visited)
      decreases g.deps.Keys - visited, 0
    {
      for i := 0 to |deps|
        invariant Valid({}) && old(visited) <= visited
        invariant forall x :: x in visited - old(visited) ==> Reaches(g, crate, x)
        invariant DepsWithin(g, visited - old(visited), visited)
        invariant forall j :: 0 <= j < i ==> deps[j] in visited
      {
        var dep := deps[i];
        assert Edge(g, crate, dep);
        if dep !in visited {
          visited := visited + {dep};
          ghost var before := visited;
          assert visited - {dep} == before - {dep};
          Visit(dep);
          EdgeReaches(g, crate, dep);
          forall x | x in visited - before ensures Reaches(g, crate, x) {
            ReachesTransitive(g, crate, dep, x);
          }
        }
      }
    }

    /** The transitive dependencies of a crate: exactly the crates it reaches, each once. */
    method TransitiveDeps(crate: Name) returns (transitive: seq<Name>)
      requires IsGraph(g) && crate in g.deps && visited == {} && result == []
      modifies this
      ensures NoRepeats(transitive)
      ensures forall x :: x in transitive <==> Reaches(g, crate, x)
    {
      VisitAll(crate, g.deps[crate]);
      transitive := result;
      forall x | Reaches(g, crate, x) ensures x in transitive {
        var p :| Connects(g, p, crate, x);
        ClosedHoldsPath(g, crate, visited, p, |p| - 1);
        assert x in Elements(result);
      }
      forall x | x in transitive ensures Reaches(g, crate, x) {
        assert x in Elements(result);
      }
    }
  }

  // ---------------------------------------------------------------------------
  // The repair loop
  // ---------------------------------------------------------------------------

  /** The crate has a flagged transitive dependency and a flagged direct dependent. */
  ghost predicate Needed(g: Graph, flags: set<Name>, c: Name) {
    && (exists d :: d in flags && Reaches(g, c, d))
    && (exists o :: o in flags && Edge(g, o, c))
  }

  /** Check 4. */
  ghost predicate Closed(g: Graph, flags: set<Name>) {
    forall c :: c in g.deps && Needed(g, flags, c) ==> c in flags
  }

  ghost predicate Between(g: Graph, flags: set<Name>, c: Name) {
    exists o, d :: o in flags && d in flags && Reaches(g, o, c) && Reaches(g, c, d)
  }

  /** The flags and every crate on a path between two flagged crates. */
  ghost function Closure(g: Graph, flags: set<Name>): set<Name> {
    flags + set c | c in g.deps && Between(g, flags, c)
  }

  lemma BetweenIntro(g: Graph, flags: set<Name>, o: Name, c: Name, d: Name)
    requires o in flags && d in flags && Reaches(g, o, c) && Reaches(g, c, d)
    ensures Between(g, flags, c)
  {
  }

  /** A crate between two members of the closure is between two flagged crates. */
  lemma ClosureStable(g: Graph, flags: set<Name>, o: Name, c: Name, d: Name)
    requires o in Closure(g, flags) && d in Closure(g, flags) && Reaches(g, o, c) && Reaches(g, c, d)
    ensures Between(g, flags, c)
  {
    var o', d' := o, d;
    if o !in flags {
      var a, b :| a in flags && b in flags && Reaches(g, a, o) && Reaches(g, o, b);
      ReachesTransitive(g, a, o, c);
      o' := a;
    }
    if d !in flags {
      var a, b :| a in flags && b in flags && Reaches(g, a, d) && Reaches(g, d, b);
      ReachesTransitive(g, c, d, b);
      d' := b;
    }
    BetweenIntro(g, flags, o', c, d');
  }

  lemma ClosureIsClosed(g: Graph, flags: set<Name>)
    ensures flags <= Closure(g, flags) && Closed(g, Closure(g, flags))
  {
    var closure := Closure(g, flags);
    forall c | c in g.deps && Needed(g, closure, c) ensures c in closure {
      var d :| d in closure && Reaches(g, c, d);
      var o :| o in closure && Edge(g, o, c);
      EdgeReaches(g, o, c);
      ClosureStable(g, flags, o, c, d);
    }
  }

  /** Along a path between flagged crates, check 4 forces every crate to be flagged. */
  lemma {:induction false} PathFlagged(g: Graph, flags: set<Name>, p: seq<Name>, i: nat)
    requires IsGraph(g) && Closed(g, flags) && IsPath(g, p) && p[0] in flags && p[|p| - 1] in flags && i < |p|
    ensures p[i] in flags
  {
    if 0 < i < |p| - 1 {
      PathFlagged(g, flags, p, i - 1);
      assert Edge(g, p[i - 1], p[i]);
      PathSuffix(g, p, i);
      assert Needed(g, flags, p[i]);
    }
  }

  /** The closure is the least set that passes check 4. */
  lemma ClosureIsLeast(g: Graph, flags: set<Name>, closed: set<Name>)
    requires IsGraph(g) && flags <= closed && Closed(g, closed)
    ensures Closure(g, flags) <= closed
  {
    forall c | c in g.deps && Between(g, flags, c) ensures c in closed {
      var o, d :| o in flags && d in flags && Reaches(g, o, c) && Reaches(g, c, d);
      var p :| Connects(g, p, o, c);
      var q :| Connects(g, q, c, d);
      var path := p + q[1..];
      assert Connects(g, path, o, d) && path[|p| - 1] == c;
      PathFlagged(g, closed, path, |p| - 1);
    }
  }

  class Workspace {
    const g: Graph
    var transitive: map<Name, seq<Name>>
    var nightly: set<Name>

    constructor (g: Graph, nightly: set<Name>)
      requires IsGraph(g)
      ensures this.g == g && this.nightly == nightly && transitive == map[]
    {
      this.g := g;
      this.nightly, transitive := nightly, map[];
    }

    ghost predicate Built()
      reads this
    {
      && IsGraph(g)
      && (forall c :: c in g.deps ==> c in transitive && forall x :: x in transitive[c] <==> Reaches(g, c, x))
    }

    method BuildTransitiveDeps()
      requires IsGraph(g)
      modifies this`transitive
      ensures Built() && forall c :: c in g.deps ==> NoRepeats(transitive[c])
    {
      for i := 0 to |g.crates|
        invariant forall j :: 0 <= j < i ==> g.crates[j] in transitive && NoRepeats(transitive[g.crates[j]])
        invariant forall j, x :: 0 <= j < i ==> (x in transitive[g.crates[j]] <==> Reaches(g, g.crates[j], x))
      {
        var walk := new Walk(g);
        var deps := walk.TransitiveDeps(g.crates[i]);
        transitive := transitive[g.crates[i] := deps];
      }
    }

    /** Flags crates until a pass changes nothing. */
    method Repair()
      requires Built() && nightly <= g.deps.Keys
      modifies this`nightly
      ensures nightly == Closure(g, old(nightly))
    {
      ClosureIsClosed(g, nightly);
      var fixed := true;
      while fixed
        invariant old(nightly) <= nightly <= Closure(g, old(nightly))
        invariant !fixed ==> Closed(g, nightly)
        decreases g.deps.Keys - nightly, fixed
      {
        fixed := Pass(Closure(g, old(nightly)));
      }
      ClosureIsLeast(g, old(nightly), nightly);
    }

    /** One pass over all crates, in place. */
    method Pass(ghost bound: set<Name>) returns (fixed: bool)
      requires Built() && nightly <= bound && Closed(g, bound)
      modifies this`nightly
      ensures old(nightly) <= nightly <= bound
      ensures fixed ==> g.deps.Keys - nightly < g.deps.Keys - old(nightly)
      ensures !fixed ==> nightly == old(nightly) && Closed(g, nightly)
    {
      fixed := false;
      for i := 0 to |g.crates|
        invariant old(nightly) <= nightly <= bound
        invariant fixed ==> exists c :: c in g.deps && c in nightly && c !in old(nightly)
        invariant !fixed ==> nightly == old(nightly)
        invariant !fixed ==> forall j :: 0 <= j < i && Needed(g, nightly, g.crates[j]) ==> g.crates[j] in nightly
      {
        var crate := g.crates[i];
        var dependency := exists d :: d in transitive[crate] && d in nightly;
        var dependent := exists o :: o in g.crates && crate in g.deps[o] && o in nightly;
        if dependency && dependent && crate !in nightly {
          assert Needed(g, bound, crate);
          nightly := nightly + {crate};
          fixed := true;
        } else {
          assert Needed(g, nightly, crate) ==> crate in nightly;
        }
      }
    }
  }
}
