/**
 Recognising a merged candidate in a commit graph (`proveMergedCandidate` in src/broker.ts) and
 requiring linear history (`requireLinearHistory` in src/git.ts). A graph is any acyclic map from
 commits to their parents; `rank` witnesses that it is acyclic.
 */
module MergeProof {
  import opened Common

  type Sha = nat
  type Tree = nat

  datatype Graph = Graph(parents: map<Sha, seq<Sha>>, trees: map<Sha, Tree>, rank: map<Sha, nat>)

  ghost predicate WellFormed(g: Graph) {
    && g.rank.Keys == g.parents.Keys && g.trees.Keys == g.parents.Keys
    && forall c, p | c in g.parents && p in g.parents[c] :: p in g.parents && g.rank[p] < g.rank[c]
  }

  /** Reachability along any parents, from a commit to itself included. */
  ghost predicate Ancestor(g: Graph, a: Sha, c: Sha)
    requires WellFormed(g) && c in g.parents
    decreases g.rank[c]
  {
    a == c || exists p | p in g.parents[c] :: Ancestor(g, a, p)
  }

  lemma {:induction false} AncestorTrans(g: Graph, a: Sha, b: Sha, c: Sha)
    requires WellFormed(g) && b in g.parents && c in g.parents && Ancestor(g, a, b) && Ancestor(g, b, c)
    ensures Ancestor(g, a, c)
    decreases g.rank[c]
  {
    if b != c {
      var p :| p in g.parents[c] && Ancestor(g, b, p);
      AncestorTrans(g, a, b, p);
    }
  }

  lemma {:induction false} AncestorRank(g: Graph, a: Sha, c: Sha)
    requires WellFormed(g) && c in g.parents && Ancestor(g, a, c)
    ensures a in g.parents && g.rank[a] <= g.rank[c] && (g.rank[a] == g.rank[c] ==> a == c)
    decreases g.rank[c]
  {
    if a != c {
      var p :| p in g.parents[c] && Ancestor(g, a, p);
      AncestorRank(g, a, p);
    }
  }

  lemma Antisymmetric(g: Graph, a: Sha, b: Sha)
    requires WellFormed(g) && a in g.parents && b in g.parents && Ancestor(g, a, b) && Ancestor(g, b, a)
    ensures a == b
  {
    AncestorRank(g, a, b);
    AncestorRank(g, b, a);
  }

  /** From a commit down its parents, one at a time. */
  ghost predicate PathDown(g: Graph, c: Sha, a: Sha, path: seq<Sha>) {
    path != [] && path[0] == c && path[|path| - 1] == a
    && forall i | 0 <= i < |path| - 1 :: path[i] in g.parents && path[i + 1] in g.parents[path[i]]
  }

  lemma PathGoesOn(g: Graph, c: Sha, p: Sha, a: Sha, path: seq<Sha>)
    requires c in g.parents && p in g.parents[c] && PathDown(g, p, a, path)
    ensures PathDown(g, c, a, [c] + path)
  {
    var longer := [c] + path;
    forall i | 0 <= i < |longer| - 1 ensures longer[i] in g.parents && longer[i + 1] in g.parents[longer[i]] {
      if i > 0 { assert longer[i] == path[i - 1] && longer[i + 1] == path[i]; }
    }
  }

  lemma {:induction false} AncestorHasPath(g: Graph, a: Sha, c: Sha) returns (path: seq<Sha>)
    requires WellFormed(g) && c in g.parents && Ancestor(g, a, c)
    ensures PathDown(g, c, a, path)
    decreases g.rank[c]
  {
    if a == c {
      path := [c];
    } else {
      var p :| p in g.parents[c] && Ancestor(g, a, p);
      var rest := AncestorHasPath(g, a, p);
      PathGoesOn(g, c, p, a, rest);
      path := [c] + rest;
    }
  }

  lemma {:induction false} PathMakesAncestor(g: Graph, a: Sha, c: Sha, path: seq<Sha>)
    requires WellFormed(g) && c in g.parents && PathDown(g, c, a, path)
    ensures Ancestor(g, a, c)
    decreases |path|
  {
    if |path| > 1 {
      assert path[1] in g.parents[path[0]];
      PathMakesAncestor(g, a, path[1], path[1..]);
    }
  }

  /** Being an ancestor is being reached down some path. */
  lemma AncestorExactly(g: Graph, a: Sha, c: Sha)
    requires WellFormed(g) && c in g.parents
    ensures Ancestor(g, a, c) <==> exists path :: PathDown(g, c, a, path)
  {
    if Ancestor(g, a, c) { var path := AncestorHasPath(g, a, c); }
    if path :| PathDown(g, c, a, path) { PathMakesAncestor(g, a, c, path); }
  }

  /** `rev-list --reverse --first-parent base..tip`: along first parents from the tip, leaving out every
      commit reachable from the base by any path. */
  ghost function FirstParents(g: Graph, base: Sha, tip: Sha): seq<Sha>
    requires WellFormed(g) && base in g.parents && tip in g.parents
    decreases g.rank[tip]
  {
    if Ancestor(g, tip, base) then []
    else if g.parents[tip] == [] then [tip]
    else FirstParents(g, base, g.parents[tip][0]) + [tip]
  }

  /** The commit before position `i` of a list that starts above `base`. */
  function Below(base: Sha, cs: seq<Sha>, i: nat): Sha
    requires i <= |cs|
  {
    if i == 0 then base else cs[i - 1]
  }

  ghost predicate Link(g: Graph, base: Sha, cs: seq<Sha>, i: nat)
    requires i < |cs|
  {
    cs[i] in g.parents && g.parents[cs[i]] == [Below(base, cs, i)]
  }

  /** A chain of single-parent commits from directly above `base` up to `tip`. */
  ghost predicate Chain(g: Graph, base: Sha, tip: Sha, cs: seq<Sha>) {
    (forall i | 0 <= i < |cs| :: Link(g, base, cs, i)) && tip == Below(base, cs, |cs|)
  }

  /** A chain without its last commit is a chain to that commit's parent, and the other way round. */
  lemma ChainInit(g: Graph, base: Sha, tip: Sha, cs: seq<Sha>)
    requires Chain(g, base, tip, cs) && cs != []
    ensures tip in g.parents && tip == cs[|cs| - 1]
    ensures g.parents[tip] == [Below(base, cs, |cs| - 1)] && Chain(g, base, Below(base, cs, |cs| - 1), cs[..|cs| - 1])
  {
    var init := cs[..|cs| - 1];
    assert Link(g, base, cs, |cs| - 1);
    forall i | 0 <= i < |init| ensures Link(g, base, init, i) { assert Link(g, base, cs, i); }
  }

  lemma ChainSnoc(g: Graph, base: Sha, p: Sha, init: seq<Sha>, tip: Sha)
    requires Chain(g, base, p, init) && tip in g.parents && g.parents[tip] == [p]
    ensures Chain(g, base, tip, init + [tip])
  {
    var cs := init + [tip];
    forall i | 0 <= i < |cs| ensures Link(g, base, cs, i) {
      if i < |init| { assert Link(g, base, init, i); }
    }
  }

  lemma {:induction false} FirstParentsKnown(g: Graph, base: Sha, tip: Sha)
    requires WellFormed(g) && base in g.parents && tip in g.parents
    ensures forall c | c in FirstParents(g, base, tip) :: c in g.parents && !Ancestor(g, c, base)
    ensures FirstParents(g, base, tip) != [] ==>
              FirstParents(g, base, tip)[|FirstParents(g, base, tip)| - 1] == tip
    decreases g.rank[tip]
  {
    if !Ancestor(g, tip, base) && g.parents[tip] != [] {
      assert g.parents[tip][0] in g.parents[tip];
      FirstParentsKnown(g, base, g.parents[tip][0]);
    }
  }

  /** If the base is an ancestor and every listed commit has one parent, the list is a chain rooted
      directly at the base, though nothing compares the first commit's parent with it. */
  lemma {:induction false} SingleParentsReachBase(g: Graph, base: Sha, tip: Sha)
    requires WellFormed(g) && base in g.parents && tip in g.parents && Ancestor(g, base, tip)
    requires forall c | c in FirstParents(g, base, tip) :: c in g.parents && |g.parents[c]| == 1
    ensures Chain(g, base, tip, FirstParents(g, base, tip))
    decreases g.rank[tip]
  {
    var cs := FirstParents(g, base, tip);
    if Ancestor(g, tip, base) {
      Antisymmetric(g, tip, base);
    } else {
      assert g.parents[tip] != [] by {
        AncestorRank(g, base, tip);
      }
      assert tip in cs;
      var p := g.parents[tip][0];
      assert g.parents[tip] == [p] && p in g.parents[tip];
      assert Ancestor(g, base, p);
      var rest := FirstParents(g, base, p);
      forall c | c in rest ensures c in g.parents && |g.parents[c]| == 1 { assert c in cs; }
      SingleParentsReachBase(g, base, p);
      ChainSnoc(g, base, p, rest, tip);
    }
  }

  /** And a chain rooted at the base is exactly what the listing gives. */
  lemma {:induction false} ChainIsListed(g: Graph, base: Sha, tip: Sha, cs: seq<Sha>)
    requires WellFormed(g) && base in g.parents && Chain(g, base, tip, cs)
    ensures tip in g.parents && Ancestor(g, base, tip) && FirstParents(g, base, tip) == cs
    ensures forall c | c in cs :: c in g.parents && |g.parents[c]| == 1
    decreases |cs|
  {
    if cs != [] {
      ChainInit(g, base, tip, cs);
      var init, p := cs[..|cs| - 1], Below(base, cs, |cs| - 1);
      assert p in g.parents[tip];
      ChainIsListed(g, base, p, init);
      AncestorRank(g, base, p);
      if Ancestor(g, tip, base) { AncestorRank(g, tip, base); }
      assert cs == init + [tip];
    }
  }

  // ---- The proof the broker looks for ----

  /** The observations the code makes first, all of which must hold. `target` is the branch's head. */
  ghost predicate Landed(g: Graph, base: Sha, candidate: Sha, merge: Option<Sha>, target: Sha)
    requires WellFormed(g) && base in g.parents && candidate in g.parents && target in g.parents
  {
    && merge.Some? && merge.value in g.parents
    && Ancestor(g, merge.value, target)
    && Ancestor(g, base, merge.value) && Ancestor(g, base, candidate)
    && g.trees[merge.value] == g.trees[candidate]
  }

  /** `proveMergedCandidate`, branch for branch. */
  ghost predicate ProveMerged(g: Graph, base: Sha, candidate: Sha, merge: Option<Sha>, target: Sha)
    requires WellFormed(g) && base in g.parents && candidate in g.parents && target in g.parents
  {
    if !Landed(g, base, candidate, merge, target) then false
    else if merge.value == candidate then true
    else
      var ps := g.parents[merge.value];
      if ps != [] && ps[0] == base then |ps| == 1 || (|ps| == 2 && ps[1] == candidate)
      else TreeSequence(g, base, candidate, merge.value)
  }

  /** The tree-sequence branch: counts and trees only. */
  ghost predicate TreeSequence(g: Graph, base: Sha, candidate: Sha, merge: Sha)
    requires WellFormed(g) && base in g.parents && candidate in g.parents && merge in g.parents
  {
    var expected, actual := FirstParents(g, base, candidate), FirstParents(g, base, merge);
    && expected != [] && |expected| == |actual|
    && forall i | 0 <= i < |expected| ::
         && expected[i] in g.parents && actual[i] in g.parents
         && |g.parents[expected[i]]| == 1 && |g.parents[actual[i]]| == 1
         && g.trees[expected[i]] == g.trees[actual[i]]
  }

  /** What a rebase leaves: two chains directly on the base with the same trees in the same order. */
  ghost predicate Rebased(g: Graph, base: Sha, candidate: Sha, merge: Sha, xs: seq<Sha>, ys: seq<Sha>)
    requires WellFormed(g)
  {
    && xs != [] && Chain(g, base, candidate, xs) && Chain(g, base, merge, ys)
    && |xs| == |ys| && forall i | 0 <= i < |xs| ::
         xs[i] in g.trees && ys[i] in g.trees && g.trees[xs[i]] == g.trees[ys[i]]
  }

  lemma TreeSequenceIsRebase(g: Graph, base: Sha, candidate: Sha, merge: Sha)
    requires WellFormed(g) && base in g.parents && candidate in g.parents && merge in g.parents
    requires Ancestor(g, base, candidate) && Ancestor(g, base, merge) && TreeSequence(g, base, candidate, merge)
    ensures Rebased(g, base, candidate, merge, FirstParents(g, base, candidate), FirstParents(g, base, merge))
  {
    SingleParentsReachBase(g, base, candidate);
    SingleParentsReachBase(g, base, merge);
  }

  lemma RebaseIsTreeSequence(g: Graph, base: Sha, candidate: Sha, merge: Sha, xs: seq<Sha>, ys: seq<Sha>)
    requires WellFormed(g) && base in g.parents && Rebased(g, base, candidate, merge, xs, ys)
    ensures candidate in g.parents && merge in g.parents && TreeSequence(g, base, candidate, merge)
  {
    ChainIsListed(g, base, candidate, xs);
    ChainIsListed(g, base, merge, ys);
  }

  ghost predicate SomeRebase(g: Graph, base: Sha, candidate: Sha, merge: Sha)
    requires WellFormed(g)
  {
    exists xs, ys :: Rebased(g, base, candidate, merge, xs, ys)
  }

  /** Exactly the four ways a forge can land a candidate are accepted: the commit itself, one commit
      directly on the base with its tree, a merge of it into the base, or its commits replayed on the
      base tree by tree. */
  lemma ProvenExactlyWhenLanded(g: Graph, base: Sha, candidate: Sha, merge: Option<Sha>, target: Sha)
    requires WellFormed(g) && base in g.parents && candidate in g.parents && target in g.parents
    ensures ProveMerged(g, base, candidate, merge, target) <==>
              merge.Some? && merge.value in g.parents
              && Ancestor(g, merge.value, target) && Ancestor(g, base, merge.value) && Ancestor(g, base, candidate)
              && g.trees[merge.value] == g.trees[candidate]
              && (merge.value == candidate
                  || g.parents[merge.value] == [base]
                  || g.parents[merge.value] == [base, candidate]
                  || SomeRebase(g, base, candidate, merge.value))
  {
    if Landed(g, base, candidate, merge, target) && merge.value != candidate {
      var m := merge.value;
      if TreeSequence(g, base, candidate, m) {
        TreeSequenceIsRebase(g, base, candidate, m);
      }
      if SomeRebase(g, base, candidate, m) {
        var xs, ys :| Rebased(g, base, candidate, m, xs, ys);
        RebaseIsTreeSequence(g, base, candidate, m, xs, ys);
        ChainInit(g, base, m, ys);
      }
    }
  }

  // ---- Linear history ----

  datatype History = Linear(commits: seq<Sha>) | TooLarge | NonLinear | BaseNotAncestor

  /** The walk down from the head, with the commits found so far, newest first. */
  function Walk(g: Graph, base: Sha, cursor: Sha, found: seq<Sha>, maximum: nat): History
    requires WellFormed(g) && cursor in g.parents
    decreases g.rank[cursor]
  {
    if cursor == base then Linear(Reversed(found))
    else if |found| >= maximum then TooLarge
    else if |g.parents[cursor]| > 1 then NonLinear
    else if |g.parents[cursor]| != 1 then BaseNotAncestor
    else
      assert g.parents[cursor][0] in g.parents[cursor];
      Walk(g, base, g.parents[cursor][0], found + [cursor], maximum)
  }

  function Reversed(s: seq<Sha>): seq<Sha> {
    if s == [] then [] else Reversed(s[1..]) + [s[0]]
  }

  /** The cursor loop. */
  method RequireLinearHistory(g: Graph, base: Sha, head: Sha, maximum: nat) returns (h: History)
    requires WellFormed(g) && head in g.parents
    ensures h == Walk(g, base, head, [], maximum)
  {
    var cursor, found := head, [];
    while cursor != base
      invariant cursor in g.parents
      invariant Walk(g, base, cursor, found, maximum) == Walk(g, base, head, [], maximum)
      decreases g.rank[cursor]
    {
      if |found| >= maximum { return TooLarge; }
      var ps := g.parents[cursor];
      if |ps| > 1 { return NonLinear; }
      if |ps| != 1 { return BaseNotAncestor; }
      found := found + [cursor];
      assert ps[0] in ps;
      cursor := ps[0];
    }
    return Linear(Reversed(found));
  }

  lemma {:induction false} ReversedAppend(s: seq<Sha>, c: Sha)
    ensures Reversed(s + [c]) == [c] + Reversed(s)
    decreases |s|
  {
    if s != [] {
      ReversedAppend(s[1..], c);
      assert (s + [c])[1..] == s[1..] + [c];
    }
  }

  /** Joining what lies below the cursor to what was found above it. */
  lemma {:induction false} WalkFindsChain(g: Graph, base: Sha, cursor: Sha, found: seq<Sha>, maximum: nat) returns (below: seq<Sha>)
    requires WellFormed(g) && cursor in g.parents && Walk(g, base, cursor, found, maximum).Linear?
    ensures Chain(g, base, cursor, below) && Walk(g, base, cursor, found, maximum).commits == below + Reversed(found)
    ensures |below| + |found| <= maximum || below == []
    decreases g.rank[cursor]
  {
    if cursor == base {
      below := [];
    } else {
      var p := g.parents[cursor][0];
      assert p in g.parents[cursor];
      below := WalkFindsChain(g, base, p, found + [cursor], maximum);
      ReversedAppend(found, cursor);
      ChainSnoc(g, base, p, below, cursor);
      below := below + [cursor];
      assert below[..|below| - 1] + Reversed(found + [cursor]) == below + Reversed(found);
    }
  }

  lemma {:induction false} WalkAcceptsChain(g: Graph, base: Sha, cursor: Sha, below: seq<Sha>, found: seq<Sha>, maximum: nat)
    requires WellFormed(g) && cursor in g.parents && Chain(g, base, cursor, below) && |below| + |found| <= maximum
    ensures Walk(g, base, cursor, found, maximum) == Linear(below + Reversed(found))
    decreases |below|
  {
    if below == [] {
      assert below + Reversed(found) == Reversed(found);
    } else {
      ChainInit(g, base, cursor, below);
      var init, p := below[..|below| - 1], Below(base, below, |below| - 1);
      assert p in g.parents[cursor];
      ReversedAppend(found, cursor);
      WalkAcceptsChain(g, base, p, init, found + [cursor], maximum);
      assert init + Reversed(found + [cursor]) == below + Reversed(found);
      ChainLeavesBase(g, base, cursor, below);
    }
  }

  lemma {:induction false} ChainLeavesBase(g: Graph, base: Sha, tip: Sha, cs: seq<Sha>)
    requires WellFormed(g) && Chain(g, base, tip, cs) && cs != []
    ensures tip in g.parents && base in g.parents && g.rank[base] < g.rank[tip]
    decreases |cs|
  {
    ChainInit(g, base, tip, cs);
    var p := Below(base, cs, |cs| - 1);
    assert p in g.parents[tip];
    if |cs| > 1 { ChainLeavesBase(g, base, p, cs[..|cs| - 1]); }
  }

  /** Accepted exactly when a merge-free chain of at most `maximum` commits leads from the base to the
      head, and then it is that chain, oldest first. */
  lemma LinearHistoryIsTheChain(g: Graph, base: Sha, head: Sha, maximum: nat, cs: seq<Sha>)
    requires WellFormed(g) && head in g.parents
    ensures Walk(g, base, head, [], maximum) == Linear(cs) <==> Chain(g, base, head, cs) && |cs| <= maximum
  {
    if Walk(g, base, head, [], maximum) == Linear(cs) {
      var below := WalkFindsChain(g, base, head, [], maximum);
      assert below + [] == below;
    }
    if Chain(g, base, head, cs) && |cs| <= maximum {
      WalkAcceptsChain(g, base, head, cs, [], maximum);
      assert cs + [] == cs;
    }
  }
}
