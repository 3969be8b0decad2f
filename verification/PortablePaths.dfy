/**
 The trie that rejects tracked paths a case-folding filesystem could not hold apart (`rawTreeEntries`
 in src/git.ts), and the list of parent directories read from it afterwards. A path is its sequence
 of components; each carries the key two spellings share when some supported filesystem confuses
 them. Nodes are kept in one map under the sequence of keys that leads to them.
 */
module PortablePaths {
  import opened Common

  datatype Part = Part(name: string, key: string)

  /** A listed tree entry: a leaf, or a directory, which `ls-tree -t` lists too. */
  datatype Entry = Entry(parts: seq<Part>, leaf: bool)

  type Path = seq<string>

  datatype Node = Node(component: string, leaf: bool, children: seq<string>)

  function Keys(ps: seq<Part>): (r: Path)
    ensures |r| == |ps| && forall i | 0 <= i < |ps| :: r[i] == ps[i].key
  {
    seq(|ps|, i requires 0 <= i < |ps| => ps[i].key)
  }

  function Names(ps: seq<Part>): (r: seq<string>)
    ensures |r| == |ps| && forall i | 0 <= i < |ps| :: r[i] == ps[i].name
  {
    seq(|ps|, i requires 0 <= i < |ps| => ps[i].name)
  }

  lemma KeysOfPrefix(ps: seq<Part>, n: nat)
    requires n <= |ps|
    ensures Keys(ps[..n]) == Keys(ps)[..n] && Names(ps[..n]) == Names(ps)[..n]
  {
  }

  // ---- When two entries collide ----

  /** Equal folded prefixes must be spelled alike. */
  predicate SpelledAlike(a: Entry, b: Entry) {
    forall n | 0 < n <= |a.parts| && n <= |b.parts| && Keys(a.parts)[..n] == Keys(b.parts)[..n] ::
      a.parts[n - 1].name == b.parts[n - 1].name
  }

  /** `b` listed after `a`: neither may be a leaf on the other's way. */
  predicate Compatible(a: Entry, b: Entry) {
    SpelledAlike(a, b)
    && !(a.leaf && Keys(a.parts) <= Keys(b.parts))
    && !(b.leaf && Keys(b.parts) < Keys(a.parts))
  }

  predicate AllCompatible(es: seq<Entry>) {
    forall i, j | 0 <= i < j < |es| :: Compatible(es[i], es[j])
  }

  // ---- What the nodes stand for ----

  predicate Leads(e: Entry, k: Path) {
    k <= Keys(e.parts)
  }

  predicate Reached(es: seq<Entry>, k: Path) {
    exists i | 0 <= i < |es| :: Leads(es[i], k)
  }

  predicate LeafAt(es: seq<Entry>, k: Path) {
    exists i | 0 <= i < |es| :: es[i].leaf && Keys(es[i].parts) == k
  }

  predicate SpellsHere(e: Entry, k: Path, component: string) {
    k != [] && Leads(e, k) ==> e.parts[|k| - 1].name == component
  }

  ghost predicate NodeFits(nodes: map<Path, Node>, es: seq<Entry>, k: Path)
    requires k in nodes
  {
    && (forall i | 0 <= i < |es| :: SpellsHere(es[i], k, nodes[k].component))
    && (nodes[k].leaf <==> LeafAt(es, k))
    && Distinct(nodes[k].children)
    && (forall c :: c in nodes[k].children <==> k + [c] in nodes)
  }

  ghost predicate Represents(nodes: map<Path, Node>, es: seq<Entry>) {
    && (forall k :: k in nodes <==> k == [] || Reached(es, k))
    && (forall k | k in nodes :: NodeFits(nodes, es, k))
    && LeavesNamed(es)
  }

  ghost predicate LeavesNamed(es: seq<Entry>) {
    forall i | 0 <= i < |es| :: es[i].leaf ==> es[i].parts != []
  }

  lemma ChildIsReached(es: seq<Entry>, k: Path, c: string)
    ensures Reached(es, k + [c]) ==> Reached(es, k)
  {
    if Reached(es, k + [c]) {
      var i :| 0 <= i < |es| && Leads(es[i], k + [c]);
      assert (k + [c])[..|k|] == k;
      assert Leads(es[i], k);
    }
  }

  lemma LeafIsReached(es: seq<Entry>, k: Path)
    ensures LeafAt(es, k) ==> Reached(es, k)
  {
    if LeafAt(es, k) {
      var i :| 0 <= i < |es| && es[i].leaf && Keys(es[i].parts) == k;
      assert Leads(es[i], k);
    }
  }

  lemma PrefixShorter(x: Path, y: Path, n: nat)
    requires n < |y|
    ensures x <= y[..n + 1] && x != y[..n + 1] ==> x <= y[..n]
  {
    if x <= y[..n + 1] && |x| == n + 1 { assert x == y[..n + 1]; }
  }

  // ---- Insertion ----

  /** The first `n` components of an entry, as the directory they lead to. */
  function Partial(e: Entry, n: nat): Entry
    requires n <= |e.parts|
  {
    Entry(e.parts[..n], false)
  }

  lemma ReachedAppend(es: seq<Entry>, e: Entry, k: Path)
    ensures Reached(es + [e], k) <==> Reached(es, k) || Leads(e, k)
    ensures LeafAt(es + [e], k) <==> LeafAt(es, k) || (e.leaf && Keys(e.parts) == k)
  {
    var more := es + [e];
    if Reached(es, k) {
      var i :| 0 <= i < |es| && Leads(es[i], k);
      assert Leads(more[i], k);
    }
    if LeafAt(es, k) {
      var i :| 0 <= i < |es| && es[i].leaf && Keys(es[i].parts) == k;
      assert more[i].leaf && Keys(more[i].parts) == k;
    }
    assert more[|es|] == e;
  }

  /** Replacing the last entry by one that reaches the same places, or one place more. */
  lemma FitsFurther(nodes: map<Path, Node>, after: map<Path, Node>, es: seq<Entry>, a: Entry, b: Entry, k: Path)
    requires k in nodes && NodeFits(nodes, es + [a], k) && k in after
    requires after[k].component == nodes[k].component && after[k].leaf == nodes[k].leaf
    requires Distinct(after[k].children) && forall c :: c in after[k].children <==> k + [c] in after
    requires (a.leaf && Keys(a.parts) == k) == (b.leaf && Keys(b.parts) == k)
    requires SpellsHere(b, k, nodes[k].component)
    ensures NodeFits(after, es + [b], k)
  {
    ReachedAppend(es, a, k);
    ReachedAppend(es, b, k);
    var more := es + [b];
    forall i | 0 <= i < |more| ensures SpellsHere(more[i], k, after[k].component) {
      if i < |es| {
        assert (es + [a])[i] == es[i];
        assert SpellsHere((es + [a])[i], k, nodes[k].component);
      }
    }
  }

  lemma NothingInserted(nodes: map<Path, Node>, es: seq<Entry>, e: Entry)
    requires Represents(nodes, es)
    ensures Represents(nodes, es + [Partial(e, 0)])
  {
    var none := Partial(e, 0);
    forall k ensures Reached(es + [none], k) <==> Reached(es, k) || k == [] { ReachedAppend(es, none, k); }
    forall k | k in nodes ensures NodeFits(nodes, es + [none], k) {
      assert NodeFits(nodes, es, k);
      ReachedAppend(es, none, k);
      forall i | 0 <= i < |es + [none]| ensures SpellsHere((es + [none])[i], k, nodes[k].component) {
        if i < |es| { assert SpellsHere(es[i], k, nodes[k].component); }
      }
    }
  }

  lemma PartialReaches(e: Entry, n: nat, k: Path)
    requires n < |e.parts|
    ensures Leads(Partial(e, n + 1), k) <==> Leads(Partial(e, n), k) || k == Keys(e.parts)[..n + 1]
    ensures Leads(Partial(e, n), k) ==> |k| <= n
    ensures Leads(Partial(e, n), Keys(e.parts)[..n])
  {
    KeysOfPrefix(e.parts, n);
    KeysOfPrefix(e.parts, n + 1);
    if Leads(Partial(e, n + 1), k) {
      if |k| == n + 1 { assert k == Keys(e.parts)[..n + 1]; } else { assert k <= Keys(e.parts)[..n]; }
    }
    if Leads(Partial(e, n), k) { assert Keys(e.parts)[..n] <= Keys(e.parts)[..n + 1]; }
  }

  lemma ReachesOneMore(es: seq<Entry>, e: Entry, n: nat, k: Path)
    requires n < |e.parts|
    ensures Reached(es + [Partial(e, n + 1)], k) <==> Reached(es + [Partial(e, n)], k) || k == Keys(e.parts)[..n + 1]
  {
    ReachedAppend(es, Partial(e, n), k);
    ReachedAppend(es, Partial(e, n + 1), k);
    PartialReaches(e, n, k);
  }

  lemma StillNamed(es: seq<Entry>, a: Entry, b: Entry)
    requires LeavesNamed(es + [a]) && (b.leaf ==> b.parts != [])
    ensures LeavesNamed(es + [b])
  {
    forall i | 0 <= i < |es + [b]| ensures (es + [b])[i].leaf ==> (es + [b])[i].parts != [] {
      assert i < |es| ==> (es + [a])[i] == es[i];
    }
  }

  /** The next component is there already, spelled the same. */
  lemma FoundChild(nodes: map<Path, Node>, es: seq<Entry>, e: Entry, n: nat)
    requires n < |e.parts| && Represents(nodes, es + [Partial(e, n)])
    requires var key := Keys(e.parts)[..n + 1]; key in nodes && nodes[key].component == e.parts[n].name
    ensures Represents(nodes, es + [Partial(e, n + 1)])
  {
    var a, b := Partial(e, n), Partial(e, n + 1);
    forall k ensures k in nodes <==> k == [] || Reached(es + [b], k) { ReachesOneMore(es, e, n, k); }
    forall k | k in nodes ensures NodeFits(nodes, es + [b], k) { FoundFits(nodes, es, e, n, k); }
    StillNamed(es, a, b);
  }

  lemma FoundFits(nodes: map<Path, Node>, es: seq<Entry>, e: Entry, n: nat, k: Path)
    requires n < |e.parts| && k in nodes && NodeFits(nodes, es + [Partial(e, n)], k)
    requires k == Keys(e.parts)[..n + 1] ==> nodes[k].component == e.parts[n].name
    ensures NodeFits(nodes, es + [Partial(e, n + 1)], k)
  {
    PartialSpells(es, Partial(e, n), e, n, k, nodes[k].component);
    FitsFurther(nodes, nodes, es, Partial(e, n), Partial(e, n + 1), k);
  }

  lemma PartialSpells(es: seq<Entry>, a: Entry, e: Entry, n: nat, k: Path, component: string)
    requires n < |e.parts| && a == Partial(e, n)
    requires SpellsHere((es + [a])[|es|], k, component)
    requires k == Keys(e.parts)[..n + 1] ==> component == e.parts[n].name
    ensures SpellsHere(Partial(e, n + 1), k, component)
  {
    PartialReaches(e, n, k);
    if k != [] && Leads(Partial(e, n + 1), k) && k != Keys(e.parts)[..n + 1] {
      assert Leads(a, k) && a.parts[|k| - 1] == e.parts[|k| - 1];
    }
  }

  /** The next component is new: a node for it, and its parent lists it. */
  function WithChild(nodes: map<Path, Node>, at: Path, part: Part): map<Path, Node>
    requires at in nodes
  {
    nodes[at := nodes[at].(children := nodes[at].children + [part.key])][at + [part.key] := Node(part.name, false, [])]
  }

  lemma NewChild(nodes: map<Path, Node>, es: seq<Entry>, e: Entry, n: nat)
    requires n < |e.parts| && Represents(nodes, es + [Partial(e, n)])
    requires Keys(e.parts)[..n] in nodes && Keys(e.parts)[..n + 1] !in nodes
    ensures Keys(e.parts)[..n + 1] == Keys(e.parts)[..n] + [e.parts[n].key]
    ensures Represents(WithChild(nodes, Keys(e.parts)[..n], e.parts[n]), es + [Partial(e, n + 1)])
  {
    var at, key := Keys(e.parts)[..n], Keys(e.parts)[..n + 1];
    assert key == at + [e.parts[n].key];
    var after := WithChild(nodes, at, e.parts[n]);
    var a, b := Partial(e, n), Partial(e, n + 1);
    forall k ensures k in after <==> k == [] || Reached(es + [b], k) { ReachesOneMore(es, e, n, k); }
    forall k | k in after ensures NodeFits(after, es + [b], k) {
      if k == key {
        NewNodeFits(nodes, after, es, e, n);
      } else {
        assert NodeFits(nodes, es + [a], k);
        PartialSpells(es, a, e, n, k, nodes[k].component);
        ChildrenAfter(nodes, at, e.parts[n], k);
        FitsFurther(nodes, after, es, a, b, k);
      }
    }
    StillNamed(es, a, b);
  }

  lemma ChildrenAfter(nodes: map<Path, Node>, at: Path, part: Part, k: Path)
    requires at in nodes && at + [part.key] !in nodes && k in nodes
    requires Distinct(nodes[k].children) && forall c :: c in nodes[k].children <==> k + [c] in nodes
    ensures var after := WithChild(nodes, at, part);
            k in after && after[k].component == nodes[k].component && after[k].leaf == nodes[k].leaf
            && Distinct(after[k].children) && forall c :: c in after[k].children <==> k + [c] in after
  {
    var after := WithChild(nodes, at, part);
    forall c ensures c in after[k].children <==> k + [c] in after {
      if k + [c] == at + [part.key] {
        assert (k + [c])[..|k|] == k && (at + [part.key])[..|at|] == at && (k + [c])[|k|] == c;
      }
    }
  }

  lemma NewNodeFits(nodes: map<Path, Node>, after: map<Path, Node>, es: seq<Entry>, e: Entry, n: nat)
    requires n < |e.parts| && Represents(nodes, es + [Partial(e, n)])
    requires Keys(e.parts)[..n] in nodes && Keys(e.parts)[..n + 1] !in nodes
    requires after == WithChild(nodes, Keys(e.parts)[..n], e.parts[n])
    ensures Keys(e.parts)[..n + 1] in after && NodeFits(after, es + [Partial(e, n + 1)], Keys(e.parts)[..n + 1])
  {
    var at, key := Keys(e.parts)[..n], Keys(e.parts)[..n + 1];
    assert key == at + [e.parts[n].key];
    var a, b := Partial(e, n), Partial(e, n + 1);
    var more := es + [b];
    ReachedAppend(es, a, key);
    ReachedAppend(es, b, key);
    forall i | 0 <= i < |more| ensures SpellsHere(more[i], key, e.parts[n].name) {
      if i < |es| { assert !Leads(es[i], key); }
    }
    LeafIsReached(es, key);
    forall c ensures key + [c] !in after { ChildIsReached(es + [a], key, c); }
  }

  lemma MarkedLeaf(nodes: map<Path, Node>, es: seq<Entry>, e: Entry)
    requires Represents(nodes, es + [Partial(e, |e.parts|)]) && e.leaf && e.parts != [] && Keys(e.parts) in nodes
    ensures var key := Keys(e.parts); Represents(nodes[key := nodes[key].(leaf := true)], es + [e])
  {
    var key := Keys(e.parts);
    var a := Partial(e, |e.parts|);
    var after := nodes[key := nodes[key].(leaf := true)];
    assert a.parts == e.parts;
    forall k ensures Reached(es + [e], k) <==> Reached(es + [a], k) {
      ReachedAppend(es, a, k);
      ReachedAppend(es, e, k);
    }
    forall k | k in after ensures NodeFits(after, es + [e], k) {
      assert NodeFits(nodes, es + [a], k);
      ReachedAppend(es, a, k);
      ReachedAppend(es, e, k);
      forall i | 0 <= i < |es + [e]| ensures SpellsHere((es + [e])[i], k, after[k].component) {
        assert SpellsHere((es + [a])[i], k, nodes[k].component);
      }
    }
    forall i | 0 <= i < |es + [e]| ensures (es + [e])[i].leaf ==> (es + [e])[i].parts != [] {
      assert i < |es| ==> (es + [a])[i] == es[i];
    }
  }

  // ---- What a check on one node says about the entries ----

  /** Passing the checks at a component: nothing listed before stands in the way so far. */
  lemma ChecksPassed(nodes: map<Path, Node>, es: seq<Entry>, e: Entry, n: nat, i: nat, leaf: bool)
    requires n < |e.parts| && i < |es| && Represents(nodes, es + [Partial(e, n + 1)]) && (leaf ==> n + 1 == |e.parts|)
    requires var key := Keys(e.parts)[..n + 1];
             key in nodes && !nodes[key].leaf && !(leaf && nodes[key].children != []) && nodes[key].component == e.parts[n].name
    requires Compatible(es[i], Partial(e, n))
    ensures Compatible(es[i], Entry(e.parts[..n + 1], leaf))
  {
    var key := Keys(e.parts)[..n + 1];
    var a, b := es[i], Entry(e.parts[..n + 1], leaf);
    var more := es + [Partial(e, n + 1)];
    KeysOfPrefix(e.parts, n);
    KeysOfPrefix(e.parts, n + 1);
    assert NodeFits(nodes, more, key) && more[i] == a;
    assert SpellsHere(more[i], key, nodes[key].component);
    forall m | 0 < m <= |a.parts| && m <= |b.parts| && Keys(a.parts)[..m] == Keys(b.parts)[..m]
      ensures a.parts[m - 1].name == b.parts[m - 1].name
    {
      if m == n + 1 { assert Leads(a, key); } else { assert Keys(b.parts)[..m] == Keys(Partial(e, n).parts)[..m]; }
    }
    assert a.leaf && Keys(a.parts) == key ==> LeafAt(more, key);
    PrefixShorter(Keys(a.parts), Keys(e.parts), n);
    if leaf && key < Keys(a.parts) { assert more[i] == a; ChildOnTheWay(nodes, more, i, key); }
  }

  lemma ChildOnTheWay(nodes: map<Path, Node>, es: seq<Entry>, i: nat, key: Path)
    requires Represents(nodes, es) && i < |es| && key in nodes && key < Keys(es[i].parts)
    ensures nodes[key].children != []
  {
    var k := Keys(es[i].parts)[..|key| + 1];
    assert k == key + [k[|key|]] && Leads(es[i], k);
    assert Reached(es, k);
    assert NodeFits(nodes, es, key);
    assert k[|key|] in nodes[key].children;
  }

  lemma MisspelledCollides(nodes: map<Path, Node>, es: seq<Entry>, e: Entry, n: nat)
    requires n < |e.parts| && Represents(nodes, es + [Partial(e, n)])
    requires var key := Keys(e.parts)[..n + 1]; key in nodes && nodes[key].component != e.parts[n].name
    ensures exists i | 0 <= i < |es| :: !Compatible(es[i], e)
  {
    var key := Keys(e.parts)[..n + 1];
    var a := Partial(e, n);
    ReachedAppend(es, a, key);
    PartialReaches(e, n, key);
    var i :| 0 <= i < |es| && Leads(es[i], key);
    assert (es + [a])[i] == es[i] && NodeFits(nodes, es + [a], key);
    assert SpellsHere((es + [a])[i], key, nodes[key].component);
    assert Keys(es[i].parts)[..n + 1] == Keys(e.parts)[..n + 1];
    assert !SpelledAlike(es[i], e);
  }

  lemma LeafCollides(nodes: map<Path, Node>, es: seq<Entry>, e: Entry, n: nat)
    requires n < |e.parts| && Represents(nodes, es + [Partial(e, n + 1)])
    requires var key := Keys(e.parts)[..n + 1]; key in nodes && nodes[key].leaf
    ensures exists i | 0 <= i < |es| :: !Compatible(es[i], e)
  {
    var key := Keys(e.parts)[..n + 1];
    var a := Partial(e, n + 1);
    assert NodeFits(nodes, es + [a], key);
    ReachedAppend(es, a, key);
    var i :| 0 <= i < |es| && es[i].leaf && Keys(es[i].parts) == key;
    assert Keys(es[i].parts) <= Keys(e.parts);
    assert !Compatible(es[i], e);
  }

  lemma DirectoryCollides(nodes: map<Path, Node>, es: seq<Entry>, e: Entry)
    requires e.leaf && e.parts != [] && Represents(nodes, es + [Partial(e, |e.parts|)])
    requires Keys(e.parts) in nodes && nodes[Keys(e.parts)].children != []
    ensures exists i | 0 <= i < |es| :: !Compatible(es[i], e)
  {
    var key := Keys(e.parts);
    var a := Partial(e, |e.parts|);
    assert a.parts == e.parts;
    assert NodeFits(nodes, es + [a], key);
    var c := nodes[key].children[0];
    assert c in nodes[key].children && key + [c] in nodes;
    ReachedAppend(es, a, key + [c]);
    var i :| 0 <= i < |es| && Leads(es[i], key + [c]);
    assert key < key + [c] && key < Keys(es[i].parts);
    assert !Compatible(es[i], e);
  }

  // ---- The walk ----

  /** A directory still to open, with its spelled path. */
  datatype Pending = Pending(path: Path, names: seq<string>)

  /** Every prefix of the path has a node. */
  predicate Closed(nodes: map<Path, Node>, k: Path) {
    forall n | 0 <= n <= |k| :: k[..n] in nodes
  }

  function NamesAt(nodes: map<Path, Node>, k: Path): (r: seq<string>)
    requires Closed(nodes, k)
    ensures |r| == |k|
  {
    seq(|k|, i requires 0 <= i < |k| => assert k[..i + 1] in nodes; nodes[k[..i + 1]].component)
  }

  ghost predicate TreeShaped(nodes: map<Path, Node>) {
    && [] in nodes
    && (forall k | k in nodes :: Closed(nodes, k) && Distinct(nodes[k].children)
                                 && forall c :: c in nodes[k].children <==> k + [c] in nodes)
  }

  lemma TrieIsClosed(nodes: map<Path, Node>, es: seq<Entry>)
    requires Represents(nodes, es)
    ensures TreeShaped(nodes)
  {
    forall k | k in nodes ensures Closed(nodes, k) {
      assert NodeFits(nodes, es, k);
      forall n | 0 <= n <= |k| ensures k[..n] in nodes {
        if k != [] {
          var i :| 0 <= i < |es| && Leads(es[i], k);
          assert Leads(es[i], k[..n]);
        }
      }
    }
    forall k | k in nodes ensures Distinct(nodes[k].children) && forall c :: c in nodes[k].children <==> k + [c] in nodes {
      assert NodeFits(nodes, es, k);
    }
  }

  /** A node's children, last first, so that the first is on top of the stack. */
  function Children(nodes: map<Path, Node>, k: Path, names: seq<string>): (r: seq<Pending>)
    requires k in nodes && forall c | c in nodes[k].children :: k + [c] in nodes
    ensures |r| == |nodes[k].children|
  {
    var cs := nodes[k].children;
    seq(|cs|, i requires 0 <= i < |cs| =>
          var c := cs[|cs| - 1 - i];
          assert c in cs;
          Pending(k + [c], names + [nodes[k + [c]].component]))
  }

  function Elements(ks: seq<Path>): set<Path> {
    set k | k in ks
  }

  ghost predicate Covers(pending: seq<Pending>, k: Path) {
    exists i | 0 <= i < |pending| :: pending[i].path <= k
  }

  predicate ParentIn(ks: seq<Path>, k: Path) {
    k != [] && (|k| == 1 || k[..|k| - 1] in ks)
  }

  /** Every directory's parents are listed before it. */
  ghost predicate ParentsFirst(ks: seq<Path>) {
    forall i | 0 <= i < |ks| :: ParentIn(ks[..i], ks[i])
  }

  ghost predicate StackFits(nodes: map<Path, Node>, pending: seq<Pending>) {
    && (forall i | 0 <= i < |pending| ::
          pending[i].path in nodes && Closed(nodes, pending[i].path) && pending[i].names == NamesAt(nodes, pending[i].path))
    && forall i, j | 0 <= i < |pending| && 0 <= j < |pending| && i != j :: !(pending[i].path <= pending[j].path)
  }

  /** Whatever was not visited lies below exactly one directory on the stack. */
  ghost predicate Walked(nodes: map<Path, Node>, visited: seq<Path>, pending: seq<Pending>) {
    && TreeShaped(nodes) && StackFits(nodes, pending)
    && VisitedFit(nodes, visited)
    && SplitsNodes(nodes, visited, pending)
    && ParentsReady(visited, pending)
  }

  ghost predicate VisitedFit(nodes: map<Path, Node>, visited: seq<Path>) {
    (forall k | k in visited :: k in nodes && k != []) && Distinct(visited) && ParentsFirst(visited)
  }

  ghost predicate SplitsNodes(nodes: map<Path, Node>, visited: seq<Path>, pending: seq<Pending>) {
    forall k | k in nodes && k != [] :: k in visited <==> !Covers(pending, k)
  }

  ghost predicate ParentsReady(visited: seq<Path>, pending: seq<Pending>) {
    forall i | 0 <= i < |pending| :: ParentIn(visited, pending[i].path)
  }

  lemma ChildFits(nodes: map<Path, Node>, k: Path, c: string)
    requires TreeShaped(nodes) && k in nodes && Closed(nodes, k) && k + [c] in nodes
    ensures Closed(nodes, k + [c]) && NamesAt(nodes, k + [c]) == NamesAt(nodes, k) + [nodes[k + [c]].component]
  {
    assert forall n | 0 <= n <= |k| :: (k + [c])[..n] == k[..n];
    assert (k + [c])[..|k| + 1] == k + [c];
  }

  lemma ChildrenApart(nodes: map<Path, Node>, k: Path, names: seq<string>)
    requires k in nodes && Distinct(nodes[k].children) && forall c | c in nodes[k].children :: k + [c] in nodes
    ensures var stack := Children(nodes, k, names);
            forall i, j | 0 <= i < |stack| && 0 <= j < |stack| && i != j :: !(stack[i].path <= stack[j].path)
  {
    var cs, stack := nodes[k].children, Children(nodes, k, names);
    forall i, j | 0 <= i < |stack| && 0 <= j < |stack| && i != j ensures !(stack[i].path <= stack[j].path) {
      assert stack[i].path == k + [cs[|cs| - 1 - i]] && stack[j].path == k + [cs[|cs| - 1 - j]];
      assert stack[i].path[|k|] != stack[j].path[|k|];
    }
  }

  lemma ChildrenFit(nodes: map<Path, Node>, k: Path, names: seq<string>)
    requires TreeShaped(nodes) && k in nodes && Closed(nodes, k) && names == NamesAt(nodes, k)
    ensures StackFits(nodes, Children(nodes, k, names))
    ensures forall x | x in nodes :: Covers(Children(nodes, k, names), x) <==> k <= x && k != x
  {
    var cs, stack := nodes[k].children, Children(nodes, k, names);
    forall i | 0 <= i < |stack|
      ensures stack[i].path in nodes && Closed(nodes, stack[i].path) && stack[i].names == NamesAt(nodes, stack[i].path)
    {
      var c := cs[|cs| - 1 - i];
      assert c in cs && stack[i].path == k + [c];
      ChildFits(nodes, k, c);
    }
    ChildrenApart(nodes, k, names);
    forall x | x in nodes ensures Covers(stack, x) <==> k <= x && k != x { ChildrenCover(nodes, k, names, x); }
  }

  lemma ChildrenCover(nodes: map<Path, Node>, k: Path, names: seq<string>, x: Path)
    requires TreeShaped(nodes) && k in nodes && x in nodes
    ensures Covers(Children(nodes, k, names), x) <==> k <= x && k != x
  {
    var cs, stack := nodes[k].children, Children(nodes, k, names);
    if k <= x && k != x {
      var c := x[|k|];
      assert x[..|k| + 1] == k + [c] && x[..|k| + 1] in nodes;
      var j :| 0 <= j < |cs| && cs[j] == c;
      assert stack[|cs| - 1 - j].path == k + [c] && k + [c] <= x;
    }
  }

  lemma StackAtRoot(nodes: map<Path, Node>)
    requires TreeShaped(nodes)
    ensures Walked(nodes, [], Children(nodes, [], []))
  {
    ChildrenFit(nodes, [], []);
  }

  lemma SnocParents(nodes: map<Path, Node>, visited: seq<Path>, k: Path)
    requires VisitedFit(nodes, visited) && ParentIn(visited, k) && k !in visited && k in nodes
    ensures VisitedFit(nodes, visited + [k])
  {
    var more := visited + [k];
    forall i | 0 <= i < |more| ensures ParentIn(more[..i], more[i]) {
      if i < |visited| { assert more[..i] == visited[..i] && ParentIn(visited[..i], visited[i]); }
      else { assert more[..i] == visited; }
    }
  }

  lemma PushedParents(visited: seq<Path>, k: Path, rest: seq<Pending>, below: seq<Pending>)
    requires ParentsReady(visited, rest)
    requires k != [] && forall i | 0 <= i < |below| :: |below[i].path| == |k| + 1 && k <= below[i].path
    ensures ParentsReady(visited + [k], rest + below)
  {
    forall i | 0 <= i < |rest + below| ensures ParentIn(visited + [k], (rest + below)[i].path) {
      if i >= |rest| {
        var p := below[i - |rest|].path;
        assert p[..|p| - 1] == k;
      }
    }
  }

  lemma CoversLess(nodes: map<Path, Node>, visited: seq<Path>, pending: seq<Pending>, below: seq<Pending>)
    requires pending != [] && StackFits(nodes, pending)
    requires var k := pending[|pending| - 1].path; forall x | x in nodes :: Covers(below, x) <==> k <= x && k != x
    requires SplitsNodes(nodes, visited, pending)
    ensures SplitsNodes(nodes, visited + [pending[|pending| - 1].path], pending[..|pending| - 1] + below)
  {
    var k := pending[|pending| - 1].path;
    forall x | x in nodes && x != [] ensures x in visited + [k] <==> !Covers(pending[..|pending| - 1] + below, x) {
      CoverSplits(pending, below, nodes, x);
    }
  }

  lemma PopKeeps(nodes: map<Path, Node>, visited: seq<Path>, pending: seq<Pending>)
    requires Walked(nodes, visited, pending) && pending != []
    ensures var current := pending[|pending| - 1];
            current.path in nodes && current.path !in visited && Closed(nodes, current.path)
            && current.names == NamesAt(nodes, current.path)
            && Walked(nodes, visited + [current.path],
                      pending[..|pending| - 1] + Children(nodes, current.path, current.names))
  {
    var current, rest := pending[|pending| - 1], pending[..|pending| - 1];
    var below := Children(nodes, current.path, current.names);
    TopIsNew(nodes, visited, pending);
    ChildrenFit(nodes, current.path, current.names);
    RestApart(pending, below, nodes);
    CoversLess(nodes, visited, pending, below);
    SnocParents(nodes, visited, current.path);
    assert ParentsReady(visited, rest);
    PushedParents(visited, current.path, rest, below);
  }

  lemma TopIsNew(nodes: map<Path, Node>, visited: seq<Path>, pending: seq<Pending>)
    requires StackFits(nodes, pending) && SplitsNodes(nodes, visited, pending) && ParentsReady(visited, pending) && pending != []
    ensures var current := pending[|pending| - 1];
            current.path in nodes && current.path !in visited && ParentIn(visited, current.path)
  {
    var current := pending[|pending| - 1];
    assert current.path <= current.path;
    assert Covers(pending, current.path);
  }

  /** The new stack stays free of prefixes: children lie apart from everything else on it. */
  lemma RestApart(pending: seq<Pending>, below: seq<Pending>, nodes: map<Path, Node>)
    requires pending != [] && StackFits(nodes, pending) && StackFits(nodes, below)
    requires var k := pending[|pending| - 1].path; forall i | 0 <= i < |below| :: |below[i].path| == |k| + 1 && k <= below[i].path
    ensures StackFits(nodes, pending[..|pending| - 1] + below)
  {
    var rest, k := pending[..|pending| - 1], pending[|pending| - 1].path;
    var stack := rest + below;
    forall i, j | 0 <= i < |rest| && 0 <= j < |below|
      ensures !(rest[i].path <= below[j].path) && !(below[j].path <= rest[i].path)
    {
      assert rest[i] == pending[i];
      ApartFromChild(rest[i].path, k, below[j].path);
    }
  }

  lemma PrefixesComparable(x: Path, y: Path, z: Path)
    ensures x <= z && y <= z ==> x <= y || y <= x
    ensures x <= y && y <= z ==> x <= z
  {
    if x <= z && y <= z {
      if |x| <= |y| { assert x == y[..|x|]; } else { assert y == x[..|y|]; }
    }
  }

  lemma ApartFromChild(x: Path, k: Path, child: Path)
    requires !(x <= k) && !(k <= x) && k <= child && |child| == |k| + 1
    ensures !(x <= child) && !(child <= x)
  {
    PrefixesComparable(x, k, child);
    PrefixesComparable(k, child, x);
  }

  lemma CoverSplits(pending: seq<Pending>, below: seq<Pending>, nodes: map<Path, Node>, x: Path)
    requires pending != [] && StackFits(nodes, pending)
    requires Covers(below, x) <==> pending[|pending| - 1].path <= x && pending[|pending| - 1].path != x
    ensures Covers(pending[..|pending| - 1] + below, x) <==> Covers(pending, x) && x != pending[|pending| - 1].path
  {
    var rest, k := pending[..|pending| - 1], pending[|pending| - 1].path;
    var stack := rest + below;
    if Covers(stack, x) {
      var i :| 0 <= i < |stack| && stack[i].path <= x;
      if i < |rest| { assert pending[i].path <= x; } else { assert below[i - |rest|].path <= x; }
    }
    if Covers(pending, x) && x != k {
      var i :| 0 <= i < |pending| && pending[i].path <= x;
      if i < |rest| {
        assert stack[i].path <= x;
      } else {
        var j :| 0 <= j < |below| && below[j].path <= x;
        assert stack[|rest| + j].path <= x;
      }
    }
  }

  /** The visited directories that have something in them. */
  function Opened(nodes: map<Path, Node>, visited: seq<Path>): seq<Path>
    requires forall k | k in visited :: k in nodes
  {
    if visited == [] then []
    else
      var last := visited[|visited| - 1];
      Opened(nodes, visited[..|visited| - 1]) + if nodes[last].children != [] then [last] else []
  }

  lemma OpenedSnoc(nodes: map<Path, Node>, visited: seq<Path>, k: Path)
    requires k in nodes && forall x | x in visited :: x in nodes
    ensures Opened(nodes, visited + [k]) == Opened(nodes, visited) + if nodes[k].children != [] then [k] else []
  {
    assert (visited + [k])[..|visited|] == visited;
  }

  lemma {:induction false} OpenedHas(nodes: map<Path, Node>, visited: seq<Path>)
    requires (forall k | k in visited :: k in nodes) && Distinct(visited)
    ensures forall k :: k in Opened(nodes, visited) <==> k in visited && nodes[k].children != []
    ensures Distinct(Opened(nodes, visited))
    decreases |visited|
  {
    if visited != [] {
      var init, last := visited[..|visited| - 1], visited[|visited| - 1];
      OpenedHas(nodes, init);
      assert visited == init + [last];
    }
  }

  /** A visited directory's parent has it as a child, and so is listed. */
  lemma ParentIsOpened(nodes: map<Path, Node>, init: seq<Path>, last: Path)
    requires TreeShaped(nodes) && (forall k | k in init :: k in nodes) && Distinct(init) && last in nodes && ParentIn(init, last)
    ensures ParentIn(Opened(nodes, init), last)
  {
    if |last| > 1 {
      var parent := last[..|last| - 1];
      assert last == parent + [last[|last| - 1]];
      OpenedHas(nodes, init);
      assert last[|last| - 1] in nodes[parent].children;
    }
  }

  lemma {:induction false} OpenedOrder(nodes: map<Path, Node>, visited: seq<Path>)
    requires TreeShaped(nodes) && (forall k | k in visited :: k in nodes) && Distinct(visited) && ParentsFirst(visited)
    ensures ParentsFirst(Opened(nodes, visited))
    decreases |visited|
  {
    if visited != [] {
      var init, last := visited[..|visited| - 1], visited[|visited| - 1];
      assert forall i | 0 <= i < |init| :: init[..i] == visited[..i] && init[i] == visited[i];
      OpenedOrder(nodes, init);
      assert ParentIn(visited[..|visited| - 1], last);
      ParentIsOpened(nodes, init, last);
      OrderSnoc(Opened(nodes, init), last);
    }
  }

  lemma OrderSnoc(ks: seq<Path>, k: Path)
    requires ParentsFirst(ks) && ParentIn(ks, k)
    ensures ParentsFirst(ks + [k]) && ParentsFirst(ks + [])
  {
    assert ks + [] == ks;
    forall i | 0 <= i < |ks + [k]| ensures ParentIn((ks + [k])[..i], (ks + [k])[i]) {
      if i < |ks| { assert (ks + [k])[..i] == ks[..i]; } else { assert (ks + [k])[..i] == ks; }
    }
  }

  // ---- The loop ----

  class PortableTrie {
    var nodes: map<Path, Node>
    ghost var entries: seq<Entry>

    ghost predicate Valid()
      reads this
    {
      Represents(nodes, entries)
    }

    constructor ()
      ensures Valid() && entries == []
    {
      nodes := map[[] := Node("", false, [])];
      entries := [];
    }

    /** One entry, component by component: accepted exactly when it is compatible with every entry
        before it. A collision abandons the whole listing, so what the trie holds then is not used. */
    method Insert(e: Entry) returns (ok: bool)
      requires Valid() && e.parts != []
      modifies this
      ensures ok <==> forall i | 0 <= i < |old(entries)| :: Compatible(old(entries)[i], e)
      ensures ok ==> Valid() && entries == old(entries) + [e]
    {
      var at: Path := [];
      var index := 0;
      NothingInserted(nodes, entries, e);
      while index < |e.parts|
        invariant index <= |e.parts| && at == Keys(e.parts)[..index] && entries == old(entries)
        invariant Represents(nodes, entries + [if index < |e.parts| then Partial(e, index) else e])
        invariant forall i | 0 <= i < |entries| ::
                    Compatible(entries[i], if index < |e.parts| then Partial(e, index) else e)
      {
        ok := Descend(e, index);
        if !ok { return; }
        at := at + [e.parts[index].key];
        assert at == Keys(e.parts)[..index + 1];
        index := index + 1;
      }
      entries := entries + [e];
      return true;
    }

    /** One turn of the inner loop. */
    method Descend(e: Entry, index: nat) returns (ok: bool)
      requires index < |e.parts| && Represents(nodes, entries + [Partial(e, index)])
      requires forall i | 0 <= i < |entries| :: Compatible(entries[i], Partial(e, index))
      modifies this`nodes
      ensures !ok ==> exists i | 0 <= i < |entries| :: !Compatible(entries[i], e)
      ensures ok ==>
                var so := if index + 1 < |e.parts| then Partial(e, index + 1) else e;
                Represents(nodes, entries + [so]) && forall i | 0 <= i < |entries| :: Compatible(entries[i], so)
    {
      var part := e.parts[index];
      ghost var path := Keys(e.parts);
      var at := Keys(e.parts[..index]);
      var key := at + [part.key];
      KeysOfPrefix(e.parts, index);
      assert key == path[..index + 1];
      var leaf := index == |e.parts| - 1 && e.leaf;
      NextComponent(nodes, entries, e, index);
      if key !in nodes {
        NewChild(nodes, entries, e, index);
        nodes := WithChild(nodes, at, part);
      } else if nodes[key].component != part.name {
        MisspelledCollides(nodes, entries, e, index);
        return false;
      } else {
        FoundChild(nodes, entries, e, index);
      }
      if nodes[key].leaf {
        LeafCollides(nodes, entries, e, index);
        return false;
      }
      if leaf && nodes[key].children != [] {
        assert path[..index + 1] == path;
        DirectoryCollides(nodes, entries, e);
        return false;
      }
      forall i | 0 <= i < |entries| ensures Compatible(entries[i], Entry(e.parts[..index + 1], leaf)) {
        ChecksPassed(nodes, entries, e, index, i, leaf);
      }
      assert index + 1 == |e.parts| ==> e.parts[..index + 1] == e.parts && path[..index + 1] == path;
      if leaf {
        MarkedLeaf(nodes, entries, e);
        nodes := nodes[key := nodes[key].(leaf := true)];
      }
      return true;
    }

    /** The walk over the finished trie, with its stack of directories still to open. */
    method ParentPrefixes() returns (parents: seq<Path>, prefixes: seq<seq<string>>)
      requires Valid()
      ensures forall k :: k in parents <==> k in nodes && k != [] && nodes[k].children != []
      ensures Distinct(parents) && ParentsFirst(parents)
      ensures SpelledOut(nodes, parents, prefixes)
    {
      var ns := nodes;
      TrieIsClosed(ns, entries);
      ghost var visited: seq<Path> := [];
      var pending := Children(ns, [], []);
      parents, prefixes := [], [];
      StackAtRoot(ns);
      while pending != []
        invariant WalkedTo(ns, visited, pending, parents, prefixes)
        decreases ns.Keys - Elements(visited)
      {
        var current := pending[|pending| - 1];
        WalkStep(ns, visited, pending, parents, prefixes);
        if ns[current.path].children != [] {
          parents := parents + [current.path];
          prefixes := prefixes + [current.names];
        }
        pending := pending[..|pending| - 1] + Children(ns, current.path, current.names);
        visited := visited + [current.path];
      }
      WalkEnds(ns, visited, parents, prefixes);
    }
  }

  ghost predicate WalkedTo(nodes: map<Path, Node>, visited: seq<Path>, pending: seq<Pending>,
                           parents: seq<Path>, prefixes: seq<seq<string>>) {
    Walked(nodes, visited, pending) && parents == Opened(nodes, visited) && SpelledOut(nodes, parents, prefixes)
  }

  /** The lists after one directory was taken off the stack. */
  lemma OutputStep(nodes: map<Path, Node>, visited: seq<Path>, current: Pending, parents: seq<Path>, prefixes: seq<seq<string>>)
    requires current.path in nodes && Closed(nodes, current.path) && current.names == NamesAt(nodes, current.path)
    requires (forall x | x in visited :: x in nodes) && parents == Opened(nodes, visited) && SpelledOut(nodes, parents, prefixes)
    ensures var open := nodes[current.path].children != [];
            var after := if open then parents + [current.path] else parents;
            after == Opened(nodes, visited + [current.path])
            && SpelledOut(nodes, after, if open then prefixes + [current.names] else prefixes)
  {
    OpenedSnoc(nodes, visited, current.path);
    assert parents + [] == parents;
  }

  lemma WalkStep(nodes: map<Path, Node>, visited: seq<Path>, pending: seq<Pending>,
                 parents: seq<Path>, prefixes: seq<seq<string>>)
    requires WalkedTo(nodes, visited, pending, parents, prefixes) && pending != []
    ensures var current := pending[|pending| - 1];
            current.path in nodes && (forall c | c in nodes[current.path].children :: current.path + [c] in nodes)
            && nodes.Keys - Elements(visited + [current.path]) < nodes.Keys - Elements(visited)
            && WalkedTo(nodes, visited + [current.path],
                        pending[..|pending| - 1] + Children(nodes, current.path, current.names),
                        if nodes[current.path].children != [] then parents + [current.path] else parents,
                        if nodes[current.path].children != [] then prefixes + [current.names] else prefixes)
  {
    var current := pending[|pending| - 1];
    PopKeeps(nodes, visited, pending);
    OutputStep(nodes, visited, current, parents, prefixes);
    MoreVisited(visited, current.path, nodes.Keys);
  }

  lemma WalkEnds(nodes: map<Path, Node>, visited: seq<Path>, parents: seq<Path>, prefixes: seq<seq<string>>)
    requires WalkedTo(nodes, visited, [], parents, prefixes)
    ensures forall k :: k in parents <==> k in nodes && k != [] && nodes[k].children != []
    ensures Distinct(parents) && ParentsFirst(parents)
  {
    OpenedHas(nodes, visited);
    OpenedOrder(nodes, visited);
    EverythingVisited(nodes, visited);
  }

  lemma EverythingVisited(nodes: map<Path, Node>, visited: seq<Path>)
    requires Walked(nodes, visited, [])
    ensures forall k :: k in visited <==> k in nodes && k != []
  {
    assert forall k | k in nodes && k != [] :: !Covers([], k);
  }

  ghost predicate SpelledOut(nodes: map<Path, Node>, parents: seq<Path>, prefixes: seq<seq<string>>) {
    |prefixes| == |parents|
    && forall i | 0 <= i < |parents| :: Closed(nodes, parents[i]) && prefixes[i] == NamesAt(nodes, parents[i])
  }

  lemma MoreVisited(visited: seq<Path>, k: Path, all: set<Path>)
    requires k in all && k !in visited
    ensures all - Elements(visited + [k]) < all - Elements(visited)
  {
    assert k in all - Elements(visited) && k in Elements(visited + [k]);
    assert forall x | x in visited :: x in visited + [k];
  }

  lemma NextComponent(nodes: map<Path, Node>, es: seq<Entry>, e: Entry, index: nat)
    requires index < |e.parts| && Represents(nodes, es + [Partial(e, index)])
    ensures Keys(e.parts)[..index] in nodes
  {
    PartialReaches(e, index, []);
    ReachedAppend(es, Partial(e, index), Keys(e.parts)[..index]);
  }

  // ---- The whole listing ----

  /** Accepts a listing exactly when no two of its entries collide. */
  method CheckListing(es: seq<Entry>) returns (ok: bool, trie: PortableTrie)
    requires forall i | 0 <= i < |es| :: es[i].parts != []
    ensures ok <==> AllCompatible(es)
    ensures ok ==> trie.Valid() && trie.entries == es
  {
    trie := new PortableTrie();
    for i := 0 to |es|
      invariant trie.Valid() && trie.entries == es[..i] && AllCompatible(es[..i]) && fresh(trie)
    {
      ok := trie.Insert(es[i]);
      assert forall j | 0 <= j < i :: es[..i][j] == es[j];
      if !ok {
        assert exists j | 0 <= j < i :: !Compatible(es[j], es[i]);
        return;
      }
      assert es[..i + 1] == es[..i] + [es[i]];
    }
    assert es[..|es|] == es;
    ok := true;
  }

  /** Between leaves the order of listing is immaterial: equal folded prefixes are spelled alike, and
      neither folded path is the other's or leads to it. */
  lemma LeavesCollideSymmetrically(a: Entry, b: Entry)
    requires a.leaf && b.leaf
    ensures Compatible(a, b) <==>
              SpelledAlike(a, b) && !(Keys(a.parts) <= Keys(b.parts)) && !(Keys(b.parts) <= Keys(a.parts))
    ensures Compatible(a, b) == Compatible(b, a)
  {
    assert Keys(b.parts) <= Keys(a.parts) && Keys(b.parts) != Keys(a.parts) ==> Keys(b.parts) < Keys(a.parts);
  }

  predicate ProperPrefix(e: Entry, n: nat, k: Path) {
    0 < n < |e.parts| && Keys(e.parts)[..n] == k
  }

  /** A directory with something in it is a proper prefix of some listed path, and conversely. */
  lemma ParentIsProperPrefix(nodes: map<Path, Node>, es: seq<Entry>, k: Path)
    requires Represents(nodes, es) && k != []
    ensures k in nodes && nodes[k].children != []
            <==> exists i, n: nat :: 0 <= i < |es| && ProperPrefix(es[i], n, k)
  {
    if k in nodes && nodes[k].children != [] {
      assert NodeFits(nodes, es, k);
      var c := nodes[k].children[0];
      assert c in nodes[k].children && k + [c] in nodes;
      var i :| 0 <= i < |es| && Leads(es[i], k + [c]);
      assert (k + [c])[..|k|] == k;
      assert ProperPrefix(es[i], |k|, k);
    }
    if i, n: nat :| 0 <= i < |es| && ProperPrefix(es[i], n, k) {
      assert Leads(es[i], k);
      assert Reached(es, k);
      ChildOnTheWay(nodes, es, i, k);
    }
  }

  /** And its spelled prefix is that path's, whichever path it is read from. */
  lemma PrefixSpelledAlike(nodes: map<Path, Node>, es: seq<Entry>, i: nat, n: nat)
    requires Represents(nodes, es) && i < |es| && n <= |es[i].parts|
    ensures var k := Keys(es[i].parts)[..n]; Closed(nodes, k) && NamesAt(nodes, k) == Names(es[i].parts)[..n]
  {
    var k := Keys(es[i].parts)[..n];
    forall m | 0 <= m <= n ensures k[..m] in nodes {
      assert k[..m] == Keys(es[i].parts)[..m];
      assert Leads(es[i], k[..m]);
      assert Reached(es, k[..m]);
    }
    forall m | 0 <= m < n ensures NamesAt(nodes, k)[m] == Names(es[i].parts)[m] {
      var p := k[..m + 1];
      assert p in nodes && NodeFits(nodes, es, p) && p == Keys(es[i].parts)[..m + 1];
      assert SpellsHere(es[i], p, nodes[p].component);
    }
  }

  predicate SpelledPrefix(e: Entry, n: nat, names: seq<string>) {
    0 < n < |e.parts| && Names(e.parts)[..n] == names
  }

  /** A component's key is computed from its name. */
  ghost predicate KeysFollowNames(es: seq<Entry>) {
    forall i, j, m, n | 0 <= i < |es| && 0 <= j < |es| && 0 <= m < |es[i].parts| && 0 <= n < |es[j].parts|
                        && es[i].parts[m].name == es[j].parts[n].name :: es[i].parts[m].key == es[j].parts[n].key
  }

  /** What the walk over an accepted listing returns: the proper prefixes of the listed paths, as they
      are spelled, all of them and each once. */
  lemma ParentPrefixesAre(nodes: map<Path, Node>, es: seq<Entry>, parents: seq<Path>, prefixes: seq<seq<string>>)
    requires Represents(nodes, es) && SpelledOut(nodes, parents, prefixes) && Distinct(parents)
    requires forall k :: k in parents <==> k in nodes && k != [] && nodes[k].children != []
    ensures forall names :: names in prefixes <==> exists i, n: nat :: 0 <= i < |es| && SpelledPrefix(es[i], n, names)
    ensures KeysFollowNames(es) ==> Distinct(prefixes)
  {
    forall x | 0 <= x < |prefixes| ensures exists i, n: nat :: 0 <= i < |es| && SpelledPrefix(es[i], n, prefixes[x]) && ProperPrefix(es[i], n, parents[x]) {
      assert parents[x] in parents;
      ParentIsProperPrefix(nodes, es, parents[x]);
      var i, n: nat :| 0 <= i < |es| && ProperPrefix(es[i], n, parents[x]);
      PrefixSpelledAlike(nodes, es, i, n);
      assert SpelledPrefix(es[i], n, prefixes[x]);
    }
    forall i, n: nat | 0 <= i < |es| && 0 < n < |es[i].parts| ensures Names(es[i].parts)[..n] in prefixes {
      PrefixIsListed(nodes, es, parents, prefixes, i, n);
    }
    if KeysFollowNames(es) {
      forall x, y | 0 <= x < y < |prefixes| ensures prefixes[x] != prefixes[y] {
        var i, m: nat :| 0 <= i < |es| && SpelledPrefix(es[i], m, prefixes[x]) && ProperPrefix(es[i], m, parents[x]);
        var j, n: nat :| 0 <= j < |es| && SpelledPrefix(es[j], n, prefixes[y]) && ProperPrefix(es[j], n, parents[y]);
        SameNamesSameKeys(es, i, m, j, n);
      }
    }
  }

  lemma PrefixIsListed(nodes: map<Path, Node>, es: seq<Entry>, parents: seq<Path>, prefixes: seq<seq<string>>, i: nat, n: nat)
    requires Represents(nodes, es) && SpelledOut(nodes, parents, prefixes) && i < |es| && 0 < n < |es[i].parts|
    requires forall k :: k in parents <==> k in nodes && k != [] && nodes[k].children != []
    ensures Names(es[i].parts)[..n] in prefixes
  {
    var k := Keys(es[i].parts)[..n];
    assert ProperPrefix(es[i], n, k);
    ParentIsProperPrefix(nodes, es, k);
    var x :| 0 <= x < |parents| && parents[x] == k;
    PrefixSpelledAlike(nodes, es, i, n);
    assert prefixes[x] == Names(es[i].parts)[..n];
  }

  lemma SameNamesSameKeys(es: seq<Entry>, i: nat, m: nat, j: nat, n: nat)
    requires KeysFollowNames(es) && i < |es| && j < |es| && m <= |es[i].parts| && n <= |es[j].parts|
    ensures Names(es[i].parts)[..m] == Names(es[j].parts)[..n] ==> Keys(es[i].parts)[..m] == Keys(es[j].parts)[..n]
  {
    if Names(es[i].parts)[..m] == Names(es[j].parts)[..n] {
      assert m == n;
      forall x | 0 <= x < m ensures Keys(es[i].parts)[..m][x] == Keys(es[j].parts)[..n][x] {
        assert Names(es[i].parts)[..m][x] == es[i].parts[x].name && Names(es[j].parts)[..n][x] == es[j].parts[x].name;
      }
    }
  }
}
