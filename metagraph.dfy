/** The metaParent / metaChildren relation between rig nodes, read off the scene,
    and the post-order descendant listing that getAllMetaChildren computes. */
module MetaGraph {
  import opened Outcomes
  import opened Scene

  const MetaChildren: Name := "metaChildren"
  const MetaParent: Name := "metaParent"

  /** getMetaChildren: the nodes feeding n.metaChildren, in index order. */
  function Children(d: Doc, n: Node): seq<Node> {
    ListConnections(d, Plug(n, MetaChildren))
  }

  function Height(rank: map<Node, nat>, n: Node): nat {
    if n in rank then rank[n] else 0
  }

  /** rank strictly decreases along every metaChildren edge: a witness that the
      edges have no cycle, under which the recursive traversal terminates. */
  ghost predicate Ranked(d: Doc, rank: map<Node, nat>) {
    forall n, c {:trigger c in Children(d, n)} :: c in Children(d, n) ==> n in rank && c in rank && rank[c] < rank[n]
  }

  lemma RankedEdge(d: Doc, rank: map<Node, nat>, n: Node, c: Node)
    requires Ranked(d, rank) && c in Children(d, n)
    ensures n in rank && c in rank && Height(rank, c) < Height(rank, n)
  {
  }

  lemma ChildrenBelow(d: Doc, rank: map<Node, nat>, n: Node)
    requires Ranked(d, rank)
    ensures forall c <- Children(d, n) :: Height(rank, c) < Height(rank, n)
  {
    forall c <- Children(d, n) ensures Height(rank, c) < Height(rank, n) {
      RankedEdge(d, rank, n, c);
    }
  }

  ghost predicate Acyclic(d: Doc) {
    exists rank :: Ranked(d, rank)
  }

  ghost function SomeRank(d: Doc): (rank: map<Node, nat>)
    requires Acyclic(d)
    ensures Ranked(d, rank)
  {
    var rank :| Ranked(d, rank); rank
  }

  /** Every node listed as a meta child carries a metaChildren attribute, so the
      traversal never lists a plug that does not exist. */
  ghost predicate Linked(d: Doc) {
    forall n, c {:trigger c in Children(d, n)} :: c in Children(d, n) ==> HasAttr(d, c, MetaChildren)
  }

  /** The nested recursive helper: the descendants of n, then n itself. */
  ghost function Subtree(d: Doc, rank: map<Node, nat>, n: Node): seq<Node>
    requires Ranked(d, rank)
    decreases Height(rank, n), 1
  {
    Subtrees(d, rank, Children(d, n), Height(rank, n)) + [n]
  }

  /** The helper applied to each node of cs in turn, appending to one list. */
  ghost function Subtrees(d: Doc, rank: map<Node, nat>, cs: seq<Node>, bound: nat): seq<Node>
    requires Ranked(d, rank)
    requires forall c <- cs :: Height(rank, c) < bound
    decreases bound, 0, |cs|
  {
    if cs == [] then [] else Subtree(d, rank, cs[0]) + Subtrees(d, rank, cs[1..], bound)
  }

  /** getAllMetaChildren(n): the helper applied to each child of n. */
  ghost function Descendants(d: Doc, rank: map<Node, nat>, n: Node): seq<Node>
    requires Ranked(d, rank)
  {
    Subtrees(d, rank, Children(d, n), Height(rank, n))
  }

  ghost function AllMetaChildren(d: Doc, n: Node): seq<Node>
    requires Acyclic(d)
  {
    Descendants(d, SomeRank(d), n)
  }

  // ---------------------------------------------------------------- structure of the listing

  lemma {:induction false} SubtreesAppend(d: Doc, rank: map<Node, nat>, cs: seq<Node>, c: Node, bound: nat)
    requires Ranked(d, rank)
    requires forall x <- cs + [c] :: Height(rank, x) < bound
    ensures Subtrees(d, rank, cs + [c], bound) == Subtrees(d, rank, cs, bound) + Subtree(d, rank, c)
    decreases |cs|
  {
    if cs == [] {
      assert [c][1..] == [];
    } else {
      assert (cs + [c])[1..] == cs[1..] + [c];
      SubtreesAppend(d, rank, cs[1..], c, bound);
    }
  }

  lemma {:induction false} SubtreesMember(d: Doc, rank: map<Node, nat>, cs: seq<Node>, bound: nat, x: Node)
    requires Ranked(d, rank)
    requires forall c <- cs :: Height(rank, c) < bound
    ensures x in Subtrees(d, rank, cs, bound) <==> exists c <- cs :: x in Subtree(d, rank, c)
    decreases |cs|
  {
    if cs != [] {
      SubtreesMember(d, rank, cs[1..], bound, x);
      if x in Subtree(d, rank, cs[0]) {
        assert cs[0] in cs;
      } else if x in Subtrees(d, rank, cs[1..], bound) {
        var c :| c in cs[1..] && x in Subtree(d, rank, c);
        assert c in cs;
      }
      if exists c <- cs :: x in Subtree(d, rank, c) {
        var c :| c in cs && x in Subtree(d, rank, c);
        if c != cs[0] {
          assert c in cs[1..];
        }
      }
    }
  }

  /** Every node listed below n ranks strictly lower than n. */
  lemma {:induction false} SubtreeBelow(d: Doc, rank: map<Node, nat>, n: Node)
    requires Ranked(d, rank)
    ensures forall x <- Subtree(d, rank, n) :: Height(rank, x) <= Height(rank, n)
    decreases Height(rank, n), 1
  {
    SubtreesBelow(d, rank, Children(d, n), Height(rank, n));
  }

  lemma {:induction false} SubtreesBelow(d: Doc, rank: map<Node, nat>, cs: seq<Node>, bound: nat)
    requires Ranked(d, rank)
    requires forall c <- cs :: Height(rank, c) < bound
    ensures forall x <- Subtrees(d, rank, cs, bound) :: Height(rank, x) < bound
    decreases bound, 0, |cs|
  {
    if cs != [] {
      SubtreeBelow(d, rank, cs[0]);
      SubtreesBelow(d, rank, cs[1..], bound);
    }
  }

  /** getAllMetaChildren never lists its start node; a childless node gives []. */
  lemma DescendantsExcludeStart(d: Doc, rank: map<Node, nat>, n: Node)
    requires Ranked(d, rank)
    ensures n !in Descendants(d, rank, n)
    ensures Children(d, n) == [] ==> Descendants(d, rank, n) == []
  {
    SubtreesBelow(d, rank, Children(d, n), Height(rank, n));
  }

  /** The subtree of a child lies inside the subtree of its parent. */
  lemma SubtreeWithin(d: Doc, rank: map<Node, nat>, b: Node, c: Node)
    requires Ranked(d, rank) && c in Children(d, b)
    ensures forall y <- Subtree(d, rank, c) :: y in Descendants(d, rank, b)
    ensures forall y <- Subtree(d, rank, c) :: y in Subtree(d, rank, b)
  {
    forall y <- Subtree(d, rank, c) ensures y in Descendants(d, rank, b) {
      SubtreesMember(d, rank, Children(d, b), Height(rank, b), y);
    }
  }

  // ---------------------------------------------------------------- reachability

  ghost predicate IsPath(d: Doc, p: seq<Node>) {
    |p| >= 1 && forall i :: 0 <= i < |p| - 1 ==> p[i + 1] in Children(d, p[i])
  }

  /** x is reached from n by one or more metaChildren edges. */
  ghost predicate Reaches(d: Doc, n: Node, x: Node) {
    exists p :: IsPath(d, p) && |p| >= 2 && p[0] == n && p[|p| - 1] == x
  }

  /** One edge followed by a path, or by nothing, is a path. */
  lemma ReachesStep(d: Doc, n: Node, c: Node, x: Node)
    requires c in Children(d, n) && (x == c || Reaches(d, c, x))
    ensures Reaches(d, n, x)
  {
    if x == c {
      var p := [n, c];
      assert IsPath(d, p) && p[0] == n && p[|p| - 1] == x;
    } else {
      var q :| IsPath(d, q) && |q| >= 2 && q[0] == c && q[|q| - 1] == x;
      PathCons(d, n, q);
      var p := [n] + q;
      assert p[0] == n && p[|p| - 1] == x;
    }
  }

  /** A path whose first node is a child of n extends back to n. */
  lemma PathCons(d: Doc, n: Node, q: seq<Node>)
    requires IsPath(d, q) && q[0] in Children(d, n)
    ensures IsPath(d, [n] + q)
  {
    var p := [n] + q;
    forall i | 0 <= i < |p| - 1 ensures p[i + 1] in Children(d, p[i]) {
      if i > 0 { assert p[i] == q[i - 1] && p[i + 1] == q[i]; }
    }
  }

  lemma {:induction false} SubtreeReaches(d: Doc, rank: map<Node, nat>, n: Node, x: Node)
    requires Ranked(d, rank) && x in Subtree(d, rank, n)
    ensures x == n || Reaches(d, n, x)
    decreases Height(rank, n)
  {
    if x != n {
      var cs := Children(d, n);
      SubtreesMember(d, rank, cs, Height(rank, n), x);
      var c :| c in cs && x in Subtree(d, rank, c);
      SubtreeReaches(d, rank, c, x);
      ReachesStep(d, n, c, x);
    }
  }

  lemma {:induction false} PathListed(d: Doc, rank: map<Node, nat>, p: seq<Node>)
    requires Ranked(d, rank) && IsPath(d, p) && |p| >= 2
    ensures p[|p| - 1] in Descendants(d, rank, p[0])
    decreases |p|
  {
    var c := p[1];
    assert c in Children(d, p[0]);
    SubtreeWithin(d, rank, p[0], c);
    if |p| > 2 {
      var q := p[1..];
      assert IsPath(d, q) by {
        forall i | 0 <= i < |q| - 1 ensures q[i + 1] in Children(d, q[i]) {
          assert q[i] == p[i + 1] && q[i + 1] == p[i + 2];
        }
      }
      PathListed(d, rank, q);
      assert p[|p| - 1] in Subtree(d, rank, c);
    }
  }

  /** getAllMetaChildren(n) lists exactly the nodes reachable from n through
      metaChildren edges, whichever rank witnesses acyclicity. */
  lemma DescendantsAreReachable(d: Doc, rank: map<Node, nat>, n: Node, x: Node)
    requires Ranked(d, rank)
    ensures x in Descendants(d, rank, n) <==> Reaches(d, n, x)
  {
    if x in Descendants(d, rank, n) {
      var cs := Children(d, n);
      SubtreesMember(d, rank, cs, Height(rank, n), x);
      var c :| c in cs && x in Subtree(d, rank, c);
      SubtreeReaches(d, rank, c, x);
      ReachesStep(d, n, c, x);
    }
    if Reaches(d, n, x) {
      var p :| IsPath(d, p) && |p| >= 2 && p[0] == n && p[|p| - 1] == x;
      PathListed(d, rank, p);
    }
  }

  // ---------------------------------------------------------------- post-order

  ghost predicate EndsWith<T>(s: seq<T>, t: seq<T>) {
    |t| <= |s| && s[|s| - |t|..] == t
  }

  /** Every entry is immediately preceded by its own complete descendant listing. */
  ghost predicate PostOrdered(d: Doc, rank: map<Node, nat>, s: seq<Node>)
    requires Ranked(d, rank)
  {
    forall i :: 0 <= i < |s| ==> EndsWith(s[..i], Descendants(d, rank, s[i]))
  }

  lemma PostOrderedConcat(d: Doc, rank: map<Node, nat>, a: seq<Node>, b: seq<Node>)
    requires Ranked(d, rank) && PostOrdered(d, rank, a) && PostOrdered(d, rank, b)
    ensures PostOrdered(d, rank, a + b)
  {
    var s := a + b;
    forall i | 0 <= i < |s| ensures EndsWith(s[..i], Descendants(d, rank, s[i])) {
      if i < |a| {
        assert s[..i] == a[..i] && s[i] == a[i];
      } else {
        var j := i - |a|;
        assert s[..i] == a + b[..j] && s[i] == b[j];
        EndsWithPrefixed(a, b[..j], Descendants(d, rank, b[j]));
      }
    }
  }

  lemma EndsWithPrefixed<T>(a: seq<T>, u: seq<T>, t: seq<T>)
    requires EndsWith(u, t)
    ensures EndsWith(a + u, t)
  {
    assert (a + u)[|a + u| - |t|..] == u[|u| - |t|..];
  }

  lemma {:induction false} SubtreePostOrdered(d: Doc, rank: map<Node, nat>, n: Node)
    requires Ranked(d, rank)
    ensures PostOrdered(d, rank, Subtree(d, rank, n))
    decreases Height(rank, n), 1
  {
    var ds := Descendants(d, rank, n);
    SubtreesPostOrdered(d, rank, Children(d, n), Height(rank, n));
    var s := ds + [n];
    forall i | 0 <= i < |s| ensures EndsWith(s[..i], Descendants(d, rank, s[i])) {
      if i < |ds| {
        assert s[..i] == ds[..i] && s[i] == ds[i];
      } else {
        assert s[..i] == ds;
      }
    }
  }

  lemma {:induction false} SubtreesPostOrdered(d: Doc, rank: map<Node, nat>, cs: seq<Node>, bound: nat)
    requires Ranked(d, rank)
    requires forall c <- cs :: Height(rank, c) < bound
    ensures PostOrdered(d, rank, Subtrees(d, rank, cs, bound))
    decreases bound, 0, |cs|
  {
    if cs != [] {
      SubtreePostOrdered(d, rank, cs[0]);
      SubtreesPostOrdered(d, rank, cs[1..], bound);
      PostOrderedConcat(d, rank, Subtree(d, rank, cs[0]), Subtrees(d, rank, cs[1..], bound));
    }
  }

  /** getAllMetaChildren is post-order: each listed node is immediately preceded
      by its own complete descendant listing. */
  lemma DescendantsPostOrdered(d: Doc, rank: map<Node, nat>, n: Node)
    requires Ranked(d, rank)
    ensures PostOrdered(d, rank, Descendants(d, rank, n))
  {
    SubtreesPostOrdered(d, rank, Children(d, n), Height(rank, n));
  }

  /** Hence each listed node comes after every one of its descendants. */
  lemma DescendantsBefore(d: Doc, rank: map<Node, nat>, n: Node, i: nat, x: Node)
    requires Ranked(d, rank)
    requires i < |Descendants(d, rank, n)|
    requires x in Descendants(d, rank, Descendants(d, rank, n)[i])
    ensures x in Descendants(d, rank, n)[..i]
  {
    var s := Descendants(d, rank, n);
    DescendantsPostOrdered(d, rank, n);
    var t := Descendants(d, rank, s[i]);
    assert EndsWith(s[..i], t);
    var k :| 0 <= k < |t| && t[k] == x;
    assert s[..i][|s[..i]| - |t|..][k] == x;
  }

  // ---------------------------------------------------------------- forests

  ghost predicate ParentOf(d: Doc, p: Node, c: Node) {
    c in Children(d, p)
  }

  /** Each node is listed as a meta child at most once, under at most one parent. */
  ghost predicate SingleParent(d: Doc) {
    && (forall p1, p2, c :: ParentOf(d, p1, c) && ParentOf(d, p2, c) ==> p1 == p2)
    && (forall p :: Distinct(Children(d, p)))
  }

  lemma SameParent(d: Doc, p1: Node, p2: Node, c: Node)
    requires SingleParent(d) && c in Children(d, p1) && c in Children(d, p2)
    ensures p1 == p2
  {
    assert ParentOf(d, p1, c) && ParentOf(d, p2, c);
  }

  /** Every proper descendant of b is listed as a child of some node of b's subtree. */
  lemma {:induction false} ParentInside(d: Doc, rank: map<Node, nat>, b: Node, x: Node)
    requires Ranked(d, rank) && x in Descendants(d, rank, b)
    ensures exists q :: q in Subtree(d, rank, b) && x in Children(d, q)
    decreases Height(rank, b)
  {
    DescendantVia(d, rank, b, x);
    var c :| c in Children(d, b) && x in Subtree(d, rank, c);
    RankedEdge(d, rank, b, c);
    SubtreeSplit(d, rank, c, x);
    SubtreeSplit(d, rank, b, b);
    if x != c {
      ParentInside(d, rank, c, x);
      var q :| q in Subtree(d, rank, c) && x in Children(d, q);
      SubtreeWithin(d, rank, b, c);
      assert q in Subtree(d, rank, b);
    }
  }

  /** A subtree is its root and the root's descendants. */
  lemma SubtreeSplit(d: Doc, rank: map<Node, nat>, c: Node, x: Node)
    requires Ranked(d, rank)
    ensures x in Subtree(d, rank, c) <==> x == c || x in Descendants(d, rank, c)
  {
  }

  /** Every descendant of a lies in the subtree of one of a's children. */
  lemma DescendantVia(d: Doc, rank: map<Node, nat>, a: Node, y: Node)
    requires Ranked(d, rank) && y in Descendants(d, rank, a)
    ensures exists a1 :: a1 in Children(d, a) && y in Subtree(d, rank, a1)
  {
    SubtreesMember(d, rank, Children(d, a), Height(rank, a), y);
  }

  /** A child of a listed inside the subtree of a child of b puts a inside b's subtree. */
  lemma Lift(d: Doc, rank: map<Node, nat>, a: Node, a1: Node, b: Node, b1: Node)
    requires Ranked(d, rank) && SingleParent(d)
    requires a1 in Children(d, a) && b1 in Children(d, b) && a1 in Subtree(d, rank, b1)
    ensures a in Subtree(d, rank, b)
  {
    if a1 == b1 {
      SameParent(d, a, b, a1);
      assert b in Subtree(d, rank, b);
    } else {
      assert a1 in Descendants(d, rank, b1);
      ParentInside(d, rank, b1, a1);
      var q :| q in Subtree(d, rank, b1) && a1 in Children(d, q);
      SameParent(d, q, a, a1);
      SubtreeWithin(d, rank, b, b1);
    }
  }

  /** In a forest two subtrees that share a node are nested. */
  lemma {:induction false} Comparable(d: Doc, rank: map<Node, nat>, a: Node, b: Node, y: Node)
    requires Ranked(d, rank) && SingleParent(d)
    requires y in Subtree(d, rank, a) && y in Subtree(d, rank, b)
    ensures a in Subtree(d, rank, b) || b in Subtree(d, rank, a)
    decreases Height(rank, a) + Height(rank, b)
  {
    if y != a && y != b {
      assert y in Descendants(d, rank, a) && y in Descendants(d, rank, b);
      DescendantVia(d, rank, a, y);
      var a1 :| a1 in Children(d, a) && y in Subtree(d, rank, a1);
      DescendantVia(d, rank, b, y);
      var b1 :| b1 in Children(d, b) && y in Subtree(d, rank, b1);
      RankedEdge(d, rank, a, a1);
      RankedEdge(d, rank, b, b1);
      Comparable(d, rank, a1, b1, y);
      if a1 in Subtree(d, rank, b1) {
        Lift(d, rank, a, a1, b, b1);
      } else {
        Lift(d, rank, b, b1, a, a1);
      }
    }
  }

  /** A node of b's subtree other than b is never a child of b's parent. */
  lemma NotBesideParent(d: Doc, rank: map<Node, nat>, n: Node, a: Node, b: Node)
    requires Ranked(d, rank) && SingleParent(d)
    requires a in Children(d, n) && b in Children(d, n) && a != b
    ensures a !in Subtree(d, rank, b)
  {
    if a in Subtree(d, rank, b) {
      assert a in Descendants(d, rank, b);
      ParentInside(d, rank, b, a);
      var q :| q in Subtree(d, rank, b) && a in Children(d, q);
      SameParent(d, q, n, a);
      SubtreeBelow(d, rank, b);
      RankedEdge(d, rank, n, b);
      assert false;
    }
  }

  /** In a forest the subtrees of two different children of one node are disjoint. */
  lemma SiblingsDisjoint(d: Doc, rank: map<Node, nat>, n: Node, a: Node, b: Node, y: Node)
    requires Ranked(d, rank) && SingleParent(d)
    requires a in Children(d, n) && b in Children(d, n) && a != b
    ensures !(y in Subtree(d, rank, a) && y in Subtree(d, rank, b))
  {
    if y in Subtree(d, rank, a) && y in Subtree(d, rank, b) {
      Comparable(d, rank, a, b, y);
      NotBesideParent(d, rank, n, a, b);
      NotBesideParent(d, rank, n, b, a);
    }
  }

  lemma {:induction false} SubtreeDistinct(d: Doc, rank: map<Node, nat>, n: Node)
    requires Ranked(d, rank) && SingleParent(d)
    ensures Distinct(Subtree(d, rank, n))
    decreases Height(rank, n), 1
  {
    SubtreesDistinct(d, rank, n, Children(d, n), Height(rank, n));
    DescendantsExcludeStart(d, rank, n);
    DistinctConcat(Descendants(d, rank, n), [n]);
  }

  lemma {:induction false} SubtreesDistinct(d: Doc, rank: map<Node, nat>, parent: Node, cs: seq<Node>, bound: nat)
    requires Ranked(d, rank) && SingleParent(d)
    requires forall c <- cs :: Height(rank, c) < bound
    requires Distinct(cs) && forall c <- cs :: c in Children(d, parent)
    ensures Distinct(Subtrees(d, rank, cs, bound))
    decreases bound, 0, |cs|
  {
    if cs != [] {
      DistinctTail(cs);
      SubtreeDistinct(d, rank, cs[0]);
      SubtreesDistinct(d, rank, parent, cs[1..], bound);
      var rest := Subtrees(d, rank, cs[1..], bound);
      forall y <- Subtree(d, rank, cs[0]) ensures y !in rest {
        if y in rest {
          SubtreesMember(d, rank, cs[1..], bound, y);
          var c :| c in cs[1..] && y in Subtree(d, rank, c);
          SiblingsDisjoint(d, rank, parent, cs[0], c, y);
        }
      }
      DistinctConcat(Subtree(d, rank, cs[0]), rest);
    }
  }

  /** On a forest getAllMetaChildren lists every descendant exactly once. */
  lemma DescendantsDistinct(d: Doc, rank: map<Node, nat>, n: Node)
    requires Ranked(d, rank) && SingleParent(d)
    ensures Distinct(Descendants(d, rank, n))
  {
    SubtreesDistinct(d, rank, n, Children(d, n), Height(rank, n));
  }

  // ---------------------------------------------------------------- re-parenting keeps the graph acyclic

  /** A subtree contains the children of each of its nodes. */
  lemma {:induction false} SubtreeClosed(d: Doc, rank: map<Node, nat>, n: Node, x: Node, c: Node)
    requires Ranked(d, rank) && x in Subtree(d, rank, n) && c in Children(d, x)
    ensures c in Subtree(d, rank, n)
    decreases Height(rank, n)
  {
    if x == n {
      SubtreeWithin(d, rank, n, c);
      assert c in Subtree(d, rank, c);
    } else {
      assert x in Descendants(d, rank, n);
      DescendantVia(d, rank, n, x);
      var a1 :| a1 in Children(d, n) && x in Subtree(d, rank, a1);
      RankedEdge(d, rank, n, a1);
      SubtreeClosed(d, rank, a1, x, c);
      SubtreeWithin(d, rank, n, a1);
    }
  }

  /** The ranks after re-parenting: child's subtree keeps its ranks and every
      other node is lifted above the whole subtree. */
  ghost function Lifted(d: Doc, rank: map<Node, nat>, parent: Node, child: Node): map<Node, nat>
    requires Ranked(d, rank)
  {
    map x | x in rank.Keys + {parent, child} ::
      Height(rank, x) + (if x in Subtree(d, rank, child) then 0 else Height(rank, child) + 1)
  }

  lemma LiftedEdge(d: Doc, rank: map<Node, nat>, parent: Node, child: Node, x: Node, c: Node)
    requires Ranked(d, rank) && parent !in Subtree(d, rank, child)
    requires c in Children(d, x) || (x == parent && c == child)
    ensures var r := Lifted(d, rank, parent, child); x in r && c in r && r[c] < r[x]
  {
    var sub := Subtree(d, rank, child);
    if c in Children(d, x) {
      RankedEdge(d, rank, x, c);
      if x in sub {
        SubtreeClosed(d, rank, child, x, c);
      }
    } else {
      assert child in sub;
    }
  }

  /** Removing edges from a ranked graph and adding one edge parent -> child, where
      parent lies outside child's subtree, leaves an acyclic graph. */
  lemma RerankedAcyclic(d: Doc, d': Doc, rank: map<Node, nat>, parent: Node, child: Node)
    requires Ranked(d, rank)
    requires parent !in Subtree(d, rank, child)
    requires forall x, c :: c in Children(d', x) ==> c in Children(d, x) || (x == parent && c == child)
    ensures Acyclic(d')
  {
    var r := Lifted(d, rank, parent, child);
    forall x, c | c in Children(d', x) ensures x in r && c in r && r[c] < r[x] {
      LiftedEdge(d, rank, parent, child, x, c);
    }
    assert Ranked(d', r);
  }

  /** A node among its own meta children admits no ranking. */
  lemma SelfLoopNotAcyclic(d: Doc, n: Node)
    requires n in Children(d, n)
    ensures !Acyclic(d)
  {
    if Acyclic(d) {
      RankedEdge(d, SomeRank(d), n, n);
    }
  }
}
