/** Concrete scenes on which parentConnect as written goes wrong, next to what the
    corrected definitions do on the same scenes. */
module Findings {
  import opened Outcomes
  import opened Scene
  import opened MetaGraph
  import opened MetaLinks
  import opened LegacyRig

  /** The attributes addRigNode gives a rig node, as far as parentConnect looks. */
  const RigNodeDecls: seq<Decl> := [
    MessageDecl,
    Decl(MetaParent, Message, "metaNode", false),
    Decl(MetaChildren, Message, "metaNode", true)]

  lemma RigNodeDeclared(d: Doc, n: Node)
    requires n in d.attrs && d.attrs[n] == RigNodeDecls
    ensures FindAttr(d, n, MessageAttr) == Some(MessageDecl)
    ensures FindAttr(d, n, MetaParent) == Some(RigNodeDecls[1])
    ensures FindAttr(d, n, MetaChildren) == Some(RigNodeDecls[2])
  {
  }

  // ---------------------------------------------------------------- a node made its own parent

  /** One unparented rig node "a". */
  function Lone(): Doc {
    Doc({"a"}, map["a" := RigNodeDecls], map[], map[], map[])
  }

  lemma LoneRanked()
    ensures Ranked(Lone(), map[])
  {
    forall n ensures Children(Lone(), n) == [] {
    }
  }

  /** "a" is a rig node of d with neither a meta parent nor meta children. */
  ghost predicate LoneIn(d: Doc) {
    && Acyclic(d) && "a" in d.nodes && "a" in d.attrs && d.attrs["a"] == RigNodeDecls
    && Plug("a", MetaChildren) !in d.inputs && Plug("a", MetaChildren) !in d.arrays
    && Plug("a", MetaParent) !in d.inputs && Plug("a", MetaParent) !in d.arrays
  }

  /** d once a's own message is in element 0 of a.metaChildren. */
  function SelfFed(d: Doc): Doc {
    d.(arrays := d.arrays[Plug("a", MetaChildren) := [Some(Msg("a"))]])
  }

  lemma SelfAttached(d: Doc)
    requires LoneIn(d)
    ensures AttachedAsWritten(d, "a", "a") == ParentLinked(SelfFed(d), "a", "a")
    ensures Children(SelfFed(d), "a") == ["a"] && "a" in SelfFed(d).nodes
    ensures Receives(SelfFed(d), "a", MetaParent)
  {
    var P := Plug("a", MetaChildren);
    RigNodeDeclared(d, "a");
    assert ListConnections(d, P) == [];
    assert Place([], 0, Msg("a")) == [Some(Msg("a"))];
    assert ElementConnected(d, Msg("a"), P, 0) == Ok(SelfFed(d));
    assert SlotsOf(SelfFed(d), P) == [Some(Msg("a"))];
    assert Placed([Some(Msg("a"))]) == ["a"];
    RigNodeDeclared(SelfFed(d), "a");
  }

  /** On any scene where "a" stands alone, parentConnect(a, a) as written succeeds and
      lists a among its own meta children, so the scene has a cycle. */
  lemma SelfParentOn(d: Doc)
    requires LoneIn(d)
    ensures var r := ParentConnectedAsWritten(d, "a", "a");
      r.status == Done && "a" in Children(r.doc, "a") && !Acyclic(r.doc)
  {
    Unlisted(d, "a");
    ParentConnectedAsWrittenFromSteps(d, "a", "a");
    SelfAttached(d);
    LinkedEffect(SelfFed(d), "a", "a");
    SelfLoopNotAcyclic(ParentLinked(SelfFed(d), "a", "a").doc, "a");
  }

  /** The corrected parentConnect refuses the same call and leaves the scene alone. */
  lemma SelfParentRefusedOn(d: Doc)
    requires LoneIn(d)
    ensures ParentConnected(d, "a", "a") == Step(Refused(SelfParent), d)
  {
    Unlisted(d, "a");
  }

  /** parentConnect(a, a) as written succeeds and lists a among its own meta children,
      so the scene has a cycle and the next getAllMetaChildren(a) never returns. */
  lemma SelfParentAsWritten()
    ensures Acyclic(Lone())
    ensures var r := ParentConnectedAsWritten(Lone(), "a", "a");
      r.status == Done && "a" in Children(r.doc, "a") && !Acyclic(r.doc)
  {
    LoneRanked();
    SelfParentOn(Lone());
  }

  /** The corrected parentConnect refuses the same call and leaves the scene alone. */
  lemma SelfParentRefused()
    ensures Acyclic(Lone())
    ensures ParentConnected(Lone(), "a", "a") == Step(Refused(SelfParent), Lone())
  {
    LoneRanked();
    SelfParentRefusedOn(Lone());
  }

  // ---------------------------------------------------------------- the same in the old schema

  /** The old schema's shape of Lone(): a scene node "x" whose metaNode is fed by its
      rig-node network "a". */
  function LoneNetworked(): Doc {
    Doc({"a", "x"}, map["a" := RigNodeDecls, "x" := [MessageDecl, Decl(MetaNodeAttr, Message, MetaConnection, false)]],
      map[], map[Plug("x", MetaNodeAttr) := Msg("a")], map[])
  }

  lemma LoneNetworkedIn()
    ensures LoneIn(LoneNetworked())
    ensures MetaNodeOf(LoneNetworked(), "x") == Ok(Some("a"))
  {
    var d := LoneNetworked();
    forall n ensures Children(d, n) == [] {
    }
    assert Ranked(d, map[]);
    assert HasAttr(d, "x", MetaNodeAttr);
    assert ListConnections(d, Plug("x", MetaNodeAttr)) == ["a"];
  }

  /** Old-schema parentConnect(x, x) as written maps both arguments to the network "a"
      and makes it its own meta child. */
  lemma LegacySelfParentAsWritten()
    ensures Acyclic(LoneNetworked())
    ensures var r := LegacyParentConnectedAsWritten(LoneNetworked(), "x", "x");
      r.status == Done && "a" in Children(r.doc, "a") && !Acyclic(r.doc)
  {
    LoneNetworkedIn();
    SelfParentOn(LoneNetworked());
  }

  /** The corrected old-schema parentConnect refuses it with no change. */
  lemma LegacySelfParentRefused()
    ensures Acyclic(LoneNetworked())
    ensures LegacyParentConnected(LoneNetworked(), "x", "x") == Step(Refused(SelfParent), LoneNetworked())
  {
    LoneNetworkedIn();
    SelfParentRefusedOn(LoneNetworked());
  }

  // ---------------------------------------------------------------- a listing position used as an index

  const Nodes: set<Node> := {"p", "q", "b", "c", "e"}

  function Decorated(): map<Node, seq<Decl>> {
    map["p" := RigNodeDecls, "q" := RigNodeDecls, "b" := RigNodeDecls, "c" := RigNodeDecls, "e" := RigNodeDecls]
  }

  function Msg(n: Node): Plug {
    Plug(n, MessageAttr)
  }

  /** p has meta children b and c in elements 0 and 1; q and e stand alone. */
  function Start(): Doc {
    Doc(Nodes, Decorated(), map[],
      map[Plug("b", MetaParent) := Msg("p"), Plug("c", MetaParent) := Msg("p")],
      map[Plug("p", MetaChildren) := [Some(Msg("b")), Some(Msg("c"))]])
  }

  /** The same rig once b has moved under q: element 0 of p.metaChildren is empty. */
  function Holed(): Doc {
    Doc(Nodes, Decorated(), map[],
      map[Plug("b", MetaParent) := Msg("q"), Plug("c", MetaParent) := Msg("p")],
      map[Plug("p", MetaChildren) := [None, Some(Msg("c"))], Plug("q", MetaChildren) := [Some(Msg("b"))]])
  }

  lemma StartRanked()
    ensures Ranked(Start(), map["p" := 1, "b" := 0, "c" := 0])
  {
    var d := Start();
    var rank := map["p" := 1, "b" := 0, "c" := 0];
    forall n, c | c in Children(d, n) ensures n in rank && c in rank && rank[c] < rank[n] {
      var P := Plug(n, MetaChildren);
      assert P !in d.inputs;
      if n == "p" {
        assert SlotsOf(d, P) == [Some(Msg("b")), Some(Msg("c"))];
        assert Placed([Some(Msg("b")), Some(Msg("c"))]) == ["b", "c"];
      }
    }
  }

  lemma HoledRanked()
    ensures Ranked(Holed(), map["p" := 1, "q" := 1, "b" := 0, "c" := 0])
  {
    var d := Holed();
    var rank := map["p" := 1, "q" := 1, "b" := 0, "c" := 0];
    forall n, c | c in Children(d, n) ensures n in rank && c in rank && rank[c] < rank[n] {
      var P := Plug(n, MetaChildren);
      assert P !in d.inputs;
      if n == "p" {
        assert SlotsOf(d, P) == [None, Some(Msg("c"))];
        assert Placed([None, Some(Msg("c"))]) == ["c"];
      } else if n == "q" {
        assert SlotsOf(d, P) == [Some(Msg("b"))];
        assert Placed([Some(Msg("b"))]) == ["b"];
      }
    }
  }

  /** Start once b has left p.metaChildren. */
  function StartDetached(): Doc {
    Start().(arrays := Start().arrays[Plug("p", MetaChildren) := [None, Some(Msg("c"))]])
  }

  lemma DetachFromStart()
    ensures Detached(Start(), "b") == Step(Done, StartDetached())
  {
    var d := Start();
    var S := [Some(Msg("b")), Some(Msg("c"))];
    RigNodeDeclared(d, "b");
    RigNodeDeclared(d, "p");
    assert SlotsOf(d, Plug("p", MetaChildren)) == S;
    assert ListConnections(d, Plug("b", MetaParent)) == ["p"];
    assert SlotIndex(S, Msg("b")) == Some(0);
    assert S[0 := None] == [None, Some(Msg("c"))];
  }

  /** StartDetached() once b's message is in element 0 of q.metaChildren. */
  function StartMoved(): Doc {
    StartDetached().(arrays := StartDetached().arrays[Plug("q", MetaChildren) := [Some(Msg("b"))]])
  }

  lemma StartMovedChildren()
    ensures SlotsOf(StartMoved(), Plug("p", MetaChildren)) == [None, Some(Msg("c"))]
    ensures Children(StartMoved(), "p") == ["c"] && Children(StartMoved(), "q") == ["b"]
  {
    var d2 := StartMoved();
    var P := Plug("p", MetaChildren);
    var Q := Plug("q", MetaChildren);
    assert P !in d2.inputs && Q !in d2.inputs;
    assert SlotsOf(d2, P) == [None, Some(Msg("c"))];
    assert Placed([None, Some(Msg("c"))]) == ["c"];
    assert SlotsOf(d2, Q) == [Some(Msg("b"))];
    assert Placed([Some(Msg("b"))]) == ["b"];
  }

  lemma AttachAfterDetach()
    ensures var r := Attached(StartDetached(), "q", "b");
      && r.status == Done
      && SlotsOf(r.doc, Plug("p", MetaChildren)) == [None, Some(Msg("c"))]
      && Children(r.doc, "p") == ["c"] && Children(r.doc, "q") == ["b"]
  {
    var d1 := StartDetached();
    var Q := Plug("q", MetaChildren);
    assert SlotsOf(d1, Q) == [];
    RigNodeDeclared(d1, "q");
    RigNodeDeclared(d1, "b");
    assert "q" in d1.nodes && "b" in d1.nodes;
    assert Place([], 0, Msg("b")) == [Some(Msg("b"))];
    assert ElementConnected(d1, Msg("b"), Q, 0) == Ok(StartMoved());
    assert Attached(d1, "q", "b") == ParentLinked(StartMoved(), "q", "b");
    LinkedEffect(StartMoved(), "q", "b");
    var r := ParentLinked(StartMoved(), "q", "b");
    assert r.doc.arrays == StartMoved().arrays;
    StartMovedChildren();
  }

  /** On a fresh, packed rig parentConnect as written re-parents b correctly, and in
      doing so leaves a hole at element 0 of p.metaChildren. */
  lemma HoleFromReparenting()
    ensures Acyclic(Start())
    ensures var r := ParentConnectedAsWritten(Start(), "q", "b");
      && r.status == Done
      && SlotsOf(r.doc, Plug("p", MetaChildren)) == [None, Some(Msg("c"))]
      && Children(r.doc, "p") == ["c"] && Children(r.doc, "q") == ["b"]
  {
    StartRanked();
    var d := Start();
    Unparented(d, "b");
    StartPacked();
    ParentConnectedWhenPacked(d, "q", "b");
    DetachFromStart();
    ParentConnectedFromSteps(d, "q", "b");
    AttachAfterDetach();
  }

  lemma StartPacked()
    ensures FormerParent(Start(), "b") == Some("p") && Packed(Start(), "p") && Packed(Start(), "q")
  {
    var d := Start();
    assert ListConnections(d, Plug("b", MetaParent)) == ["p"];
    assert SlotsOf(d, Plug("p", MetaChildren)) == [Some(Msg("b")), Some(Msg("c"))];
  }

  /** A rig node that has no meta children: the traversal from it lists nothing. */
  lemma Unparented(d: Doc, n: Node)
    requires Acyclic(d) && n != "" && n in d.attrs && d.attrs[n] == RigNodeDecls
    requires Plug(n, MetaChildren) !in d.inputs && Plug(n, MetaChildren) !in d.arrays
    ensures Children(d, n) == [] && Traversable(d, SomeRank(d), n) && AllMetaChildren(d, n) == []
  {
    assert Subtree(d, SomeRank(d), n) == [n];
    RigNodeDeclared(d, n);
  }

  /** As written, parentConnect(p, e) connects e to element 1, the number of children
      p lists, which c already feeds: connectAttr raises. */
  lemma AttachIntoHoleAsWritten()
    ensures Acyclic(Holed())
    ensures ParentConnectedAsWritten(Holed(), "p", "e") == Step(Raised(SlotTaken), Holed())
  {
    HoledRanked();
    Unlisted(Holed(), "e");
    ParentConnectedAsWrittenFromSteps(Holed(), "p", "e");
    AttachedIntoHole();
  }

  lemma AttachedIntoHole()
    ensures AttachedAsWritten(Holed(), "p", "e") == Step(Raised(SlotTaken), Holed())
  {
    var d := Holed();
    var P := Plug("p", MetaChildren);
    RigNodeDeclared(d, "p");
    RigNodeDeclared(d, "e");
    assert "p" in d.nodes && "e" in d.nodes;
    assert SlotsOf(d, P) == [None, Some(Msg("c"))];
    assert ListConnections(d, P) == ["c"] by {
      assert Placed([None, Some(Msg("c"))]) == ["c"];
    }
    assert ElementConnected(d, Msg("e"), P, 1) == Fail(SlotTaken);
  }

  /** A node that neither has meta children nor a meta parent: the traversal from it
      lists nothing and detaching it is a no-op. */
  lemma Unlisted(d: Doc, n: Node)
    requires Acyclic(d) && n != "" && n in d.attrs && d.attrs[n] == RigNodeDecls
    requires Plug(n, MetaChildren) !in d.inputs && Plug(n, MetaChildren) !in d.arrays
    requires Plug(n, MetaParent) !in d.inputs && Plug(n, MetaParent) !in d.arrays
    ensures Children(d, n) == [] && Traversable(d, SomeRank(d), n) && AllMetaChildren(d, n) == []
    ensures FormerParent(d, n).None?
    ensures DetachedAsWritten(d, n) == Step(Done, d) && Detached(d, n) == Step(Done, d)
  {
    assert Subtree(d, SomeRank(d), n) == [n];
    RigNodeDeclared(d, n);
  }

  /** Holed() once e's message is in element 2 of p.metaChildren. */
  function HoledAppended(): Doc {
    Holed().(arrays := Holed().arrays[Plug("p", MetaChildren) := [None, Some(Msg("c")), Some(Msg("e"))]])
  }

  lemma HoledAppendedChildren()
    ensures Children(HoledAppended(), "p") == ["c", "e"]
  {
    var S: Slots := [None, Some(Msg("c"))];
    PlaceAtEnd(S, Msg("e"));
    assert Placed(S) == ["c"];
    var P := Plug("p", MetaChildren);
    assert P !in HoledAppended().inputs;
    assert SlotsOf(HoledAppended(), P) == S + [Some(Msg("e"))];
  }

  lemma AttachAtEnd()
    ensures var r := Attached(Holed(), "p", "e");
      r.status == Done && Children(r.doc, "p") == ["c", "e"]
  {
    var d := Holed();
    var P := Plug("p", MetaChildren);
    var S := [None, Some(Msg("c"))];
    RigNodeDeclared(d, "p");
    RigNodeDeclared(d, "e");
    assert "p" in d.nodes && "e" in d.nodes;
    assert SlotsOf(d, P) == S;
    PlaceAtEnd(S, Msg("e"));
    assert S + [Some(Msg("e"))] == [None, Some(Msg("c")), Some(Msg("e"))];
    assert ElementConnected(d, Msg("e"), P, 2) == Ok(HoledAppended());
    assert Attached(d, "p", "e") == ParentLinked(HoledAppended(), "p", "e");
    LinkedEffect(HoledAppended(), "p", "e");
    HoledAppendedChildren();
  }

  /** The corrected parentConnect(p, e) appends e after the last element instead. */
  lemma AttachIntoHoleCorrected()
    ensures Acyclic(Holed())
    ensures var r := ParentConnected(Holed(), "p", "e");
      r.status == Done && Children(r.doc, "p") == ["c", "e"]
  {
    HoledRanked();
    Unlisted(Holed(), "e");
    ParentConnectedFromSteps(Holed(), "p", "e");
    AttachAtEnd();
  }

  /** As written, parentConnect(q, c) looks for c at element 0 of p.metaChildren, its
      position in p's listing, which is the empty element: disconnectAttr raises. */
  lemma DetachFromHoleAsWritten()
    ensures Acyclic(Holed())
    ensures ParentConnectedAsWritten(Holed(), "q", "c") == Step(Raised(NotConnected), Holed())
  {
    HoledRanked();
    Unparented(Holed(), "c");
    ParentConnectedAsWrittenFromSteps(Holed(), "q", "c");
    DetachedFromHole();
  }

  lemma DetachedFromHole()
    ensures DetachedAsWritten(Holed(), "c") == Step(Raised(NotConnected), Holed())
  {
    var d := Holed();
    var P := Plug("p", MetaChildren);
    RigNodeDeclared(d, "p");
    RigNodeDeclared(d, "c");
    assert ListConnections(d, Plug("c", MetaParent)) == ["p"];
    assert SlotsOf(d, P) == [None, Some(Msg("c"))];
    assert ListConnections(d, P) == ["c"] by {
      assert Placed([None, Some(Msg("c"))]) == ["c"];
    }
    assert ElementDisconnected(d, Msg("c"), P, 0) == Fail(NotConnected);
  }

  /** Holed once c has left p.metaChildren. */
  function HoledDetached(): Doc {
    Holed().(arrays := Holed().arrays[Plug("p", MetaChildren) := [None, None]])
  }

  lemma DetachFromHole()
    ensures Detached(Holed(), "c") == Step(Done, HoledDetached())
  {
    var d := Holed();
    var S := [None, Some(Msg("c"))];
    RigNodeDeclared(d, "c");
    RigNodeDeclared(d, "p");
    assert SlotsOf(d, Plug("p", MetaChildren)) == S;
    assert ListConnections(d, Plug("c", MetaParent)) == ["p"];
    assert SlotIndex(S, Msg("c")) == Some(1);
    assert S[1 := None] == [None, None];
  }

  /** HoledDetached() once c's message is in element 1 of q.metaChildren. */
  function HoledMoved(): Doc {
    HoledDetached().(arrays := HoledDetached().arrays[Plug("q", MetaChildren) := [Some(Msg("b")), Some(Msg("c"))]])
  }

  lemma HoledMovedChildren()
    ensures Children(HoledMoved(), "p") == [] && Children(HoledMoved(), "q") == ["b", "c"]
  {
    var d2 := HoledMoved();
    var P := Plug("p", MetaChildren);
    var Q := Plug("q", MetaChildren);
    assert P !in d2.inputs && Q !in d2.inputs;
    assert SlotsOf(d2, P) == [None, None];
    assert Placed([None, None]) == [];
    assert SlotsOf(d2, Q) == [Some(Msg("b")), Some(Msg("c"))];
    assert Placed([Some(Msg("b")), Some(Msg("c"))]) == ["b", "c"];
  }

  lemma AttachAfterHole()
    ensures var r := Attached(HoledDetached(), "q", "c");
      r.status == Done && Children(r.doc, "p") == [] && Children(r.doc, "q") == ["b", "c"]
  {
    var d1 := HoledDetached();
    var Q := Plug("q", MetaChildren);
    var T := [Some(Msg("b"))];
    RigNodeDeclared(d1, "q");
    RigNodeDeclared(d1, "c");
    assert "q" in d1.nodes && "c" in d1.nodes;
    assert SlotsOf(d1, Q) == T;
    PlaceAtEnd(T, Msg("c"));
    assert T + [Some(Msg("c"))] == [Some(Msg("b")), Some(Msg("c"))];
    assert ElementConnected(d1, Msg("c"), Q, 1) == Ok(HoledMoved());
    assert Attached(d1, "q", "c") == ParentLinked(HoledMoved(), "q", "c");
    LinkedEffect(HoledMoved(), "q", "c");
    HoledMovedChildren();
  }

  /** The corrected parentConnect(q, c) empties the element that c feeds and appends
      c to q's children. */
  lemma DetachFromHoleCorrected()
    ensures Acyclic(Holed())
    ensures var r := ParentConnected(Holed(), "q", "c");
      r.status == Done && Children(r.doc, "p") == [] && Children(r.doc, "q") == ["b", "c"]
  {
    HoledRanked();
    Unparented(Holed(), "c");
    DetachFromHole();
    ParentConnectedFromSteps(Holed(), "q", "c");
    AttachAfterHole();
  }
}
