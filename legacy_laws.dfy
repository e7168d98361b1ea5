/** What the old schema's MetaRig operations do to the scene, and what its checks
    do and do not catch. */
module LegacyLaws {
  import opened Outcomes
  import opened Scene
  import opened MetaGraph
  import opened MetaLinks
  import opened Commands
  import opened Rig
  import opened RigLaws
  import opened RigNodeLaws
  import opened RigFindings
  import opened LegacyRig

  // ---------------------------------------------------------------- hasMeta, getMetaNode

  /** hasMeta with a type implies hasMeta without one, and getMetaNode answers a
      network exactly for a node that has meta and whose metaNode is fed. */
  lemma MetaNodeOfHasMeta(d: Doc, n: Node, metaType: string)
    requires HasMeta(d, n, metaType) == Ok(true)
    ensures HasMeta(d, n, "") == Ok(true)
    ensures MetaNodeOf(d, n).Ok? <==> ListConnections(d, Plug(n, MetaNodeAttr)) != []
    ensures MetaNodeOf(d, n).Ok? ==> MetaNodeOf(d, n).value == Some(ListConnections(d, Plug(n, MetaNodeAttr))[0])
  {
  }

  // ---------------------------------------------------------------- addSystem

  /** The attributes of a new system network: no systemName, no metaType and no UI
      attributes, unlike the current schema's. */
  const LegacySystemDecls: seq<Decl> := [MessageDecl, RootLink, TypeDecl, SideDecl]

  /** The network addSystem creates for system `name`. */
  function LegacySystemNetwork(st: LegacyState, d: Doc, name: Name): (nw: Node)
    ensures nw !in d.nodes && nw != ""
  {
    FreshName(d.nodes, NodeBase(SystemNodeBase(st.name, name)))
  }

  /** How addSystem leaves the scene e it started from as d, apart from the set of
      nodes: metaRoot.message feeds nw.metaRoot and nw.message feeds metaRoot.<name>;
      nw holds the type and the side index and exactly LegacySystemDecls; the metaRoot
      gains <name>, of category metaSystem, only when it had no such attribute; nothing
      else changes. */
  ghost predicate LegacySystemShaped(d: Doc, e: Doc, metaRoot: Node, nw: Node, name: Name, systemType: string, side: string)
    requires side in Sides
  {
    && e.arrays == d.arrays
    && e.inputs == d.inputs[Plug(nw, MetaRootAttr) := Plug(metaRoot, MessageAttr)][Plug(metaRoot, name) := Plug(nw, MessageAttr)]
    && e.values == d.values[Plug(nw, SystemTypeAttr) := StrV(systemType)][Plug(nw, SideAttr) := IntV(SideIndex(side).value)]
    && Decls(e, nw) == LegacySystemDecls
    && Decls(e, metaRoot) == Decls(d, metaRoot) + Missing(d, metaRoot, name, MetaSystem)
    && (forall m | m != nw && m != metaRoot :: Decls(e, m) == Decls(d, m))
  }

  lemma SystemTaggedEffect(d: Doc, nw: Node, systemType: string, side: string)
    requires nw in d.nodes && Decls(d, nw) == [MessageDecl, RootLink] && side in Sides
    ensures var s := LegacySystemTagged(d, nw, systemType, side);
      && s.status == Done
      && s.doc.nodes == d.nodes && s.doc.inputs == d.inputs && s.doc.arrays == d.arrays
      && s.doc.values == d.values[Plug(nw, SystemTypeAttr) := StrV(systemType)][Plug(nw, SideAttr) := IntV(SideIndex(side).value)]
      && Decls(s.doc, nw) == LegacySystemDecls
      && (forall m | m != nw :: Decls(s.doc, m) == Decls(d, m))
  {
    var d1 := AttrAdded(d, nw, TypeDecl);
    assert Added(d, nw, TypeDecl) == Step(Done, d1);
    assert Decls(d1, nw) == [MessageDecl, RootLink, TypeDecl];
    var d2 := ValueSet(d1, Plug(nw, SystemTypeAttr), StrV(systemType));
    assert Assigned(d1, Plug(nw, SystemTypeAttr), StrV(systemType)) == Step(Done, d2);
    var d3 := AttrAdded(d2, nw, SideDecl);
    assert Added(d2, nw, SideDecl) == Step(Done, d3);
    assert Decls(d3, nw) == LegacySystemDecls;
    assert HasAttr(d3, nw, SideAttr);
  }

  lemma SystemMadeEffect(d: Doc, metaRoot: Node, nw: Node, name: Name, systemType: string, side: string)
    requires metaRoot in d.nodes && nw in d.nodes && metaRoot != nw && metaRoot != "" && nw != "" && name != ""
    requires Decls(d, nw) == [MessageDecl] && HasAttr(d, metaRoot, MessageAttr) && Receives(d, metaRoot, name) && side in Sides
    ensures LegacySystemMade(d, metaRoot, nw, name, systemType, side).status == Done
    ensures LegacySystemMade(d, metaRoot, nw, name, systemType, side).doc.nodes == d.nodes
    ensures LegacySystemShaped(d, LegacySystemMade(d, metaRoot, nw, name, systemType, side).doc, metaRoot, nw, name, systemType, side)
  {
    WiredEffect(d, metaRoot, nw, name);
    var s1 := SystemWired(d, metaRoot, nw, name);
    SystemTaggedEffect(s1.doc, nw, systemType, side);
  }

  /** What addSystem needs to get through: a name new to `systems`, a known side and a
      metaRoot that carries `message` and has no attribute of that name other than a
      message attribute. */
  ghost predicate CanAddLegacySystem(st: LegacyState, d: Doc, side: string, name: Name) {
    && st.systems.Some? && name != "" && name !in st.systems.value && side in Sides
    && Carries(d, st.metaRoot) && Receives(d, st.metaRoot, name)
  }

  /** A successful addSystem creates one network, wires and labels it as
      LegacySystemShaped says, and appends `name` to `systems`. */
  lemma LegacySystemAddedEffect(st: LegacyState, d: Doc, systemType: string, side: string, name: Name)
    requires CanAddLegacySystem(st, d, side, name)
    ensures var r := LegacySystemAdded(st, d, systemType, side, name);
      && r.status == Done
      && r.rig == st.(systems := Some(st.systems.value + [name]))
      && r.doc.nodes == d.nodes + {LegacySystemNetwork(st, d, name)}
      && LegacySystemShaped(d, r.doc, st.metaRoot, LegacySystemNetwork(st, d, name), name, systemType, side)
  {
    var nw := LegacySystemNetwork(st, d, name);
    var d1 := Created(d, nw);
    SystemMadeEffect(d1, st.metaRoot, nw, name, systemType, side);
    assert Missing(d1, st.metaRoot, name, MetaSystem) == Missing(d, st.metaRoot, name, MetaSystem);
  }

  /** An unknown side raises once the type and the side attribute are on nw. */
  lemma SystemTaggedBadSide(d: Doc, nw: Node, systemType: string, side: string)
    requires nw in d.nodes && Decls(d, nw) == [MessageDecl, RootLink] && side !in Sides
    ensures var s := LegacySystemTagged(d, nw, systemType, side);
      && s.status == Raised(NotASide) && s.doc.nodes == d.nodes && HasAttr(s.doc, nw, SideAttr)
  {
    var d1 := AttrAdded(d, nw, TypeDecl);
    assert Added(d, nw, TypeDecl) == Step(Done, d1);
    assert Decls(d1, nw) == [MessageDecl, RootLink, TypeDecl];
    var d2 := ValueSet(d1, Plug(nw, SystemTypeAttr), StrV(systemType));
    assert Assigned(d1, Plug(nw, SystemTypeAttr), StrV(systemType)) == Step(Done, d2);
    var d3 := AttrAdded(d2, nw, SideDecl);
    assert Added(d2, nw, SideDecl) == Step(Done, d3);
    assert Decls(d3, nw) == LegacySystemDecls;
    assert HasAttr(d3, nw, SideAttr);
  }

  /** An unknown side raises once the system network exists, wired and typed. */
  lemma LegacySystemAddedBadSide(st: LegacyState, d: Doc, systemType: string, side: string, name: Name)
    requires st.systems.Some? && name != "" && name !in st.systems.value && side !in Sides
    requires Carries(d, st.metaRoot) && Receives(d, st.metaRoot, name)
    ensures var r := LegacySystemAdded(st, d, systemType, side, name);
      && r.status == Raised(NotASide) && r.rig == st
      && r.doc.nodes == d.nodes + {LegacySystemNetwork(st, d, name)}
      && HasAttr(r.doc, LegacySystemNetwork(st, d, name), SideAttr)
  {
    var nw := LegacySystemNetwork(st, d, name);
    var d1 := Created(d, nw);
    WiredEffect(d1, st.metaRoot, nw, name);
    var s1 := SystemWired(d1, st.metaRoot, nw, name);
    SystemTaggedBadSide(s1.doc, nw, systemType, side);
  }

  // ---------------------------------------------------------------- addRigNode

  const SystemLinkDecl: Decl := Decl(SystemMetaRootAttr, Message, NoCategory, false)
  const RootLinkDecl: Decl := Decl(MetaRootAttr, Message, NoCategory, false)
  const RigNodeDecl: Decl := Decl(RigNodeAttr, Message, MetaConnection, false)

  /** The attributes of a rig node's network after registration. */
  const NetworkDecls: seq<Decl> :=
    [MessageDecl, SystemLinkDecl, RootLinkDecl, RigNodeDecl,
     Decl(MetaParent, Message, MetaNode, false), Decl(MetaChildren, Message, MetaNode, true), Decl(MetaTypeAttr, Enum, MetaNode, false)]

  /** The inputs after the five connections of the network nw. */
  function NetworkInputs(i: map<Plug, Plug>, metaRoot: Node, smr: Node, nw: Node, node: Node, name: Name): map<Plug, Plug> {
    var i1 := i[Plug(nw, SystemMetaRootAttr) := Plug(smr, MessageAttr)][Plug(nw, MetaRootAttr) := Plug(metaRoot, MessageAttr)];
    var i2 := if name == "" then i1 else i1[Plug(smr, name) := Plug(nw, MessageAttr)];
    i2[Plug(node, MetaNodeAttr) := Plug(nw, MessageAttr)][Plug(nw, RigNodeAttr) := Plug(node, MessageAttr)]
  }

  /** How addRigNode's registration leaves the scene e it started from as d: one new
      node nw, the five connections of NetworkInputs, nw holding exactly NetworkDecls,
      smr gaining <name> and the node gaining metaNode, each of category metaConnection
      and only when absent; nothing else changes. */
  ghost predicate NetworkRegistered(d: Doc, e: Doc, metaRoot: Node, smr: Node, nw: Node, node: Node, name: Name) {
    && e.nodes == d.nodes + {nw} && e.values == d.values && e.arrays == d.arrays
    && e.inputs == NetworkInputs(d.inputs, metaRoot, smr, nw, node, name)
    && Decls(e, nw) == NetworkDecls
    && Decls(e, smr) == Decls(d, smr) + (if name == "" then [] else Missing(d, smr, name, MetaConnection))
    && Decls(e, node) == Decls(d, node) + Missing(d, node, MetaNodeAttr, MetaConnection)
    && (forall m | m != nw && m != smr && m != node :: Decls(e, m) == Decls(d, m))
  }

  /** The first two connections, into a network that holds nothing but `message`. */
  lemma NetworkFed(d: Doc, metaRoot: Node, smr: Node, nw: Node)
    requires Carries(d, metaRoot) && Carries(d, smr) && nw in d.nodes && nw != ""
    requires nw != metaRoot && nw != smr && Decls(d, nw) == [MessageDecl]
    ensures var s1 := Connected(d, smr, nw, MessageAttr, SystemMetaRootAttr, NoCategory);
      var s2 := Connected(s1.doc, metaRoot, nw, MessageAttr, MetaRootAttr, NoCategory);
      && s1.status == Done && s2.status == Done
      && s2.doc.nodes == d.nodes && s2.doc.values == d.values && s2.doc.arrays == d.arrays
      && s2.doc.inputs == d.inputs[Plug(nw, SystemMetaRootAttr) := Plug(smr, MessageAttr)][Plug(nw, MetaRootAttr) := Plug(metaRoot, MessageAttr)]
      && Decls(s2.doc, nw) == [MessageDecl, SystemLinkDecl, RootLinkDecl]
      && (forall m | m != nw :: Decls(s2.doc, m) == Decls(d, m))
  {
    ConnectedInto(d, smr, nw, MessageAttr, SystemMetaRootAttr, NoCategory);
    var d1 := Connected(d, smr, nw, MessageAttr, SystemMetaRootAttr, NoCategory).doc;
    assert Decls(d1, nw) == [MessageDecl, SystemLinkDecl];
    ConnectedInto(d1, metaRoot, nw, MessageAttr, MetaRootAttr, NoCategory);
  }

  /** The connection of nw into smr.<name>. */
  lemma NetworkNamed(d: Doc, smr: Node, nw: Node, name: Name)
    requires Carries(d, smr) && Carries(d, nw) && nw != smr && (name != "" ==> Receives(d, smr, name))
    ensures var s := Connected(d, nw, smr, MessageAttr, name, MetaConnection);
      && s.status == Done
      && s.doc.nodes == d.nodes && s.doc.values == d.values && s.doc.arrays == d.arrays
      && s.doc.inputs == (if name == "" then d.inputs else d.inputs[Plug(smr, name) := Plug(nw, MessageAttr)])
      && Decls(s.doc, smr) == Decls(d, smr) + (if name == "" then [] else Missing(d, smr, name, MetaConnection))
      && (forall m | m != smr :: Decls(s.doc, m) == Decls(d, m))
  {
    if name != "" {
      ConnectedInto(d, nw, smr, MessageAttr, name, MetaConnection);
    }
  }

  /** The two connections between nw and the node, both ways. */
  lemma NetworkJoined(d: Doc, nw: Node, node: Node)
    requires Carries(d, nw) && Carries(d, node) && nw != node && Receives(d, node, MetaNodeAttr)
    requires Decls(d, nw) == [MessageDecl, SystemLinkDecl, RootLinkDecl]
    ensures var s4 := Connected(d, nw, node, MessageAttr, MetaNodeAttr, MetaConnection);
      var s5 := Connected(s4.doc, node, nw, MessageAttr, RigNodeAttr, MetaConnection);
      && s4.status == Done && s5.status == Done
      && s5.doc.nodes == d.nodes && s5.doc.values == d.values && s5.doc.arrays == d.arrays
      && s5.doc.inputs == d.inputs[Plug(node, MetaNodeAttr) := Plug(nw, MessageAttr)][Plug(nw, RigNodeAttr) := Plug(node, MessageAttr)]
      && Decls(s5.doc, nw) == [MessageDecl, SystemLinkDecl, RootLinkDecl, RigNodeDecl]
      && Decls(s5.doc, node) == Decls(d, node) + Missing(d, node, MetaNodeAttr, MetaConnection)
      && (forall m | m != nw && m != node :: Decls(s5.doc, m) == Decls(d, m))
  {
    ConnectedInto(d, nw, node, MessageAttr, MetaNodeAttr, MetaConnection);
    var d4 := Connected(d, nw, node, MessageAttr, MetaNodeAttr, MetaConnection).doc;
    Kept(d, d4, node, Missing(d, node, MetaNodeAttr, MetaConnection), MessageAttr);
    ConnectedInto(d4, node, nw, MessageAttr, RigNodeAttr, MetaConnection);
  }

  /** Declaring an attribute whose name the node does not have appends it. */
  lemma DeclaredFresh(d: Doc, n: Node, x: Decl)
    requires n in d.nodes && forall y <- Decls(d, n) :: y.name != x.name
    ensures Declared(d, n, x) == Step(Done, AttrAdded(d, n, x))
    ensures Decls(Declared(d, n, x).doc, n) == Decls(d, n) + [x]
  {
    assert Lookup(Decls(d, n), x.name).None?;
  }

  lemma NetworkTaggedEffect(d: Doc, nw: Node)
    requires nw in d.nodes && Decls(d, nw) == [MessageDecl, SystemLinkDecl, RootLinkDecl, RigNodeDecl]
    ensures var s := LegacyTagged(d, nw);
      && s.status == Done
      && s.doc.nodes == d.nodes && s.doc.values == d.values && s.doc.arrays == d.arrays && s.doc.inputs == d.inputs
      && Decls(s.doc, nw) == NetworkDecls
      && (forall m | m != nw :: Decls(s.doc, m) == Decls(d, m))
  {
    TaggedSteps(d, nw);
  }

  /** The three declarations of the tagging go onto the network one after another. */
  lemma TaggedSteps(d: Doc, nw: Node)
    requires nw in d.nodes && Decls(d, nw) == [MessageDecl, SystemLinkDecl, RootLinkDecl, RigNodeDecl]
    ensures var d1 := AttrAdded(d, nw, Decl(MetaParent, Message, MetaNode, false));
      var d2 := AttrAdded(d1, nw, Decl(MetaChildren, Message, MetaNode, true));
      var d3 := AttrAdded(d2, nw, Decl(MetaTypeAttr, Enum, MetaNode, false));
      && LegacyTagged(d, nw) == Step(Done, d3)
      && Decls(d3, nw) == NetworkDecls
  {
    var x1 := Decl(MetaParent, Message, MetaNode, false);
    var x2 := Decl(MetaChildren, Message, MetaNode, true);
    var x3 := Decl(MetaTypeAttr, Enum, MetaNode, false);
    DeclaredFresh(d, nw, x1);
    var d1 := AttrAdded(d, nw, x1);
    assert Decls(d1, nw) == [MessageDecl, SystemLinkDecl, RootLinkDecl, RigNodeDecl, x1];
    DeclaredFresh(d1, nw, x2);
    var d2 := AttrAdded(d1, nw, x2);
    assert Decls(d2, nw) == [MessageDecl, SystemLinkDecl, RootLinkDecl, RigNodeDecl, x1, x2];
    DeclaredFresh(d2, nw, x3);
  }

  /** The three steps of the connections, composed over the documents between them. */
  lemma LinkedFromSteps(d: Doc, d2: Doc, d3: Doc, d5: Doc, metaRoot: Node, smr: Node, nw: Node, node: Node, name: Name)
    requires nw != smr && nw != node && node != smr
    requires d2.nodes == d.nodes && d2.values == d.values && d2.arrays == d.arrays
    requires d2.inputs == d.inputs[Plug(nw, SystemMetaRootAttr) := Plug(smr, MessageAttr)][Plug(nw, MetaRootAttr) := Plug(metaRoot, MessageAttr)]
    requires Decls(d2, nw) == [MessageDecl, SystemLinkDecl, RootLinkDecl]
    requires forall m | m != nw :: Decls(d2, m) == Decls(d, m)
    requires d3.nodes == d2.nodes && d3.values == d2.values && d3.arrays == d2.arrays
    requires d3.inputs == (if name == "" then d2.inputs else d2.inputs[Plug(smr, name) := Plug(nw, MessageAttr)])
    requires Decls(d3, smr) == Decls(d2, smr) + (if name == "" then [] else Missing(d2, smr, name, MetaConnection))
    requires forall m | m != smr :: Decls(d3, m) == Decls(d2, m)
    requires d5.nodes == d3.nodes && d5.values == d3.values && d5.arrays == d3.arrays
    requires d5.inputs == d3.inputs[Plug(node, MetaNodeAttr) := Plug(nw, MessageAttr)][Plug(nw, RigNodeAttr) := Plug(node, MessageAttr)]
    requires Decls(d5, nw) == [MessageDecl, SystemLinkDecl, RootLinkDecl, RigNodeDecl]
    requires Decls(d5, node) == Decls(d3, node) + Missing(d3, node, MetaNodeAttr, MetaConnection)
    requires forall m | m != nw && m != node :: Decls(d5, m) == Decls(d3, m)
    ensures d5.nodes == d.nodes && d5.values == d.values && d5.arrays == d.arrays
    ensures d5.inputs == NetworkInputs(d.inputs, metaRoot, smr, nw, node, name)
    ensures Decls(d5, smr) == Decls(d, smr) + (if name == "" then [] else Missing(d, smr, name, MetaConnection))
    ensures Decls(d5, node) == Decls(d, node) + Missing(d, node, MetaNodeAttr, MetaConnection)
    ensures forall m | m != nw && m != smr && m != node :: Decls(d5, m) == Decls(d, m)
  {
    assert Decls(d2, smr) == Decls(d, smr) && Decls(d2, node) == Decls(d, node) && Decls(d3, node) == Decls(d2, node);
  }

  /** The two connections into attributes of existing nodes, smr.<name> and
      node.metaNode, go into absent or message attributes. */
  ghost predicate LegacyLinksReceive(d: Doc, smr: Node, node: Node, name: Name) {
    (name != "" ==> Receives(d, smr, name)) && Receives(d, node, MetaNodeAttr)
  }

  /** The five connections, into a network that holds nothing but `message`. */
  lemma LegacyLinkedEffect(d: Doc, metaRoot: Node, smr: Node, nw: Node, node: Node, name: Name)
    requires Carries(d, metaRoot) && Carries(d, smr) && Carries(d, node) && nw in d.nodes && nw != ""
    requires node != smr && nw != metaRoot && nw != smr && nw != node && Decls(d, nw) == [MessageDecl]
    requires LegacyLinksReceive(d, smr, node, name)
    ensures var s := LegacyLinked(d, metaRoot, smr, nw, node, name);
      && s.status == Done
      && s.doc.nodes == d.nodes && s.doc.values == d.values && s.doc.arrays == d.arrays
      && s.doc.inputs == NetworkInputs(d.inputs, metaRoot, smr, nw, node, name)
      && Decls(s.doc, nw) == [MessageDecl, SystemLinkDecl, RootLinkDecl, RigNodeDecl]
      && Decls(s.doc, smr) == Decls(d, smr) + (if name == "" then [] else Missing(d, smr, name, MetaConnection))
      && Decls(s.doc, node) == Decls(d, node) + Missing(d, node, MetaNodeAttr, MetaConnection)
      && (forall m | m != nw && m != smr && m != node :: Decls(s.doc, m) == Decls(d, m))
  {
    NetworkFed(d, metaRoot, smr, nw);
    var d2 := Connected(Connected(d, smr, nw, MessageAttr, SystemMetaRootAttr, NoCategory).doc, metaRoot, nw, MessageAttr, MetaRootAttr, NoCategory).doc;
    assert Carries(d2, smr) && (name != "" ==> Receives(d2, smr, name)) by {
      assert Decls(d2, smr) == Decls(d, smr);
    }
    assert Carries(d2, nw) by {
      assert Decls(d2, nw)[0] == MessageDecl;
    }
    NetworkNamed(d2, smr, nw, name);
    var d3 := Connected(d2, nw, smr, MessageAttr, name, MetaConnection).doc;
    assert Carries(d3, nw) && Decls(d3, nw) == Decls(d2, nw);
    assert Carries(d3, node) && Receives(d3, node, MetaNodeAttr) by {
      assert Decls(d3, node) == Decls(d, node);
    }
    NetworkJoined(d3, nw, node);
    var d5 := Connected(Connected(d3, nw, node, MessageAttr, MetaNodeAttr, MetaConnection).doc, node, nw, MessageAttr, RigNodeAttr, MetaConnection).doc;
    LinkedFromSteps(d, d2, d3, d5, metaRoot, smr, nw, node, name);
  }

  /** The registration is the tagging of what the connections left. */
  lemma RegisteredIs(d: Doc, metaRoot: Node, smr: Node, nw: Node, node: Node, name: Name)
    requires LegacyLinked(d, metaRoot, smr, nw, node, name).status == Done
    ensures LegacyRegistered(d, metaRoot, smr, nw, node, name) == LegacyTagged(LegacyLinked(d, metaRoot, smr, nw, node, name).doc, nw)
  {
  }

  /** The registration onto a network that already exists and holds only `message`. */
  lemma RegisteredInPlace(d: Doc, metaRoot: Node, smr: Node, nw: Node, node: Node, name: Name)
    requires Carries(d, metaRoot) && Carries(d, smr) && Carries(d, node) && nw in d.nodes && nw != ""
    requires node != smr && nw != metaRoot && nw != smr && nw != node && Decls(d, nw) == [MessageDecl]
    requires LegacyLinksReceive(d, smr, node, name)
    ensures var s := LegacyRegistered(d, metaRoot, smr, nw, node, name);
      s.status == Done && NetworkRegistered(d, s.doc, metaRoot, smr, nw, node, name)
  {
    LegacyLinkedEffect(d, metaRoot, smr, nw, node, name);
    var d5 := LegacyLinked(d, metaRoot, smr, nw, node, name).doc;
    NetworkTaggedEffect(d5, nw);
    RegisteredIs(d, metaRoot, smr, nw, node, name);
  }

  /** What the registration does after the creation of nw, stated of the scene before it. */
  lemma RegisteredCreated(d: Doc, e: Doc, metaRoot: Node, smr: Node, nw: Node, node: Node, name: Name)
    requires nw != smr && nw != node
    requires NetworkRegistered(Created(d, nw), e, metaRoot, smr, nw, node, name)
    ensures NetworkRegistered(d, e, metaRoot, smr, nw, node, name)
  {
    var d0 := Created(d, nw);
    assert Decls(d0, smr) == Decls(d, smr) && Decls(d0, node) == Decls(d, node);
    assert forall m | m != nw :: Decls(d0, m) == Decls(d, m);
  }

  /** The registration, in the scene before the network was created. */
  lemma LegacyRegisteredEffect(d: Doc, metaRoot: Node, smr: Node, nw: Node, node: Node, name: Name)
    requires Carries(d, metaRoot) && Carries(d, smr) && Carries(d, node) && node != smr
    requires nw !in d.nodes && nw != "" && LegacyLinksReceive(d, smr, node, name)
    ensures var s := LegacyRegistered(Created(d, nw), metaRoot, smr, nw, node, name);
      s.status == Done && NetworkRegistered(d, s.doc, metaRoot, smr, nw, node, name)
  {
    var d0 := Created(d, nw);
    assert Carries(d0, metaRoot) && Carries(d0, smr) && Carries(d0, node) && LegacyLinksReceive(d0, smr, node, name) by {
      assert Decls(d0, smr) == Decls(d, smr) && Decls(d0, node) == Decls(d, node) && Decls(d0, metaRoot) == Decls(d, metaRoot);
    }
    RegisteredInPlace(d0, metaRoot, smr, nw, node, name);
    RegisteredCreated(d, LegacyRegistered(d0, metaRoot, smr, nw, node, name).doc, metaRoot, smr, nw, node, name);
  }

  /** Each error string of addRigNode is returned exactly when its check fails and the
      earlier ones pass, changing nothing. */
  lemma LegacyRigNodeRefusals(st: LegacyState, d: Doc, node: Node, system: Name, name: Name)
    ensures var r := LegacyRigNodeAdded(st, d, node, system, name);
      && (r.status == Refused(NoNodes) <==> node == "")
      && (r.status == Refused(UnknownSystem) <==> node != "" && st.systems.Some? && system !in st.systems.value)
      && (r.status == Refused(RigNodeExists) <==>
            && node != "" && st.systems.Some? && system in st.systems.value
            && SystemMetaRoot(AsCurrent(st), d, system).Answer? && SystemMetaRoot(AsCurrent(st), d, system).value in d.nodes
            && name in ListAttr(d, SystemMetaRoot(AsCurrent(st), d, system).value, MetaConnection))
      && (r.status.Refused? ==> r.doc == d)
  {
  }

  /** A call that passes the checks registers the node through one new network. */
  lemma LegacyRigNodeAddedEffect(st: LegacyState, d: Doc, node: Node, system: Name, name: Name, smr: Node)
    requires LegacyAdmission(st, d, node, system, name, true) == Answer(smr)
    requires Carries(d, st.metaRoot) && Carries(d, smr) && Carries(d, node) && node != smr
    requires LegacyLinksReceive(d, smr, node, name)
    ensures var r := LegacyRigNodeAdded(st, d, node, system, name);
      r.status == Done && NetworkRegistered(d, r.doc, st.metaRoot, smr, RigNodeNetwork(d, name), node, name)
  {
    LegacyRegisteredEffect(d, st.metaRoot, smr, RigNodeNetwork(d, name), node, name);
  }

  // ---------------------------------------------------------------- parentConnect

  lemma AttrsNamed(d: Doc, n: Node, a: Name)
    requires HasAttr(d, n, a)
    ensures n in d.attrs
  {
  }

  /** A successful corrected re-parenting between two meta networks. */
  lemma RelinkedEffect(d: Doc, mp: Node, mc: Node)
    requires Acyclic(d) && "" !in d.attrs && mc != "" && Relinked(d, Some(mp), mc).status.Done?
    ensures var d' := Relinked(d, Some(mp), mc).doc;
      && d'.nodes == d.nodes
      && d'.inputs == d.inputs[Plug(mc, MetaParent) := Plug(mp, MessageAttr)]
      && |Children(d', mp)| > 0 && Children(d', mp)[|Children(d', mp)| - 1] == mc
      && (FormerParent(d, mc) != Some(mp) ==> Children(d', mp) == Children(d, mp) + [mc])
  {
    RelinkedSteps(d, mp, mc);
    DetachedAttachedEffect(d, mp, mc);
  }

  /** The corrected detachment followed by the corrected attachment. */
  lemma DetachedAttachedEffect(d: Doc, mp: Node, mc: Node)
    requires "" !in d.attrs && mc != "" && Detached(d, mc).status.Done?
    requires Attached(Detached(d, mc).doc, mp, mc).status.Done?
    ensures var d' := Attached(Detached(d, mc).doc, mp, mc).doc;
      && d'.nodes == d.nodes
      && d'.inputs == d.inputs[Plug(mc, MetaParent) := Plug(mp, MessageAttr)]
      && |Children(d', mp)| > 0 && Children(d', mp)[|Children(d', mp)| - 1] == mc
      && (FormerParent(d, mc) != Some(mp) ==> Children(d', mp) == Children(d, mp) + [mc])
  {
    var d1 := Detached(d, mc).doc;
    DetachedFrame(d, mc);
    assert HasAttr(d1, mp, MetaChildren);
    AttrsNamed(d1, mp, MetaChildren);
    AttachedEffect(d1, mp, mc);
    if FormerParent(d, mc) != Some(mp) {
      DetachedKeeps(d, mc, mp);
    }
  }

  /** A successful parentConnect found a meta network on both sides. */
  lemma LegacyParentConnectedFound(d: Doc, parent: Node, child: Node)
    requires Acyclic(d) && LegacyParentConnected(d, parent, child).status.Done?
    ensures MetaNodeOf(d, parent).Ok? && MetaNodeOf(d, parent).value.Some?
    ensures MetaNodeOf(d, child).Ok? && MetaNodeOf(d, child).value.Some? && MetaNodeOf(d, child).value.value != ""
    ensures LegacyParentConnected(d, parent, child) == Relinked(d, MetaNodeOf(d, parent).value, MetaNodeOf(d, child).value.value)
  {
  }

  /** A successful parentConnect puts the edge between the two meta networks: the
      child's network's metaParent is fed by the parent's network, which lists the
      child's network at the end of its metaChildren (after the child's network left
      any former parent); so no scene node gains an edge unless it is its own meta
      network. */
  lemma LegacyParentConnectedOnMeta(d: Doc, parent: Node, child: Node)
    requires Acyclic(d) && "" !in d.attrs && LegacyParentConnected(d, parent, child).status.Done?
    ensures MetaNodeOf(d, parent).Ok? && MetaNodeOf(d, parent).value.Some?
    ensures MetaNodeOf(d, child).Ok? && MetaNodeOf(d, child).value.Some?
    ensures var mp := MetaNodeOf(d, parent).value.value;
      var mc := MetaNodeOf(d, child).value.value;
      var d' := LegacyParentConnected(d, parent, child).doc;
      && d'.nodes == d.nodes
      && d'.inputs == d.inputs[Plug(mc, MetaParent) := Plug(mp, MessageAttr)]
      && |Children(d', mp)| > 0 && Children(d', mp)[|Children(d', mp)| - 1] == mc
      && (FormerParent(d, mc) != Some(mp) ==> Children(d', mp) == Children(d, mp) + [mc])
  {
    LegacyParentConnectedFound(d, parent, child);
    RelinkedEffect(d, MetaNodeOf(d, parent).value.value, MetaNodeOf(d, child).value.value);
  }

  /** parentConnect refuses, with no change, a parent whose meta network lies below the
      child's meta network. */
  lemma LegacyRefusesDescendant(d: Doc, parent: Node, child: Node, mp: Node, mc: Node)
    requires Acyclic(d) && parent != "" && child != "" && mp != "" && mc != ""
    requires MetaNodeOf(d, parent) == Ok(Some(mp)) && MetaNodeOf(d, child) == Ok(Some(mc))
    requires Traversable(d, SomeRank(d), mc) && Reaches(d, mc, mp)
    ensures LegacyParentConnected(d, parent, child) == Step(Refused(IsDescendant), d)
    ensures LegacyParentConnectedAsWritten(d, parent, child) == Step(Refused(IsDescendant), d)
  {
    ParentConnectRefusesDescendant(d, mp, mc);
  }

  /** When both nodes have meta networks, the old parentConnect is the current one applied
      to the two networks, as written and corrected. */
  lemma LegacyOnNetworks(d: Doc, parent: Node, child: Node, mp: Node, mc: Node)
    requires Acyclic(d) && parent != "" && child != "" && mp != "" && mc != ""
    requires MetaNodeOf(d, parent) == Ok(Some(mp)) && MetaNodeOf(d, child) == Ok(Some(mc))
    ensures LegacyParentConnectedAsWritten(d, parent, child) == ParentConnectedAsWritten(d, mp, mc)
    ensures LegacyParentConnected(d, parent, child) == ParentConnected(d, mp, mc)
  {
  }

  /** "node" occurs in the string getAllMetaChildren(None) returns. */
  lemma NodeInPrompt()
    ensures InString("node", DescendantsPrompt)
  {
    var head := "Please supply a ";
    var rest := " whose " + "descendents" + " you wish to list";
    assert DescendantsPrompt == head + ("node" + rest);
    assert DescendantsPrompt[|head|..] == "node" + rest;
  }

  /** As written, a child without a meta network makes line 62 test the parent's network
      name for a substring of getAllMetaChildren's error string: a parent network named
      "node" is refused as a meta descendant of the child. */
  lemma NoChildNetworkAsWritten(d: Doc, parent: Node, child: Node)
    requires Acyclic(d) && parent != "" && child != ""
    requires MetaNodeOf(d, parent) == Ok(Some("node")) && MetaNodeOf(d, child) == Ok(None)
    ensures LegacyParentConnectedAsWritten(d, parent, child) == Step(Refused(IsDescendant), d)
  {
    NodeInPrompt();
  }

  /** A parent network whose name is not in that string gets past the check, and the
      detachment then lists 'None.metaParent', which raises in a scene without a node
      named None. */
  lemma NoChildNetworkRaises(d: Doc, parent: Node, child: Node, mp: Node)
    requires Acyclic(d) && parent != "" && child != "" && mp != "" && "None" !in d.attrs
    requires MetaNodeOf(d, parent) == Ok(Some(mp)) && MetaNodeOf(d, child) == Ok(None)
    ensures !InString(mp, DescendantsPrompt) ==>
      LegacyParentConnectedAsWritten(d, parent, child) == Step(Raised(NoSuchAttribute), d)
    ensures InString(mp, DescendantsPrompt) ==>
      LegacyParentConnectedAsWritten(d, parent, child) == Step(Refused(IsDescendant), d)
  {
  }

  /** The corrected parentConnect raises for a child without a meta network, whatever the
      parent, and changes nothing. */
  lemma NoChildNetworkRefused(d: Doc, parent: Node, child: Node)
    requires Acyclic(d) && parent != "" && child != "" && MetaNodeOf(d, child) == Ok(None)
    ensures MetaNodeOf(d, parent).Ok? ==> LegacyParentConnected(d, parent, child) == Step(Raised(NotMeta), d)
  {
  }

  /** As written, a parent without a meta network always ends in a raise: the child's
      network is detached first, then the connection into 'None.metaChildren' or the final
      messageConnect(None, ...) raises. In a scene without a node named None the child's
      network stays detached. */
  lemma NoParentNetworkAsWritten(d: Doc, parent: Node, child: Node, mc: Node)
    requires Acyclic(d) && parent != "" && child != "" && mc != ""
    requires MetaNodeOf(d, parent) == Ok(None) && MetaNodeOf(d, child) == Ok(Some(mc))
    ensures LegacyParentConnectedAsWritten(d, parent, child).status.Raised?
    ensures "None" !in d.nodes && Traversable(d, SomeRank(d), mc) && DetachedAsWritten(d, mc).status == Done ==>
      LegacyParentConnectedAsWritten(d, parent, child) == Step(Raised(NoSuchNode), DetachedAsWritten(d, mc).doc)
  {
    var s := DetachedAsWritten(d, mc);
    if s.status == Done {
      DetachedAsWrittenNodes(d, mc);
    }
  }

  // ---------------------------------------------------------------- findings in addRigNode

  /** Registration under `name` leaves smr's listing of category metaNode as it was,
      and lists the name in category metaConnection. */
  lemma RegisteredNameListed(d: Doc, e: Doc, metaRoot: Node, smr: Node, nw: Node, node: Node, name: Name)
    requires NetworkRegistered(d, e, metaRoot, smr, nw, node, name)
    requires name != "" && !HasAttr(d, smr, name) && nw != smr && node != smr
    ensures HasAttr(e, smr, name)
    ensures ListAttr(e, smr, MetaNode) == ListAttr(d, smr, MetaNode)
    ensures name in ListAttr(e, smr, MetaConnection)
  {
    var x := Decl(name, Message, MetaConnection, false);
    assert Decls(e, smr) == Decls(d, smr) + [x];
    LookupAppend(Decls(d, smr), x, name);
    InCategoryAppend(Decls(d, smr), x, MetaNode);
    InCategoryAppend(Decls(d, smr), x, MetaConnection);
  }

  /** As written, addRigNode looks for the names already used in a system among the
      system network's attributes of category metaNode (metadata_old.py line 266), but
      gives each name category metaConnection (line 279): after `name` is registered,
      a second node under the same name is not refused for it. */
  lemma DuplicateNameAsWritten(st: LegacyState, d: Doc, e: Doc, smr: Node, nw: Node, node: Node, name: Name, node2: Node, system: Name)
    requires NetworkRegistered(d, e, st.metaRoot, smr, nw, node, name)
    requires name != "" && !HasAttr(d, smr, name) && name !in ListAttr(d, smr, MetaNode)
    requires nw != smr && node != smr && smr in d.nodes
    requires node2 != "" && st.systems.Some? && system in st.systems.value
    requires SystemMetaRoot(AsCurrent(st), e, system) == Answer(smr)
    ensures HasAttr(e, smr, name)
    ensures LegacyRigNodeAddedAsWritten(st, e, node2, system, name).status != Refused(RigNodeExists)
  {
    RegisteredNameListed(d, e, st.metaRoot, smr, nw, node, name);
    NameUnlistedAdmitted(st, e, node2, system, name, smr);
  }

  /** The check as written refuses a name only when smr lists it in category metaNode. */
  lemma NameUnlistedAdmitted(st: LegacyState, e: Doc, node: Node, system: Name, name: Name, smr: Node)
    requires SystemMetaRoot(AsCurrent(st), e, system) == Answer(smr) && name !in ListAttr(e, smr, MetaNode)
    ensures LegacyRigNodeAddedAsWritten(st, e, node, system, name).status != Refused(RigNodeExists)
  {
  }

  /** Listing the names from category metaConnection refuses the second node. */
  lemma DuplicateNameRefused(st: LegacyState, d: Doc, e: Doc, smr: Node, nw: Node, node: Node, name: Name, node2: Node, system: Name)
    requires NetworkRegistered(d, e, st.metaRoot, smr, nw, node, name)
    requires name != "" && !HasAttr(d, smr, name)
    requires nw != smr && node != smr && smr in d.nodes
    requires node2 != "" && st.systems.Some? && system in st.systems.value
    requires SystemMetaRoot(AsCurrent(st), e, system) == Answer(smr)
    ensures LegacyRigNodeAdded(st, e, node2, system, name) == Step(Refused(RigNodeExists), e)
  {
    RegisteredNameListed(d, e, st.metaRoot, smr, nw, node, name);
  }

  /** After the registration, the new network is fed by metaRoot.message and feeds
      node.metaNode, and the node is no rig node unless it was one before. */
  lemma RegisteredFeeds(d: Doc, e: Doc, metaRoot: Node, smr: Node, nw: Node, node: Node, name: Name)
    requires NetworkRegistered(d, e, metaRoot, smr, nw, node, name)
    requires nw != smr && nw != node && node != smr && nw != metaRoot
    ensures Plug(nw, MetaRootAttr) in e.inputs && e.inputs[Plug(nw, MetaRootAttr)] == Plug(metaRoot, MessageAttr)
    ensures Plug(node, MetaNodeAttr) in e.inputs && e.inputs[Plug(node, MetaNodeAttr)] == Plug(nw, MessageAttr)
    ensures nw in Destinations(e, Plug(metaRoot, MessageAttr))
    ensures forall q | q in e.inputs && q.node == node && q != Plug(node, MetaNodeAttr) :: q in d.inputs && e.inputs[q] == d.inputs[q]
  {
    var q := Plug(nw, MetaRootAttr);
    assert q in e.inputs && e.inputs[q] == Plug(metaRoot, MessageAttr);
  }

  /** The scene nodes that feed or are fed by metaRoot.message stay out of the rig's
      node set when nothing new connects them there. */
  lemma RegisteredUnseen(d: Doc, e: Doc, metaRoot: Node, smr: Node, nw: Node, node: Node, name: Name)
    requires NetworkRegistered(d, e, metaRoot, smr, nw, node, name)
    requires nw != smr && nw != node && node != smr && nw != metaRoot && metaRoot in d.nodes
    requires name != MessageAttr && node !in Destinations(d, Plug(metaRoot, MessageAttr))
    requires node !in ListConnections(d, Plug(metaRoot, MessageAttr))
    ensures node !in Destinations(e, Plug(metaRoot, MessageAttr))
    ensures node !in ListConnections(e, Plug(metaRoot, MessageAttr))
  {
    RegisteredNoNewDestination(d, e, metaRoot, smr, nw, node, name);
    RegisteredRootListing(d, e, metaRoot, smr, nw, node, name);
  }

  /** What metaRoot.message is connected to is left as it was. */
  lemma RegisteredRootListing(d: Doc, e: Doc, metaRoot: Node, smr: Node, nw: Node, node: Node, name: Name)
    requires NetworkRegistered(d, e, metaRoot, smr, nw, node, name)
    requires nw != metaRoot && name != MessageAttr
    ensures ListConnections(e, Plug(metaRoot, MessageAttr)) == ListConnections(d, Plug(metaRoot, MessageAttr))
  {
    var p := Plug(metaRoot, MessageAttr);
    assert p in e.inputs <==> p in d.inputs;
    assert p in e.inputs ==> e.inputs[p] == d.inputs[p];
  }

  /** No plug of the node is newly fed by metaRoot.message. */
  lemma RegisteredNoNewDestination(d: Doc, e: Doc, metaRoot: Node, smr: Node, nw: Node, node: Node, name: Name)
    requires NetworkRegistered(d, e, metaRoot, smr, nw, node, name)
    requires nw != smr && nw != node && node != smr && nw != metaRoot
    requires node !in Destinations(d, Plug(metaRoot, MessageAttr))
    ensures node !in Destinations(e, Plug(metaRoot, MessageAttr))
  {
    RegisteredFeeds(d, e, metaRoot, smr, nw, node, name);
    var p := Plug(metaRoot, MessageAttr);
    forall q | q in e.inputs && q.node == node && e.inputs[q] == p ensures q in d.inputs && d.inputs[q] == p {
    }
  }

  /** As written, addRigNode's membership test compares the node with what
      metaRoot.message is connected to (metadata_old.py lines 244-250, 270-272), which
      are the meta networks, never the scene nodes they stand for: a node registered
      once passes the test again, and a second addRigNode would give it a second network
      and overwrite its metaNode link. */
  lemma RegisteredNodeUnseenAsWritten(st: LegacyState, d: Doc, e: Doc, smr: Node, nw: Node, node: Node, name: Name, system: Name, name': Name)
    requires NetworkRegistered(d, e, st.metaRoot, smr, nw, node, name)
    requires nw != smr && nw != node && node != smr && nw != st.metaRoot && st.metaRoot in d.nodes
    requires name != MessageAttr && node !in MetaRigNodes(AsCurrent(st), d).value
    ensures MetaRigNodes(AsCurrent(st), e).Ok? && node !in MetaRigNodes(AsCurrent(st), e).value
    ensures ListConnections(e, Plug(node, MetaNodeAttr))[0] == nw
    ensures LegacyAdmission(st, e, node, system, name', false) != Declined(AlreadyInRig)
  {
    RegisteredUnseen(d, e, st.metaRoot, smr, nw, node, name);
    RegisteredFeeds(d, e, st.metaRoot, smr, nw, node, name);
    assert MetaRigNodes(AsCurrent(st), e).Ok? && node !in MetaRigNodes(AsCurrent(st), e).value;
    UnseenAdmitted(st, e, node, system, name');
  }

  /** The check as written declines a node as in the rig only when it is in the rig's
      node set itself. */
  lemma UnseenAdmitted(st: LegacyState, e: Doc, node: Node, system: Name, name': Name)
    requires MetaRigNodes(AsCurrent(st), e).Ok? && node !in MetaRigNodes(AsCurrent(st), e).value
    ensures LegacyAdmission(st, e, node, system, name', false) != Declined(AlreadyInRig)
  {
  }

  /** A node whose meta network is among the rig's nodes passes no corrected admission. */
  lemma InRigNotAdmitted(st: LegacyState, e: Doc, node: Node, system: Name, name': Name)
    requires MetaRigNodes(AsCurrent(st), e).Ok? && MetaInRig(e, node, MetaRigNodes(AsCurrent(st), e).value)
    ensures !LegacyAdmission(st, e, node, system, name', true).Answer?
    ensures !LegacyRigNodeAdded(st, e, node, system, name').status.Done?
  {
  }

  /** Counting a node whose meta network is in the rig as in the rig refuses it, or the
      call fails earlier, whatever system and name are given. */
  lemma RegisteredNodeRefused(st: LegacyState, d: Doc, e: Doc, smr: Node, nw: Node, node: Node, name: Name, system: Name, name': Name)
    requires NetworkRegistered(d, e, st.metaRoot, smr, nw, node, name)
    requires nw != smr && nw != node && node != smr && nw != st.metaRoot && st.metaRoot in d.nodes
    ensures MetaRigNodes(AsCurrent(st), e).Ok? && MetaInRig(e, node, MetaRigNodes(AsCurrent(st), e).value)
    ensures !LegacyRigNodeAdded(st, e, node, system, name').status.Done?
  {
    RegisteredFeeds(d, e, st.metaRoot, smr, nw, node, name);
    assert ListConnections(e, Plug(node, MetaNodeAttr))[0] == nw;
    InRigNotAdmitted(st, e, node, system, name');
  }

  // ---------------------------------------------------------------- build

  /** The metaRoot's link to the root, and the root's link to the metaRoot. */
  const RootLinkOnMeta: Decl := Decl(RootAttr, Message, MetaConnection, false)
  const MetaLinkOnRoot: Decl := Decl(MetaNodeAttr, Message, MetaRootConnection, false)

  /** The metaRoot network build creates. */
  function BuiltMetaRoot(st: LegacyState, d: Doc): (mr: Node)
    ensures mr !in d.nodes && mr != ""
  {
    FreshName(d.nodes, NodeBase(st.name))
  }

  /** The 'root' system's network build creates. */
  function BuiltSystemNetwork(st: LegacyState, d: Doc): (nw: Node)
    ensures nw !in d.nodes && nw != BuiltMetaRoot(st, d) && nw != ""
  {
    FreshName(d.nodes + {BuiltMetaRoot(st, d)}, NodeBase(SystemNodeBase(st.name, "root")))
  }

  /** build's first two connections, between the root and a new metaRoot. */
  lemma RootLinked(d: Doc, root: Node, mr: Node)
    requires Carries(d, root) && mr !in d.nodes && mr != "" && !HasAttr(d, root, MetaNodeAttr)
    ensures var s1 := Connected(Created(d, mr), root, mr, MessageAttr, RootAttr, MetaConnection);
      var s2 := Connected(s1.doc, mr, root, MessageAttr, MetaNodeAttr, MetaRootConnection);
      && s1.status == Done && s2.status == Done
      && s2.doc.nodes == d.nodes + {mr} && s2.doc.values == d.values && s2.doc.arrays == d.arrays
      && s2.doc.inputs == d.inputs[Plug(mr, RootAttr) := Plug(root, MessageAttr)][Plug(root, MetaNodeAttr) := Plug(mr, MessageAttr)]
      && Decls(s2.doc, mr) == [MessageDecl, RootLinkOnMeta]
      && Decls(s2.doc, root) == Decls(d, root) + [MetaLinkOnRoot]
      && (forall m | m != mr && m != root :: Decls(s2.doc, m) == Decls(d, m))
  {
    var d0 := Created(d, mr);
    assert Decls(d0, root) == Decls(d, root);
    ConnectedInto(d0, root, mr, MessageAttr, RootAttr, MetaConnection);
    var d1 := Connected(d0, root, mr, MessageAttr, RootAttr, MetaConnection).doc;
    assert Decls(d1, mr) == [MessageDecl, RootLinkOnMeta];
    assert Carries(d1, mr) by {
      assert Decls(d1, mr)[0] == MessageDecl;
    }
    ConnectedInto(d1, mr, root, MessageAttr, MetaNodeAttr, MetaRootConnection);
  }

  /** A system named after an attribute the metaRoot already has adds nothing to it. */
  lemma ShapedOnExisting(d: Doc, e: Doc, metaRoot: Node, nw: Node, name: Name, systemType: string, side: string)
    requires side in Sides && HasAttr(d, metaRoot, name) && nw != metaRoot
    requires LegacySystemShaped(d, e, metaRoot, nw, name, systemType, side)
    ensures forall m | m != nw :: Decls(e, m) == Decls(d, m)
  {
    assert Missing(d, metaRoot, name, MetaSystem) == [];
  }

  lemma SystemsFromEmpty(st: LegacyState, r: LegacyState, name: Name)
    requires st.systems == Some([]) && r == st.(systems := Some(st.systems.value + [name]))
    ensures r == st.(systems := Some([name]))
  {
    assert st.systems.value + [name] == [name];
  }

  /** build's system 'root' is named after metaRoot.root, the attribute that already
      holds the link to the root: the system's network then feeds it in the root's
      place, and no attribute of category metaSystem is added to the metaRoot. */
  lemma SystemOnExisting(st: LegacyState, d: Doc, systemType: string, side: string, name: Name)
    requires st.systems == Some([]) && name != "" && side in Sides && Carries(d, st.metaRoot) && HasAttr(d, st.metaRoot, name)
    requires Receives(d, st.metaRoot, name)
    ensures var r := LegacySystemAdded(st, d, systemType, side, name);
      var nw := LegacySystemNetwork(st, d, name);
      && r.status == Done && r.rig == st.(systems := Some([name]))
      && r.doc.nodes == d.nodes + {nw} && r.doc.arrays == d.arrays
      && r.doc.inputs == d.inputs[Plug(nw, MetaRootAttr) := Plug(st.metaRoot, MessageAttr)][Plug(st.metaRoot, name) := Plug(nw, MessageAttr)]
      && r.doc.values == d.values[Plug(nw, SystemTypeAttr) := StrV(systemType)][Plug(nw, SideAttr) := IntV(SideIndex(side).value)]
      && Decls(r.doc, nw) == LegacySystemDecls
      && (forall m | m != nw :: Decls(r.doc, m) == Decls(d, m))
  {
    LegacySystemAddedEffect(st, d, systemType, side, name);
    SystemsFromEmpty(st, LegacySystemAdded(st, d, systemType, side, name).rig, name);
    ShapedOnExisting(d, LegacySystemAdded(st, d, systemType, side, name).doc, st.metaRoot, LegacySystemNetwork(st, d, name), name, systemType, side);
  }

  /** build's addRigNode(root, 'root', 'root') finds the root already in the rig, since
      metaRoot.message feeds root.metaNode, and changes nothing. */
  lemma RootAdmissionDeclined(st: LegacyState, e: Doc, nw: Node, corrected: bool)
    requires st.systems == Some(["root"]) && st.root != "" && st.metaRoot in e.nodes && nw in e.nodes
    requires HasAttr(e, st.metaRoot, RootAttr) && Plug(st.metaRoot, RootAttr) !in e.arrays
    requires Plug(st.metaRoot, RootAttr) in e.inputs && e.inputs[Plug(st.metaRoot, RootAttr)] == Plug(nw, MessageAttr)
    requires Decls(e, nw) == LegacySystemDecls
    requires Plug(st.root, MetaNodeAttr) in e.inputs && e.inputs[Plug(st.root, MetaNodeAttr)] == Plug(st.metaRoot, MessageAttr)
    ensures LegacyAdmission(st, e, st.root, "root", "root", corrected) == Declined(AlreadyInRig)
    ensures LegacyRigNodeAddedWith(st, e, st.root, "root", "root", corrected) == Step(Refused(AlreadyInRig), e)
  {
    assert SystemMetaRoot(AsCurrent(st), e, "root") == Answer(nw) by {
      assert ListConnections(e, Plug(st.metaRoot, RootAttr)) == [nw];
    }
    assert ListAttr(e, nw, MetaNode) == [] && ListAttr(e, nw, MetaConnection) == [] by {
      InCategoryNone(Decls(e, nw), MetaNode);
      InCategoryNone(Decls(e, nw), MetaConnection);
    }
    assert st.root in Destinations(e, Plug(st.metaRoot, MessageAttr));
  }

  /** What build's create branch leaves, over the documents between its steps. */
  lemma CreatedIs(st: LegacyState, d: Doc, corrected: bool, o: LegacyOutcome)
    requires var mr := BuiltMetaRoot(st, d);
      var s1 := Connected(Created(d, mr), st.root, mr, MessageAttr, RootAttr, MetaConnection);
      var s2 := Connected(s1.doc, mr, st.root, MessageAttr, MetaNodeAttr, MetaRootConnection);
      && s1.status == Done && s2.status == Done
      && o == LegacySystemAdded(st.(metaRoot := mr), s2.doc, "root", "centre", "root") && o.status == Done
    requires LegacyRigNodeAddedWith(o.rig, o.doc, st.root, "root", "root", corrected) == Step(Refused(AlreadyInRig), o.doc)
    ensures LegacyCreated(st, d, corrected) == LegacyOutcome(Done, o.rig, o.doc)
  {
  }

  /** build's system 'root' and its registration of the root, after the two links. */
  lemma CreatedSystemStep(st: LegacyState, d: Doc, d2: Doc, corrected: bool)
    requires var mr := st.metaRoot;
      && Carries(d, st.root) && Anchored(d) && st.systems == Some([]) && mr !in d.nodes && mr != ""
      && d2.nodes == d.nodes + {mr} && d2.arrays == d.arrays
      && d2.inputs == d.inputs[Plug(mr, RootAttr) := Plug(st.root, MessageAttr)][Plug(st.root, MetaNodeAttr) := Plug(mr, MessageAttr)]
      && Decls(d2, mr) == [MessageDecl, RootLinkOnMeta]
    ensures var mr := st.metaRoot;
      var o := LegacySystemAdded(st, d2, "root", "centre", "root");
      var nw := LegacySystemNetwork(st, d2, "root");
      && o.status == Done && o.rig == st.(systems := Some(["root"]))
      && o.doc.nodes == d2.nodes + {nw} && o.doc.arrays == d.arrays
      && o.doc.inputs == d2.inputs[Plug(nw, MetaRootAttr) := Plug(mr, MessageAttr)][Plug(mr, RootAttr) := Plug(nw, MessageAttr)]
      && Decls(o.doc, nw) == LegacySystemDecls
      && (forall m | m != nw :: Decls(o.doc, m) == Decls(d2, m))
      && LegacyRigNodeAddedWith(o.rig, o.doc, st.root, "root", "root", corrected) == Step(Refused(AlreadyInRig), o.doc)
  {
    var mr := st.metaRoot;
    assert Carries(d2, mr) && HasAttr(d2, mr, RootAttr) by {
      assert Decls(d2, mr)[0] == MessageDecl && Decls(d2, mr)[1] == RootLinkOnMeta;
    }
    SystemOnExisting(st, d2, "root", "centre", "root");
    var o := LegacySystemAdded(st, d2, "root", "centre", "root");
    var nw := LegacySystemNetwork(st, d2, "root");
    assert Plug(mr, RootAttr) !in o.doc.arrays;
    assert HasAttr(o.doc, mr, RootAttr) by {
      assert Decls(o.doc, mr) == Decls(d2, mr);
    }
    RootAdmissionDeclined(o.rig, o.doc, nw, corrected);
  }

  /** The two links and the system step, composed. */
  lemma CreatedFinal(d: Doc, d2: Doc, e: Doc, root: Node, mr: Node, nw: Node)
    requires mr != root && nw != root && nw != mr
    requires d2.nodes == d.nodes + {mr} && d2.arrays == d.arrays
    requires d2.inputs == d.inputs[Plug(mr, RootAttr) := Plug(root, MessageAttr)][Plug(root, MetaNodeAttr) := Plug(mr, MessageAttr)]
    requires Decls(d2, mr) == [MessageDecl, RootLinkOnMeta]
    requires Decls(d2, root) == Decls(d, root) + [MetaLinkOnRoot]
    requires forall m | m != mr && m != root :: Decls(d2, m) == Decls(d, m)
    requires e.nodes == d2.nodes + {nw} && e.arrays == d.arrays
    requires e.inputs == d2.inputs[Plug(nw, MetaRootAttr) := Plug(mr, MessageAttr)][Plug(mr, RootAttr) := Plug(nw, MessageAttr)]
    requires Decls(e, nw) == LegacySystemDecls
    requires forall m | m != nw :: Decls(e, m) == Decls(d2, m)
    ensures e.nodes == d.nodes + {mr, nw}
    ensures e.inputs == d.inputs[Plug(mr, RootAttr) := Plug(root, MessageAttr)][Plug(root, MetaNodeAttr) := Plug(mr, MessageAttr)]
                                [Plug(nw, MetaRootAttr) := Plug(mr, MessageAttr)][Plug(mr, RootAttr) := Plug(nw, MessageAttr)]
    ensures Decls(e, mr) == [MessageDecl, RootLinkOnMeta]
    ensures Decls(e, root) == Decls(d, root) + [MetaLinkOnRoot]
    ensures forall m | m != mr && m != nw && m != root :: Decls(e, m) == Decls(d, m)
  {
    assert Decls(e, mr) == Decls(d2, mr) && Decls(e, root) == Decls(d2, root);
  }

  /** build() on a root without meta, in a scene whose plugs all belong to its nodes:
      one metaRoot and one system network are created; the root and the metaRoot are
      linked both ways, then the 'root' system's network takes over metaRoot.root; the
      rig lists the system 'root'; and the root is not registered, because it already
      counts as connected to the rig, so root.metaNode stays fed by the metaRoot. */
  lemma LegacyCreatedEffect(st: LegacyState, d: Doc, corrected: bool)
    requires Carries(d, st.root) && !HasAttr(d, st.root, MetaNodeAttr) && Anchored(d) && st.systems == Some([])
    ensures var mr := BuiltMetaRoot(st, d);
      var nw := BuiltSystemNetwork(st, d);
      var r := LegacyCreated(st, d, corrected);
      && r.status == Done && r.rig == st.(metaRoot := mr, systems := Some(["root"]))
      && r.doc.nodes == d.nodes + {mr, nw} && r.doc.arrays == d.arrays
      && r.doc.inputs == d.inputs[Plug(mr, RootAttr) := Plug(st.root, MessageAttr)][Plug(st.root, MetaNodeAttr) := Plug(mr, MessageAttr)]
                                 [Plug(nw, MetaRootAttr) := Plug(mr, MessageAttr)][Plug(mr, RootAttr) := Plug(nw, MessageAttr)]
      && Decls(r.doc, mr) == [MessageDecl, RootLinkOnMeta]
      && Decls(r.doc, st.root) == Decls(d, st.root) + [MetaLinkOnRoot]
      && Decls(r.doc, nw) == LegacySystemDecls
      && (forall m | m != mr && m != nw && m != st.root :: Decls(r.doc, m) == Decls(d, m))
  {
    var mr := BuiltMetaRoot(st, d);
    RootLinked(d, st.root, mr);
    var d2 := Connected(Connected(Created(d, mr), st.root, mr, MessageAttr, RootAttr, MetaConnection).doc, mr, st.root, MessageAttr, MetaNodeAttr, MetaRootConnection).doc;
    CreatedSystemStep(st.(metaRoot := mr), d, d2, corrected);
    var o := LegacySystemAdded(st.(metaRoot := mr), d2, "root", "centre", "root");
    CreatedIs(st, d, corrected, o);
    assert LegacySystemNetwork(st.(metaRoot := mr), d2, "root") == BuiltSystemNetwork(st, d);
    CreatedFinal(d, d2, o.doc, st.root, mr, BuiltSystemNetwork(st, d));
  }

  /** After build, the root has meta of type metaRootConnection. */
  lemma RootHasMeta(d: Doc, e: Doc, root: Node)
    requires root in e.nodes && !HasAttr(d, root, MetaNodeAttr) && Decls(e, root) == Decls(d, root) + [MetaLinkOnRoot]
    ensures HasAttr(e, root, MetaNodeAttr)
    ensures HasMeta(e, root, MetaRootConnection) == Ok(true)
  {
    LookupAppend(Decls(d, root), MetaLinkOnRoot, MetaNodeAttr);
    assert MetaLinkOnRoot in Decls(e, root);
  }

  /** Reloading from a root whose metaNode is fed by a metaRoot that has no attribute of
      category metaSystem. */
  lemma ReloadedState(st: LegacyState, e: Doc, mr: Node)
    requires HasAttr(e, st.root, MetaNodeAttr) && Plug(st.root, MetaNodeAttr) !in e.arrays
    requires Plug(st.root, MetaNodeAttr) in e.inputs && e.inputs[Plug(st.root, MetaNodeAttr)] == Plug(mr, MessageAttr)
    requires mr in e.nodes && Decls(e, mr) == [MessageDecl, RootLinkOnMeta]
    ensures LegacyLoaded(st, e) == LegacyOutcome(Done, st.(metaRoot := mr, name := mr, systems := Some([])), e)
    ensures LegacyLoadedAsWritten(st, e) == LegacyOutcome(Done, st.(metaRoot := mr, name := mr, systems := None), e)
  {
    assert ListConnections(e, Plug(st.root, MetaNodeAttr)) == [mr];
    InCategoryNone(Decls(e, mr), MetaSystem);
  }

  /** As written, a rig reloaded from the root of a rig built in the same scene caches
      `systems` as None (metadata_old.py line 204: listAttr finds no attribute of category
      metaSystem and returns None), and its next addSystem raises. */
  lemma ReloadAsWritten(root: Node, name: Name, name2: Name, d: Doc, systemType: string, side: string, system: Name)
    requires Carries(d, root) && !HasAttr(d, root, MetaNodeAttr) && Anchored(d) && Plug(root, MetaNodeAttr) !in d.arrays
    requires system != ""
    ensures var made := LegacyBuiltAsWritten(LegacyStart(root, name), d);
      var loaded := LegacyBuiltAsWritten(LegacyStart(root, name2), made.doc);
      && made.status == Done && made.rig.systems == Some(["root"])
      && loaded.status == Done && loaded.rig.metaRoot == made.rig.metaRoot && loaded.rig.systems == None
      && LegacySystemAdded(loaded.rig, made.doc, systemType, side, system) == LegacyOutcome(Raised(NoneNotIterable), loaded.rig, made.doc)
  {
    var st := LegacyStart(root, name);
    LegacyCreatedEffect(st, d, false);
    var made := LegacyCreated(st, d, false);
    RootHasMeta(d, made.doc, root);
    ReloadedState(LegacyStart(root, name2), made.doc, BuiltMetaRoot(st, d));
  }

  /** With [] for listAttr's None the reloaded rig takes new systems, though it still
      does not list the 'root' system the first build added, whose name attribute
      never received category metaSystem. */
  lemma ReloadCorrected(root: Node, name: Name, name2: Name, d: Doc, systemType: string, side: string, system: Name)
    requires Carries(d, root) && !HasAttr(d, root, MetaNodeAttr) && Anchored(d) && Plug(root, MetaNodeAttr) !in d.arrays
    requires system != "" && side in Sides
    ensures var made := LegacyBuilt(LegacyStart(root, name), d);
      var loaded := LegacyBuilt(LegacyStart(root, name2), made.doc);
      && made.status == Done && made.rig.systems == Some(["root"])
      && loaded.status == Done && loaded.rig.metaRoot == made.rig.metaRoot && loaded.rig.systems == Some([])
      && LegacySystemAdded(loaded.rig, made.doc, systemType, side, system).status == Done
  {
    var st := LegacyStart(root, name);
    LegacyCreatedEffect(st, d, true);
    var made := LegacyCreated(st, d, true);
    var mr := BuiltMetaRoot(st, d);
    RootHasMeta(d, made.doc, root);
    ReloadedState(LegacyStart(root, name2), made.doc, mr);
    var loaded := LegacyStart(root, name2).(metaRoot := mr, name := mr, systems := Some([]));
    assert Carries(made.doc, mr) by {
      assert Decls(made.doc, mr)[0] == MessageDecl;
    }
    MetaRootReceives(made.doc, mr, system);
    LegacySystemAddedEffect(loaded, made.doc, systemType, side, system);
  }

  /** A metaRoot holding only message attributes takes a message connection under any name. */
  lemma MetaRootReceives(e: Doc, mr: Node, a: Name)
    requires Decls(e, mr) == [MessageDecl, RootLinkOnMeta]
    ensures Receives(e, mr, a)
  {
  }
}
