/** getSystemNodes as written against a system made by addSystem: the network's
    own metaType attribute has category metaNode and nothing feeds it, so the rig
    node listing raises on it, before and after rig nodes are added. */
module RigFindings {
  import opened Outcomes
  import opened Scene
  import opened MetaLinks
  import opened Commands
  import opened Rig
  import opened RigLaws
  import opened RigNodeLaws

  /** The attribute names addSystem gives a network besides the UI ones. */
  const NetworkAttrNames: set<Name> := {MessageAttr, MetaRootAttr, SystemNameAttr, SystemTypeAttr, SideAttr, MetaTypeAttr}

  /** A network shaped by addSystem has no attribute of any other name. */
  lemma NetworkNamesOnly(ds: seq<Decl>, a: Name)
    requires SystemDecls <= ds
    requires forall x <- ds[|SystemDecls|..] :: x.name in UINames && x.category == MetaUI
    requires a !in NetworkAttrNames && a !in UINames
    ensures Lookup(ds, a) == None
  {
    forall x <- ds ensures x.name != a {
      var j :| 0 <= j < |ds| && ds[j] == x;
      if j < |SystemDecls| {
        assert x == SystemDecls[j];
      } else {
        assert ds[|SystemDecls|..][j - |SystemDecls|] == x;
      }
    }
  }

  /** The new network's metaType exists and, in a sound scene, nothing feeds it. */
  lemma NetworkTypeUnfed(d: Doc, e: Doc, root: Node, nw: Node, name: Name, systemType: string, side: string)
    requires side in Sides && SystemShaped(d, e, root, nw, name, systemType, side) && root != nw
    requires Plug(nw, MetaTypeAttr) !in d.inputs && Plug(nw, MetaTypeAttr) !in d.arrays
    ensures HasAttr(e, nw, MetaTypeAttr)
    ensures ListConnections(e, Plug(nw, MetaTypeAttr)) == []
  {
    NetworkNames(Decls(e, nw));
    assert Decls(e, nw)[5] in Decls(e, nw);
  }

  /** getSystemNodes as written raises when the first metaNode attribute of the
      system network has nothing connected. */
  lemma SystemNodesUnfed(rig: RigState, d: Doc, system: Name, smr: Node)
    requires SystemMetaRoot(rig, d, system) == Answer(smr) && smr in d.nodes
    requires ListAttr(d, smr, MetaNode) != []
    requires HasAttr(d, smr, ListAttr(d, smr, MetaNode)[0])
    requires ListConnections(d, Plug(smr, ListAttr(d, smr, MetaNode)[0])) == []
    ensures SystemNodes(rig, d, system) == Threw(EmptyListing)
  {
  }

  /** Every plug that has an input or elements belongs to a node of the scene, as in
      a sound scene. */
  ghost predicate Anchored(d: Doc) {
    && (forall p <- d.inputs :: p.node in d.nodes)
    && (forall p <- d.arrays :: p.node in d.nodes)
  }

  lemma SoundAnchored(d: Doc)
    requires Sound(d)
    ensures Anchored(d)
  {
  }

  /** The scene addSystem leaves, with the network's metaType unfed. */
  lemma SystemAddedUnfed(rig: RigState, d: Doc, systemType: string, side: string, name: Name)
    requires Anchored(d) && CanAddSystem(rig, d, side, name)
    ensures var r := SystemAdded(rig, d, systemType, side, name);
      var nw := NewNetwork(rig, d, name);
      && SystemMetaRoot(r.rig, r.doc, name) == Answer(nw) && nw in r.doc.nodes
      && ListAttr(r.doc, nw, MetaNode) == [MetaTypeAttr]
      && HasAttr(r.doc, nw, MetaTypeAttr) && ListConnections(r.doc, Plug(nw, MetaTypeAttr)) == []
  {
    var nw := NewNetwork(rig, d, name);
    SystemAddedEffect(rig, d, systemType, side, name);
    SystemAddedQueries(rig, d, systemType, side, name);
    assert Plug(nw, MetaTypeAttr) !in d.inputs && Plug(nw, MetaTypeAttr) !in d.arrays;
    NetworkTypeUnfed(d, SystemAdded(rig, d, systemType, side, name).doc, rig.root, nw, name, systemType, side);
  }

  /** As written, getSystemNodes of a system just added raises on the network's
      unconnected metaType instead of answering that the system has no rig nodes. */
  lemma SystemNodesAsWritten(rig: RigState, d: Doc, systemType: string, side: string, name: Name)
    requires Anchored(d) && CanAddSystem(rig, d, side, name)
    ensures var r := SystemAdded(rig, d, systemType, side, name);
      SystemNodes(r.rig, r.doc, name) == Threw(EmptyListing)
  {
    SystemAddedUnfed(rig, d, systemType, side, name);
    var r := SystemAdded(rig, d, systemType, side, name);
    SystemNodesUnfed(r.rig, r.doc, name, NewNetwork(rig, d, name));
  }

  /** Skipping attributes that nothing feeds, the system just added has no rig nodes. */
  lemma SystemNodesCorrected(rig: RigState, d: Doc, systemType: string, side: string, name: Name)
    requires Anchored(d) && CanAddSystem(rig, d, side, name)
    ensures var r := SystemAdded(rig, d, systemType, side, name);
      SystemNodesFixed(r.rig, r.doc, name) == Answer([])
  {
    SystemAddedUnfed(rig, d, systemType, side, name);
  }

  // ---------------------------------------------------------------- and after a rig node

  /** addSystem connects only the new network to the root's message. */
  lemma ShapedRigNodes(rig: RigState, d: Doc, e: Doc, nw: Node, name: Name, systemType: string, side: string)
    requires side in Sides && SystemShaped(d, e, rig.root, nw, name, systemType, side)
    requires rig.root != nw && rig.root in d.nodes && rig.root in e.nodes
    ensures MetaRigNodes(rig, e).Ok? && MetaRigNodes(rig, d).Ok?
    ensures MetaRigNodes(rig, e).value <= MetaRigNodes(rig, d).value + {nw}
  {
    var p := Plug(rig.root, MessageAttr);
    forall x <- Destinations(e, p) ensures x in Destinations(d, p) + {nw} {
      if q :| q in e.inputs && e.inputs[q] == p && q.node == x {
        if q != Plug(nw, MetaRootAttr) {
          assert q in d.inputs && d.inputs[q] == p;
        }
      }
    }
    assert ListConnections(e, p) == ListConnections(d, p) || ListConnections(e, p) == [nw] + Placed(SlotsOf(d, p));
  }

  /** A rig node name the new network does not already carry. */
  predicate FreeOnNetwork(a: Name) {
    a != "" && a !in NetworkAttrNames && a !in UINames
  }

  /** A scene e that addSystem made from d by adding network nw for system `name`. */
  ghost predicate NetworkAdded(root: Node, d: Doc, e: Doc, nw: Node, name: Name, systemType: string, side: string) {
    && side in Sides && SystemShaped(d, e, root, nw, name, systemType, side)
    && e.nodes == d.nodes + {nw} && nw !in d.nodes && nw != "" && Carries(d, root)
  }

  /** ... together with what the rig afterwards finds on the network: it is the
      system's meta root, lists metaType as its one metaNode attribute and leaves
      metaType unfed. */
  ghost predicate AfterSystem(rig: RigState, d: Doc, e: Doc, nw: Node, name: Name, systemType: string, side: string) {
    && NetworkAdded(rig.root, d, e, nw, name, systemType, side)
    && rig.systems.Some? && name in rig.systems.value
    && SystemMetaRoot(rig, e, name) == Answer(nw) && ListAttr(e, nw, MetaNode) == [MetaTypeAttr]
    && HasAttr(e, nw, MetaTypeAttr) && ListConnections(e, Plug(nw, MetaTypeAttr)) == []
  }

  /** addSystem in a scene whose plugs belong to its nodes leaves AfterSystem. */
  lemma SystemAddedAfter(rig: RigState, d: Doc, systemType: string, side: string, name: Name)
    requires Anchored(d) && CanAddSystem(rig, d, side, name)
    ensures var r := SystemAdded(rig, d, systemType, side, name);
      AfterSystem(r.rig, d, r.doc, NewNetwork(rig, d, name), name, systemType, side)
  {
    SystemAddedEffect(rig, d, systemType, side, name);
    SystemAddedUnfed(rig, d, systemType, side, name);
  }

  /** After addSystem, addRigNode's checks pass for a node of the scene that is
      neither the root nor connected to it, under a name free on the network. */
  lemma AdmittedAfterSystem(rig: RigState, d: Doc, e: Doc, nw: Node, name: Name, systemType: string, side: string, node: Node, nodeName: Name)
    requires NetworkAdded(rig.root, d, e, nw, name, systemType, side)
    requires rig.systems.Some? && name in rig.systems.value
    requires SystemMetaRoot(rig, e, name) == Answer(nw) && ListAttr(e, nw, MetaNode) == [MetaTypeAttr]
    requires Carries(d, node) && node != rig.root && node !in MetaRigNodes(rig, d).value && nodeName != MetaTypeAttr
    ensures Admits(rig, e, node, name, nodeName, nw)
  {
    UnseenAfterSystem(rig, d, e, nw, name, systemType, side, node);
  }

  /** ... since addSystem adds only the network to the rig's nodes ... */
  lemma UnseenAfterSystem(rig: RigState, d: Doc, e: Doc, nw: Node, name: Name, systemType: string, side: string, node: Node)
    requires NetworkAdded(rig.root, d, e, nw, name, systemType, side)
    requires node in d.nodes && node !in MetaRigNodes(rig, d).value
    ensures nw in e.nodes && MetaRigNodes(rig, e).Ok? && node !in MetaRigNodes(rig, e).value
  {
    ShapedRigNodes(rig, d, e, nw, name, systemType, side);
  }

  /** ... and the root still carries `message` ... */
  lemma RootAfterSystem(rig: RigState, d: Doc, e: Doc, nw: Node, name: Name, systemType: string, side: string)
    requires NetworkAdded(rig.root, d, e, nw, name, systemType, side)
    ensures Carries(e, rig.root)
  {
    Kept(d, e, rig.root, if HasAttr(d, rig.root, name) then [] else [Decl(name, Message, MetaSystem, false)], MessageAttr);
  }

  /** ... as does any other node of the scene, whose declarations are untouched ... */
  lemma CarriedAfterSystem(rig: RigState, d: Doc, e: Doc, nw: Node, name: Name, systemType: string, side: string, node: Node)
    requires NetworkAdded(rig.root, d, e, nw, name, systemType, side)
    requires Carries(d, node) && node != rig.root && UIReady(d, node)
    ensures Carries(e, node) && UIReady(e, node) && Decls(e, node) == Decls(d, node)
  {
    assert Decls(e, node) == Decls(d, node);
  }

  /** ... while the new network carries `message`, is tied to the root and has no
      attribute under a name free on the network. */
  lemma NetworkAfterSystem(rig: RigState, d: Doc, e: Doc, nw: Node, name: Name, systemType: string, side: string, nodeName: Name)
    requires NetworkAdded(rig.root, d, e, nw, name, systemType, side) && FreeOnNetwork(nodeName)
    ensures Carries(e, nw) && !HasAttr(e, nw, nodeName)
    ensures Plug(nw, MetaRootAttr) in e.inputs && e.inputs[Plug(nw, MetaRootAttr)] == Plug(rig.root, MessageAttr)
  {
    assert Decls(e, nw)[0] == MessageDecl;
    NetworkNamesOnly(Decls(e, nw), nodeName);
  }

  /** ... so addRigNode's three connections all go into absent or message attributes ... */
  lemma ReceivesAfterSystem(rig: RigState, d: Doc, e: Doc, nw: Node, name: Name, systemType: string, side: string, node: Node, nodeName: Name)
    requires NetworkAdded(rig.root, d, e, nw, name, systemType, side)
    requires Carries(d, node) && node != rig.root && UIReady(d, node) && FreeOnNetwork(nodeName)
    requires Receives(d, node, SystemMetaRootAttr) && Receives(d, node, MetaRootAttr)
    ensures LinksReceive(e, nw, node, nodeName)
  {
    CarriedAfterSystem(rig, d, e, nw, name, systemType, side, node);
    NetworkAfterSystem(rig, d, e, nw, name, systemType, side, nodeName);
  }

  /** After addSystem, addRigNode of such a node into the new system registers it. */
  lemma RegisteredAfterSystem(rig: RigState, d: Doc, e: Doc, nw: Node, name: Name, systemType: string, side: string, node: Node, nodeName: Name)
    requires AfterSystem(rig, d, e, nw, name, systemType, side)
    requires Carries(d, node) && node != rig.root && UIReady(d, node)
    requires Receives(d, node, SystemMetaRootAttr) && Receives(d, node, MetaRootAttr)
    requires node !in MetaRigNodes(rig, d).value && FreeOnNetwork(nodeName)
    ensures var q := RigNodeAdded(rig, e, node, name, nodeName);
      q.status == Done && RegisteredShaped(e, q.doc, rig.root, nw, node, nodeName)
    ensures HasAttr(RigNodeAdded(rig, e, node, name, nodeName).doc, node, SystemMetaRootAttr)
  {
    AdmittedAfterSystem(rig, d, e, nw, name, systemType, side, node, nodeName);
    RootAfterSystem(rig, d, e, nw, name, systemType, side);
    CarriedAfterSystem(rig, d, e, nw, name, systemType, side, node);
    NetworkAfterSystem(rig, d, e, nw, name, systemType, side, nodeName);
    ReceivesAfterSystem(rig, d, e, nw, name, systemType, side, node, nodeName);
    RigNodeAddedEffect(rig, e, node, name, nodeName, nw);
    RegisteredHas(e, rig.root, nw, node, nodeName);
  }

  /** After addSystem, addRigNode of such a node under the name side passes the checks,
      which look only at metaNode attributes, and then raises: side is the network's
      enum, which connectAttr refuses to feed from a message plug. */
  lemma SideNameAfterSystem(rig: RigState, d: Doc, e: Doc, nw: Node, name: Name, systemType: string, side: string, node: Node)
    requires AfterSystem(rig, d, e, nw, name, systemType, side)
    requires Carries(d, node) && node != rig.root && UIReady(d, node)
    requires Receives(d, node, SystemMetaRootAttr) && Receives(d, node, MetaRootAttr)
    requires node !in MetaRigNodes(rig, d).value
    ensures RigNodeAdded(rig, e, node, name, SideAttr).status == Raised(NotAMessage)
  {
    SideNameReady(rig, d, e, nw, name, systemType, side, node);
    RigNodeAddedNotMessage(rig, e, node, name, SideAttr, nw);
  }

  /** What that raise needs, read off the scene addSystem left. */
  lemma SideNameReady(rig: RigState, d: Doc, e: Doc, nw: Node, name: Name, systemType: string, side: string, node: Node)
    requires AfterSystem(rig, d, e, nw, name, systemType, side)
    requires Carries(d, node) && node != rig.root && UIReady(d, node)
    requires Receives(d, node, SystemMetaRootAttr) && Receives(d, node, MetaRootAttr)
    requires node !in MetaRigNodes(rig, d).value
    ensures Admits(rig, e, node, name, SideAttr, nw)
    ensures Carries(e, rig.root) && Carries(e, nw) && Carries(e, node)
    ensures Plug(nw, MetaRootAttr) in e.inputs && e.inputs[Plug(nw, MetaRootAttr)] == Plug(rig.root, MessageAttr)
    ensures Receives(e, node, SystemMetaRootAttr) && Receives(e, node, MetaRootAttr) && !Receives(e, nw, SideAttr)
  {
    AdmittedAfterSystem(rig, d, e, nw, name, systemType, side, node, SideAttr);
    RootAfterSystem(rig, d, e, nw, name, systemType, side);
    CarriedAfterSystem(rig, d, e, nw, name, systemType, side, node);
    SideAfterSystem(rig.root, d, e, nw, name, systemType, side);
  }

  /** The new network carries message, is fed by the root and holds side as an enum. */
  lemma SideAfterSystem(root: Node, d: Doc, e: Doc, nw: Node, name: Name, systemType: string, side: string)
    requires NetworkAdded(root, d, e, nw, name, systemType, side)
    ensures Carries(e, nw) && !Receives(e, nw, SideAttr)
    ensures Plug(nw, MetaRootAttr) in e.inputs && e.inputs[Plug(nw, MetaRootAttr)] == Plug(root, MessageAttr)
  {
    assert Decls(e, nw)[0] == MessageDecl;
    NetworkSide(e, nw);
  }

  /** A network shaped by addSystem holds side as its enum. */
  lemma NetworkSide(e: Doc, nw: Node)
    requires SystemDecls <= Decls(e, nw)
    requires forall x <- Decls(e, nw)[|SystemDecls|..] :: x.name in UINames && x.category == MetaUI
    ensures !Receives(e, nw, SideAttr)
  {
    var ds := Decls(e, nw);
    NetworkNames(ds);
    LookupUnique(ds, SideDecl);
  }

  /** Once a node is registered on the new network, the corrected getSystemNodes
      lists exactly that node ... */
  lemma ListedAfterSystem(rig: RigState, d: Doc, e: Doc, f: Doc, nw: Node, name: Name, systemType: string, side: string, node: Node, nodeName: Name)
    requires AfterSystem(rig, d, e, nw, name, systemType, side)
    requires RegisteredShaped(e, f, rig.root, nw, node, nodeName)
    requires node != rig.root && node != nw && FreeOnNetwork(nodeName)
    ensures SystemNodesFixed(rig, f, name) == Answer([node])
  {
    NetworkAfterSystem(rig, d, e, nw, name, systemType, side, nodeName);
    assert SystemNodesFixed(rig, e, name) == Answer([]);
    RegisteredSystemNodes(rig, e, f, name, nw, node, nodeName);
    assert [] + [node] == [node];
  }

  /** ... while getSystemNodes as written still raises on the network's unfed
      metaType, which stays first in the listing. */
  lemma UnlistedAfterSystem(rig: RigState, d: Doc, e: Doc, f: Doc, nw: Node, name: Name, systemType: string, side: string, node: Node, nodeName: Name)
    requires AfterSystem(rig, d, e, nw, name, systemType, side)
    requires RegisteredShaped(e, f, rig.root, nw, node, nodeName)
    requires node != rig.root && node != nw && FreeOnNetwork(nodeName)
    ensures SystemNodes(rig, f, name) == Threw(EmptyListing)
  {
    NetworkAfterSystem(rig, d, e, nw, name, systemType, side, nodeName);
    RegisteredSystemNodes(rig, e, f, name, nw, node, nodeName);
    RegisteredConnections(e, f, rig.root, nw, node, nodeName, Plug(nw, MetaTypeAttr));
    Kept(e, f, nw, Missing(e, nw, nodeName, MetaNode), MetaTypeAttr);
    SystemNodesUnfed(rig, f, name, nw);
  }

  /** Registering a rig node on a freshly added network: addRigNode succeeds, the
      corrected getSystemNodes lists the node, getSystemNodes as written raises. */
  lemma RigNodeAfterSystem(rig: RigState, d: Doc, e: Doc, nw: Node, name: Name, systemType: string, side: string, node: Node, nodeName: Name)
    requires AfterSystem(rig, d, e, nw, name, systemType, side)
    requires Carries(d, node) && node != rig.root && UIReady(d, node)
    requires Receives(d, node, SystemMetaRootAttr) && Receives(d, node, MetaRootAttr)
    requires node !in MetaRigNodes(rig, d).value && FreeOnNetwork(nodeName)
    ensures var q := RigNodeAdded(rig, e, node, name, nodeName);
      && q.status == Done
      && SystemNodesFixed(rig, q.doc, name) == Answer([node])
      && SystemNodes(rig, q.doc, name) == Threw(EmptyListing)
  {
    RegisteredAfterSystem(rig, d, e, nw, name, systemType, side, node, nodeName);
    var f := RigNodeAdded(rig, e, node, name, nodeName).doc;
    ListedAfterSystem(rig, d, e, f, nw, name, systemType, side, node, nodeName);
    UnlistedAfterSystem(rig, d, e, f, nw, name, systemType, side, node, nodeName);
  }
}
