/** What the current schema's MetaRig operations do to the scene and guarantee
    about each other. */
module RigLaws {
  import opened Outcomes
  import opened Scene
  import opened MetaGraph
  import opened MetaLinks
  import opened Commands
  import opened Rig

  // ---------------------------------------------------------------- addSystem, stage by stage


  lemma WiredEffect(d: Doc, root: Node, nw: Node, name: Name)
    requires root in d.nodes && nw in d.nodes && root != nw && root != "" && nw != "" && name != ""
    requires Decls(d, nw) == [MessageDecl] && HasAttr(d, root, MessageAttr) && Receives(d, root, name)
    ensures var s := SystemWired(d, root, nw, name);
      && s.status == Done
      && s.doc.nodes == d.nodes && s.doc.values == d.values && s.doc.arrays == d.arrays
      && s.doc.inputs == d.inputs[Plug(nw, MetaRootAttr) := Plug(root, MessageAttr)][Plug(root, name) := Plug(nw, MessageAttr)]
      && Decls(s.doc, nw) == [MessageDecl, RootLink]
      && Decls(s.doc, root) == Decls(d, root) + (if HasAttr(d, root, name) then [] else [Decl(name, Message, MetaSystem, false)])
      && (forall m | m != nw && m != root :: Decls(s.doc, m) == Decls(d, m))
  {
    NetworkTied(d, root, nw);
    var d2 := InputSet(AttrAdded(d, nw, RootLink), Plug(nw, MetaRootAttr), Plug(root, MessageAttr));
    assert Ensured(d2, nw, MessageAttr, MetaSystem) == d2;
    assert FindAttr(d2, root, name) == FindAttr(d, root, name);
    var d3 := Ensured(d2, root, name, MetaSystem);
    assert MessageConnected(d2, nw, root, MessageAttr, name, MetaSystem) ==
      Step(Done, InputSet(d3, Plug(root, name), Plug(nw, MessageAttr)));
  }

  /** The first connection of addSystem: nw.metaRoot is created and fed by the root. */
  lemma NetworkTied(d: Doc, root: Node, nw: Node)
    requires root in d.nodes && nw in d.nodes && root != nw && root != "" && nw != ""
    requires Decls(d, nw) == [MessageDecl] && HasAttr(d, root, MessageAttr)
    ensures var d2 := InputSet(AttrAdded(d, nw, RootLink), Plug(nw, MetaRootAttr), Plug(root, MessageAttr));
      && Connected(d, root, nw, MessageAttr, MetaRootAttr, MetaSystem) == Step(Done, d2)
      && Decls(d2, nw) == [MessageDecl, RootLink]
      && (forall m | m != nw :: Decls(d2, m) == Decls(d, m))
  {
    assert Ensured(d, root, MessageAttr, MetaSystem) == d;
    assert !HasAttr(d, nw, MetaRootAttr);
    var d1 := AttrAdded(d, nw, RootLink);
    assert Ensured(d, nw, MetaRootAttr, MetaSystem) == d1;
  }

  lemma LabelledEffect(d: Doc, nw: Node, name: Name, systemType: string)
    requires nw in d.nodes && Decls(d, nw) == [MessageDecl, RootLink]
    ensures var s := SystemLabelled(d, nw, name, systemType);
      && s.status == Done
      && s.doc.nodes == d.nodes && s.doc.inputs == d.inputs && s.doc.arrays == d.arrays
      && s.doc.values == d.values[Plug(nw, SystemNameAttr) := StrV(name)][Plug(nw, SystemTypeAttr) := StrV(systemType)]
      && Decls(s.doc, nw) == [MessageDecl, RootLink, NameDecl, TypeDecl]
      && (forall m | m != nw :: Decls(s.doc, m) == Decls(d, m))
  {
    LabelledDecls(d, nw);
  }

  /** The two declarations systemName and systemType go onto a bare network. */
  lemma LabelledDecls(d: Doc, nw: Node)
    requires nw in d.nodes && Decls(d, nw) == [MessageDecl, RootLink]
    ensures var d1 := AttrAdded(d, nw, NameDecl);
      var d2 := AttrAdded(d1, nw, TypeDecl);
      && Added(d, nw, NameDecl) == Step(Done, d1)
      && Added(d1, nw, TypeDecl) == Step(Done, d2)
      && Decls(d2, nw) == [MessageDecl, RootLink, NameDecl, TypeDecl]
      && HasAttr(d2, nw, SystemNameAttr) && HasAttr(d2, nw, SystemTypeAttr)
  {
    var d1 := AttrAdded(d, nw, NameDecl);
    assert Added(d, nw, NameDecl) == Step(Done, d1);
    var d2 := AttrAdded(d1, nw, TypeDecl);
    assert Decls(d1, nw) == [MessageDecl, RootLink, NameDecl];
    assert Added(d1, nw, TypeDecl) == Step(Done, d2);
    assert Decls(d2, nw) == [MessageDecl, RootLink, NameDecl, TypeDecl];
    assert HasAttr(d2, nw, SystemNameAttr) && HasAttr(d2, nw, SystemTypeAttr);
  }

  /** None of the UI attribute names is taken on a new system network. */
  lemma SystemDeclsWithoutUI()
    ensures forall a <- UINames :: Lookup(SystemDecls, a).None?
  {
    assert forall x <- SystemDecls :: x.name !in UINames;
  }

  lemma TypedEffect(d: Doc, nw: Node)
    requires nw in d.nodes && Decls(d, nw) == [MessageDecl, RootLink, NameDecl, TypeDecl, SideDecl]
    ensures var s := SystemTyped(d, nw);
      && s.status == Done
      && s.doc.nodes == d.nodes && s.doc.inputs == d.inputs && s.doc.arrays == d.arrays && s.doc.values == d.values
      && SystemDecls <= Decls(s.doc, nw)
      && (forall x <- Decls(s.doc, nw)[|SystemDecls|..] :: x.name in UINames && x.category == MetaUI)
      && (forall m | m != nw :: Decls(s.doc, m) == Decls(d, m))
  {
    var d1 := AttrAdded(d, nw, MetaTypeDecl);
    assert Declared(d, nw, MetaTypeDecl) == Step(Done, d1);
    assert Decls(d1, nw) == SystemDecls;
    UIOnSystem(d1, nw);
  }

  /** addUIAttrs on a network holding exactly SystemDecls adds the UI attributes alone. */
  lemma UIOnSystem(d: Doc, nw: Node)
    requires nw in d.nodes && Decls(d, nw) == SystemDecls
    ensures UIDeclared(d, nw).status == Done && GrownAt(d, UIDeclared(d, nw).doc, nw, UINames, {MetaUI})
  {
    SystemDeclsWithoutUI();
    UIDeclaredFresh(d, nw);
    UIDeclaredGrown(d, nw);
  }

  lemma SidedEffect(d: Doc, nw: Node, side: string)
    requires nw in d.nodes && Decls(d, nw) == [MessageDecl, RootLink, NameDecl, TypeDecl] && side in Sides
    ensures var s := SystemSided(d, nw, side);
      && s.status == Done
      && s.doc.nodes == d.nodes && s.doc.inputs == d.inputs && s.doc.arrays == d.arrays
      && s.doc.values == d.values[Plug(nw, SideAttr) := IntV(SideIndex(side).value)]
      && SystemDecls <= Decls(s.doc, nw)
      && (forall x <- Decls(s.doc, nw)[|SystemDecls|..] :: x.name in UINames && x.category == MetaUI)
      && (forall m | m != nw :: Decls(s.doc, m) == Decls(d, m))
  {
    var d1 := AttrAdded(d, nw, SideDecl);
    assert Added(d, nw, SideDecl) == Step(Done, d1);
    assert Decls(d1, nw) == [MessageDecl, RootLink, NameDecl, TypeDecl, SideDecl];
    var i := SideIndex(side).value;
    var d2 := ValueSet(d1, Plug(nw, SideAttr), IntV(i));
    assert Assigned(d1, Plug(nw, SideAttr), IntV(i)) == Step(Done, d2);
    TypedEffect(d2, nw);
  }

  /** An unknown side raises once the side attribute exists, before it is set. */
  lemma SidedBadSide(d: Doc, nw: Node, side: string)
    requires nw in d.nodes && !HasAttr(d, nw, SideAttr) && side !in Sides
    ensures SystemSided(d, nw, side) == Step(Raised(NotASide), AttrAdded(d, nw, SideDecl))
  {
  }

  // ---------------------------------------------------------------- addSystem

  /** The network addSystem creates for system `name`. */
  function NewNetwork(rig: RigState, d: Doc, name: Name): (nw: Node)
    ensures nw !in d.nodes && nw != ""
  {
    FreshName(d.nodes, NodeBase(SystemNodeBase(rig.name, name)))
  }

  /** Whether addSystem has what it needs to get through: a name new to `systems`,
      a known side, a root node, and no attribute of that name on the root other than
      a message attribute. */
  ghost predicate CanAddSystem(rig: RigState, d: Doc, side: string, name: Name) {
    && rig.systems.Some? && name != "" && name !in rig.systems.value && side in Sides
    && rig.root in d.nodes && rig.root != "" && HasAttr(d, rig.root, MessageAttr)
    && Receives(d, rig.root, name)
  }

  /** What addSystem does to a network nw that holds nothing but `message`. */
  lemma MadeEffect(d: Doc, root: Node, nw: Node, name: Name, systemType: string, side: string)
    requires root in d.nodes && nw in d.nodes && root != nw && root != "" && nw != "" && name != ""
    requires Decls(d, nw) == [MessageDecl] && HasAttr(d, root, MessageAttr) && Receives(d, root, name) && side in Sides
    ensures SystemMade(d, root, nw, name, systemType, side).status == Done
    ensures SystemMade(d, root, nw, name, systemType, side).doc.nodes == d.nodes
    ensures SystemShaped(d, SystemMade(d, root, nw, name, systemType, side).doc, root, nw, name, systemType, side)
  {
    WiredEffect(d, root, nw, name);
    var s1 := SystemWired(d, root, nw, name);
    LabelledEffect(s1.doc, nw, name, systemType);
    var s2 := SystemLabelled(s1.doc, nw, name, systemType);
    SidedEffect(s2.doc, nw, side);
  }

  /** A successful addSystem creates one network nw, wires and labels it as
      SystemShaped says, and appends `name` to `systems`. */
  lemma SystemAddedEffect(rig: RigState, d: Doc, systemType: string, side: string, name: Name)
    requires CanAddSystem(rig, d, side, name)
    ensures SystemAdded(rig, d, systemType, side, name).status == Done
    ensures SystemAdded(rig, d, systemType, side, name).rig == rig.(systems := Some(rig.systems.value + [name]))
    ensures SystemAdded(rig, d, systemType, side, name).doc.nodes == d.nodes + {NewNetwork(rig, d, name)}
    ensures SystemShaped(d, SystemAdded(rig, d, systemType, side, name).doc, rig.root, NewNetwork(rig, d, name), name, systemType, side)
  {
    var nw := NewNetwork(rig, d, name);
    var d1 := Created(d, nw);
    MadeEffect(d1, rig.root, nw, name, systemType, side);
    var s := SystemMade(d1, rig.root, nw, name, systemType, side);
    ShapedCreated(d, s.doc, rig.root, nw, name, systemType, side);
  }

  /** SystemShaped does not look at the attributes of nw before the call, so it
      holds of the scene before nw was created. */
  lemma ShapedCreated(d: Doc, e: Doc, root: Node, nw: Node, name: Name, systemType: string, side: string)
    requires side in Sides && root != nw
    requires SystemShaped(Created(d, nw), e, root, nw, name, systemType, side)
    ensures SystemShaped(d, e, root, nw, name, systemType, side)
  {
    assert Decls(Created(d, nw), root) == Decls(d, root);
    assert HasAttr(Created(d, nw), root, name) == HasAttr(d, root, name);
  }

  /** An unknown side raises after the network is created and wired: root.<name>
      exists and feeds from it, while `systems` does not gain the name. */
  lemma SystemAddedBadSide(rig: RigState, d: Doc, systemType: string, side: string, name: Name)
    requires rig.systems.Some? && name != "" && name !in rig.systems.value && side !in Sides
    requires rig.root in d.nodes && rig.root != "" && HasAttr(d, rig.root, MessageAttr) && Receives(d, rig.root, name)
    ensures var r := SystemAdded(rig, d, systemType, side, name);
      var nw := NewNetwork(rig, d, name);
      && r.status == Raised(NotASide) && r.rig == rig
      && r.doc.nodes == d.nodes + {nw}
      && Plug(rig.root, name) in r.doc.inputs && r.doc.inputs[Plug(rig.root, name)] == Plug(nw, MessageAttr)
      && Decls(r.doc, rig.root) == Decls(d, rig.root) + (if HasAttr(d, rig.root, name) then [] else [Decl(name, Message, MetaSystem, false)])
  {
    var nw := NewNetwork(rig, d, name);
    var d1 := Created(d, nw);
    assert Decls(d1, rig.root) == Decls(d, rig.root);
    assert FindAttr(d1, rig.root, name) == FindAttr(d, rig.root, name);
    MadeBadSide(d1, rig.root, nw, name, systemType, side);
  }

  /** ... which is where building the network stops. */
  lemma MadeBadSide(d: Doc, root: Node, nw: Node, name: Name, systemType: string, side: string)
    requires root in d.nodes && nw in d.nodes && root != nw && root != "" && nw != "" && name != "" && side !in Sides
    requires Decls(d, nw) == [MessageDecl] && HasAttr(d, root, MessageAttr) && Receives(d, root, name)
    ensures var s := SystemMade(d, root, nw, name, systemType, side);
      && s.status == Raised(NotASide) && s.doc.nodes == d.nodes
      && Plug(root, name) in s.doc.inputs && s.doc.inputs[Plug(root, name)] == Plug(nw, MessageAttr)
      && Decls(s.doc, root) == Decls(d, root) + (if HasAttr(d, root, name) then [] else [Decl(name, Message, MetaSystem, false)])
  {
    WiredLabelled(d, root, nw, name, systemType);
    var e2 := SystemLabelled(SystemWired(d, root, nw, name).doc, nw, name, systemType).doc;
    SidedBadSide(e2, nw, side);
  }

  /** The first two steps of building the network, as far as the root and the side
      attribute are concerned. */
  lemma WiredLabelled(d: Doc, root: Node, nw: Node, name: Name, systemType: string)
    requires root in d.nodes && nw in d.nodes && root != nw && root != "" && nw != "" && name != ""
    requires Decls(d, nw) == [MessageDecl] && HasAttr(d, root, MessageAttr) && Receives(d, root, name)
    ensures var s1 := SystemWired(d, root, nw, name);
      var s2 := SystemLabelled(s1.doc, nw, name, systemType);
      && s1.status == Done && s2.status == Done
      && s2.doc.nodes == d.nodes && nw in s2.doc.nodes && !HasAttr(s2.doc, nw, SideAttr)
      && Plug(root, name) in s2.doc.inputs && s2.doc.inputs[Plug(root, name)] == Plug(nw, MessageAttr)
      && Decls(s2.doc, root) == Decls(d, root) + (if HasAttr(d, root, name) then [] else [Decl(name, Message, MetaSystem, false)])
  {
    WiredEffect(d, root, nw, name);
    LabelledEffect(SystemWired(d, root, nw, name).doc, nw, name, systemType);
  }

  /** A name the root already holds as an attribute of another type (its metaRig
      string, say) makes the second connection raise: the new network exists and is fed
      by the root, and `systems` does not gain the name. */
  lemma SystemAddedNotMessage(rig: RigState, d: Doc, systemType: string, side: string, name: Name)
    requires rig.systems.Some? && name != "" && name !in rig.systems.value
    requires rig.root in d.nodes && rig.root != "" && HasAttr(d, rig.root, MessageAttr) && !Receives(d, rig.root, name)
    ensures var r := SystemAdded(rig, d, systemType, side, name);
      var nw := NewNetwork(rig, d, name);
      && r.status == Raised(NotAMessage) && r.rig == rig
      && r.doc.nodes == d.nodes + {nw}
      && r.doc.inputs == d.inputs[Plug(nw, MetaRootAttr) := Plug(rig.root, MessageAttr)]
      && Decls(r.doc, rig.root) == Decls(d, rig.root)
  {
    var root := rig.root;
    var nw := NewNetwork(rig, d, name);
    var d0 := Created(d, nw);
    assert Decls(d0, root) == Decls(d, root);
    assert Decls(d0, nw) == [MessageDecl];
    assert Ensured(d0, root, MessageAttr, MetaSystem) == d0;
    assert !HasAttr(d0, nw, MetaRootAttr);
    var d1 := AttrAdded(d0, nw, RootLink);
    assert Ensured(d0, nw, MetaRootAttr, MetaSystem) == d1;
    var d2 := InputSet(d1, Plug(nw, MetaRootAttr), Plug(root, MessageAttr));
    assert MessageConnected(d0, root, nw, MessageAttr, MetaRootAttr, MetaSystem) == Step(Done, d2);
    assert Decls(d2, nw) == [MessageDecl, RootLink];
    assert Ensured(d2, nw, MessageAttr, MetaSystem) == d2;
    assert Decls(d2, root) == Decls(d, root);
    assert MessageConnected(d2, nw, root, MessageAttr, name, MetaSystem) == Step(Raised(NotAMessage), d2);
  }

  /** On a rig just built, addSystem with the name metaRig raises at connectAttr, since
      root.metaRig is the string attribute build() added. */
  lemma MetaRigNameRaises(name: Name, d: Doc, systemType: string, side: string)
    ensures var made := RootCreated(RigState(name, "", None), d);
      SystemAdded(made.rig, made.doc, systemType, side, MetaRigAttr).status == Raised(NotAMessage)
  {
    var made := RootCreated(RigState(name, "", None), d);
    RootCreatedCached(RigState(name, "", None), d);
    RootCreatedReceives(name, d, MetaRigAttr);
    SystemAddedNotMessage(made.rig, made.doc, systemType, side, MetaRigAttr);
  }

  /** addSystem gets through exactly when the name is new, the root can take a message
      connection under it, and the side is known. */
  lemma SystemAddedDone(rig: RigState, d: Doc, systemType: string, side: string, name: Name)
    requires rig.systems.Some? && rig.root in d.nodes && rig.root != "" && HasAttr(d, rig.root, MessageAttr)
    ensures SystemAdded(rig, d, systemType, side, name).status.Done? <==>
      name != "" && name !in rig.systems.value && Receives(d, rig.root, name) && side in Sides
  {
    if name != "" && name !in rig.systems.value {
      if !Receives(d, rig.root, name) {
        SystemAddedNotMessage(rig, d, systemType, side, name);
      } else if side in Sides {
        SystemAddedEffect(rig, d, systemType, side, name);
      } else {
        SystemAddedBadSide(rig, d, systemType, side, name);
      }
    }
  }

  /** In a network's attributes, the system attributes are the only ones of their
      names, and metaType the only one of category metaNode. */
  lemma NetworkNames(ds: seq<Decl>)
    requires SystemDecls <= ds
    requires forall x <- ds[|SystemDecls|..] :: x.name in UINames && x.category == MetaUI
    ensures forall y <- ds ::
      && (y.name == SystemNameAttr ==> y == NameDecl)
      && (y.name == SystemTypeAttr ==> y == TypeDecl)
      && (y.name == SideAttr ==> y == SideDecl)
    ensures |ds| > 5 && ds[2] == NameDecl && ds[3] == TypeDecl && ds[4] == SideDecl && ds[5] == MetaTypeDecl
    ensures NameDecl in ds && TypeDecl in ds && SideDecl in ds
    ensures forall j | 0 <= j < |ds| && j != 5 :: ds[j].category != MetaNode
  {
    forall j | |SystemDecls| <= j < |ds| ensures ds[j].name in UINames && ds[j].category == MetaUI {
      assert ds[j] in ds[|SystemDecls|..];
    }
  }

  /** What a network shaped by addSystem answers about itself. */
  lemma NetworkReads(e: Doc, nw: Node, name: Name, systemType: string, i: int)
    requires nw in e.nodes && SystemDecls <= Decls(e, nw)
    requires forall x <- Decls(e, nw)[|SystemDecls|..] :: x.name in UINames && x.category == MetaUI
    requires Plug(nw, SystemNameAttr) in e.values && e.values[Plug(nw, SystemNameAttr)] == StrV(name)
    requires Plug(nw, SystemTypeAttr) in e.values && e.values[Plug(nw, SystemTypeAttr)] == StrV(systemType)
    requires Plug(nw, SideAttr) in e.values && e.values[Plug(nw, SideAttr)] == IntV(i)
    ensures GetAttr(e, Plug(nw, SystemNameAttr)) == Ok(StrV(name))
    ensures GetAttr(e, Plug(nw, SystemTypeAttr)) == Ok(StrV(systemType))
    ensures SideOf(e, nw) == Ok(IntV(i))
    ensures MetaTypeOf(e, nw) == Ok(IntV(0))
    ensures ListAttr(e, nw, MetaNode) == [MetaTypeAttr]
  {
    var ds := Decls(e, nw);
    NetworkNames(ds);
    LookupUnique(ds, NameDecl);
    LookupUnique(ds, TypeDecl);
    LookupUnique(ds, SideDecl);
    InCategoryOne(ds, 5, MetaNode);
  }

  /** root.<name> fed by nw.message makes nw the system's network. */
  lemma RootLinkReads(rig: RigState, e: Doc, name: Name, nw: Node)
    requires rig.systems.Some? && name in rig.systems.value && HasAttr(e, rig.root, name)
    requires Plug(rig.root, name) in e.inputs && e.inputs[Plug(rig.root, name)] == Plug(nw, MessageAttr)
    ensures SystemMetaRoot(rig, e, name) == Answer(nw)
  {
    assert ListConnections(e, Plug(rig.root, name))[0] == nw;
  }

  /** A scene shaped by addSystem answers the rig's queries about system `name`
      from the new network nw. */
  lemma ShapedQueries(rig: RigState, d: Doc, e: Doc, nw: Node, name: Name, systemType: string, side: string)
    requires side in Sides && SystemShaped(d, e, rig.root, nw, name, systemType, side)
    requires nw in e.nodes && nw != rig.root && rig.systems.Some? && name in rig.systems.value
    ensures SystemMetaRoot(rig, e, name) == Answer(nw)
    ensures GetAttr(e, Plug(nw, SystemNameAttr)) == Ok(StrV(name))
    ensures GetAttr(e, Plug(nw, SystemTypeAttr)) == Ok(StrV(systemType))
    ensures SideOf(e, nw) == Ok(IntV(SideIndex(side).value))
    ensures MetaTypeOf(e, nw) == Ok(IntV(0))
    ensures ListAttr(e, nw, MetaNode) == [MetaTypeAttr]
  {
    NetworkReads(e, nw, name, systemType, SideIndex(side).value);
    assert HasAttr(e, rig.root, name) by {
      if !HasAttr(d, rig.root, name) {
        LookupAppend(Decls(d, rig.root), Decl(name, Message, MetaSystem, false), name);
      }
    }
    RootLinkReads(rig, e, name, nw);
  }

  /** After addSystem, getSystemMetaRoot(name) is the new network, which reports the
      system's name, the side's index as its side and 0 as its metaType. */
  lemma SystemAddedQueries(rig: RigState, d: Doc, systemType: string, side: string, name: Name)
    requires CanAddSystem(rig, d, side, name)
    ensures var r := SystemAdded(rig, d, systemType, side, name);
      var nw := NewNetwork(rig, d, name);
      && SystemMetaRoot(r.rig, r.doc, name) == Answer(nw)
      && GetAttr(r.doc, Plug(nw, SystemNameAttr)) == Ok(StrV(name))
      && GetAttr(r.doc, Plug(nw, SystemTypeAttr)) == Ok(StrV(systemType))
      && SideOf(r.doc, nw) == Ok(IntV(SideIndex(side).value))
      && MetaTypeOf(r.doc, nw) == Ok(IntV(0))
      && ListAttr(r.doc, nw, MetaNode) == [MetaTypeAttr]
  {
    SystemAddedEffect(rig, d, systemType, side, name);
    var r := SystemAdded(rig, d, systemType, side, name);
    ShapedQueries(r.rig, d, r.doc, NewNetwork(rig, d, name), name, systemType, side);
  }

  // ---------------------------------------------------------------- the cached systems list

  /** `systems` lists the root's metaSystem attributes, as a rebuild would read them. */
  ghost predicate Cached(rig: RigState, d: Doc) {
    && rig.systems.Some? && rig.root in d.nodes && rig.root != "" && HasAttr(d, rig.root, MessageAttr)
    && ListAttr(d, rig.root, MetaSystem) == rig.systems.value
  }

  /** A freshly built rig starts with an empty, cached list of systems. */
  lemma RootCreatedCached(rig: RigState, d: Doc)
    ensures RootCreated(rig, d).status == Done
    ensures Cached(RootCreated(rig, d).rig, RootCreated(rig, d).doc)
    ensures forall a :: HasAttr(RootCreated(rig, d).doc, RootCreated(rig, d).rig.root, a) <==> a == MessageAttr || a == MetaRigAttr
  {
    var root := FreshName(d.nodes, NodeBase(rig.name));
    var d1 := Created(d, root);
    assert Decls(d1, root) == [MessageDecl];
    var x := Decl(MetaRigAttr, Text, NoCategory, false);
    assert Added(d1, root, x) == Step(Done, AttrAdded(d1, root, x));
    assert Decls(AttrAdded(d1, root, x), root) == [MessageDecl, x];
    InCategoryNone([MessageDecl, x], MetaSystem);
  }

  /** addSystem keeps `systems` equal to what a rebuild would read, when the root
      has no message attribute of the new system's name yet (an attribute of another
      type makes the call raise). */
  lemma SystemAddedCached(rig: RigState, d: Doc, systemType: string, side: string, name: Name)
    requires Cached(rig, d) && (!HasAttr(d, rig.root, name) || !Receives(d, rig.root, name))
    ensures var r := SystemAdded(rig, d, systemType, side, name);
      r.status.Done? ==> Cached(r.rig, r.doc)
  {
    var r := SystemAdded(rig, d, systemType, side, name);
    SystemAddedDone(rig, d, systemType, side, name);
    if r.status.Done? {
      SystemAddedEffect(rig, d, systemType, side, name);
      var x := Decl(name, Message, MetaSystem, false);
      InCategoryAppend(Decls(d, rig.root), x, MetaSystem);
      LookupAppend(Decls(d, rig.root), x, MessageAttr);
    }
  }

  /** One addSystem call's arguments. */
  datatype SystemArgs = SystemArgs(systemType: string, side: string, name: Name)

  /** A series of addSystem calls, stopping at the first that does not get through. */
  function AllSystemsAdded(rig: RigState, d: Doc, calls: seq<SystemArgs>): Outcome
    decreases |calls|
  {
    if calls == [] then Outcome(Done, rig, d)
    else
      var r := SystemAdded(rig, d, calls[0].systemType, calls[0].side, calls[0].name);
      if !r.status.Done? then r else AllSystemsAdded(r.rig, r.doc, calls[1..])
  }

  /** A successful addSystem on a cached rig appends one message attribute to the root. */
  lemma SystemAddedRoot(rig: RigState, d: Doc, systemType: string, side: string, name: Name)
    requires Cached(rig, d) && (!HasAttr(d, rig.root, name) || !Receives(d, rig.root, name))
    ensures var r := SystemAdded(rig, d, systemType, side, name);
      r.status.Done? ==>
        && r.rig == rig.(systems := Some(rig.systems.value + [name]))
        && Decls(r.doc, rig.root) == Decls(d, rig.root) + [Decl(name, Message, MetaSystem, false)]
  {
    SystemAddedDone(rig, d, systemType, side, name);
    if SystemAdded(rig, d, systemType, side, name).status.Done? {
      SystemAddedEffect(rig, d, systemType, side, name);
    }
  }

  /** Appending an attribute of another name changes nothing about name a. */
  lemma RootGrownKeeps(d: Doc, e: Doc, root: Node, x: Decl, a: Name)
    requires Decls(e, root) == Decls(d, root) + [x] && a != x.name
    ensures FindAttr(e, root, a) == FindAttr(d, root, a)
  {
    LookupAppend(Decls(d, root), x, a);
  }

  lemma {:induction false} AllSystemsAddedCached(rig: RigState, d: Doc, calls: seq<SystemArgs>)
    requires Cached(rig, d)
    requires forall c <- calls :: c.name in rig.systems.value || !HasAttr(d, rig.root, c.name) || !Receives(d, rig.root, c.name)
    ensures var r := AllSystemsAdded(rig, d, calls);
      r.status.Done? ==> Cached(r.rig, r.doc) && r.rig.root == rig.root
    decreases |calls|
  {
    if calls != [] {
      var c := calls[0];
      var r := SystemAdded(rig, d, c.systemType, c.side, c.name);
      if r.status.Done? {
        SystemAddedCached(rig, d, c.systemType, c.side, c.name);
        SystemAddedRoot(rig, d, c.systemType, c.side, c.name);
        forall c' <- calls[1..] ensures c'.name in r.rig.systems.value || !HasAttr(r.doc, rig.root, c'.name) || !Receives(r.doc, rig.root, c'.name) {
          assert c' in calls;
          if c'.name != c.name {
            RootGrownKeeps(d, r.doc, rig.root, Decl(c.name, Message, MetaSystem, false), c'.name);
          }
        }
        AllSystemsAddedCached(r.rig, r.doc, calls[1..]);
      }
    }
  }

  /** A MetaRig rebuilt from a rig's root lists the systems that were added to it:
      the corrected rebuild always, the one as written whenever some system was added
      (with none, it caches None). */
  lemma RebuiltListsSystems(name: Name, d: Doc, calls: seq<SystemArgs>, other: Name)
    requires forall c <- calls :: c.name != MessageAttr
    ensures var made := RootCreated(RigState(name, "", None), d);
      var r := AllSystemsAdded(made.rig, made.doc, calls);
      r.status.Done? ==>
        Built(RigState(other, "", None), r.doc, made.rig.root) == Outcome(Done, RigState(other, made.rig.root, r.rig.systems), r.doc)
    ensures var made := RootCreated(RigState(name, "", None), d);
      var r := AllSystemsAdded(made.rig, made.doc, calls);
      r.status.Done? && r.rig.systems.value != [] ==>
        BuiltAsWritten(RigState(other, "", None), r.doc, made.rig.root) == Outcome(Done, RigState(other, made.rig.root, r.rig.systems), r.doc)
    ensures var made := RootCreated(RigState(name, "", None), d);
      var r := AllSystemsAdded(made.rig, made.doc, calls);
      r.status.Done? && r.rig.systems.value == [] ==>
        BuiltAsWritten(RigState(other, "", None), r.doc, made.rig.root).rig.systems == None
  {
    var made := RootCreated(RigState(name, "", None), d);
    RootCreatedCached(RigState(name, "", None), d);
    forall c <- calls ensures c.name in made.rig.systems.value || !HasAttr(made.doc, made.rig.root, c.name) || !Receives(made.doc, made.rig.root, c.name) {
      RootCreatedReceives(name, d, c.name);
    }
    AllSystemsAddedCached(made.rig, made.doc, calls);
  }

  /** As written, a rig reloaded from a root that has no system yet caches None, and
      its next addSystem raises instead of adding the system. */
  lemma ReloadWithoutSystemsAsWritten(name: Name, d: Doc, other: Name, systemType: string, side: string, system: Name)
    requires system != ""
    ensures var made := RootCreated(RigState(name, "", None), d);
      var loaded := BuiltAsWritten(RigState(other, "", None), made.doc, made.rig.root);
      && loaded.rig.systems == None
      && SystemAdded(loaded.rig, made.doc, systemType, side, system).status == Raised(NoneNotIterable)
  {
    RootCreatedCached(RigState(name, "", None), d);
  }

  /** With [] for listAttr's None, the reloaded rig takes the new system, unless it is
      named after the root's metaRig string. */
  lemma ReloadWithoutSystemsCorrected(name: Name, d: Doc, other: Name, systemType: string, side: string, system: Name)
    requires system != "" && side in Sides
    ensures var made := RootCreated(RigState(name, "", None), d);
      var loaded := Built(RigState(other, "", None), made.doc, made.rig.root);
      && loaded.rig.systems == Some([])
      && (SystemAdded(loaded.rig, made.doc, systemType, side, system).status == Done <==> system != MetaRigAttr)
  {
    var made := RootCreated(RigState(name, "", None), d);
    RootCreatedCached(RigState(name, "", None), d);
    RootCreatedReceives(name, d, system);
    var loaded := Built(RigState(other, "", None), made.doc, made.rig.root);
    SystemAddedDone(loaded.rig, made.doc, systemType, side, system);
  }

  /** A rig just built takes a message connection under every name but metaRig. */
  lemma RootCreatedReceives(name: Name, d: Doc, system: Name)
    ensures var made := RootCreated(RigState(name, "", None), d);
      Receives(made.doc, made.rig.root, system) <==> system != MetaRigAttr
  {
    var made := RootCreated(RigState(name, "", None), d);
    RootCreatedCached(RigState(name, "", None), d);
    var x := Decl(MetaRigAttr, Text, NoCategory, false);
    assert Decls(made.doc, made.rig.root) == [MessageDecl, x];
  }
}
