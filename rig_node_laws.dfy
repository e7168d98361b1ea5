/** What addRigNode does to the scene: the three message connections, the meta
    attributes of the registered node, and what the rig's queries answer afterwards. */
module RigNodeLaws {
  import opened Outcomes
  import opened Scene
  import opened MetaGraph
  import opened MetaLinks
  import opened Commands
  import opened Rig

  /** The message attribute messageConnect adds to n, when n has no attribute a yet. */
  function Missing(d: Doc, n: Node, a: Name, cat: string): seq<Decl> {
    if HasAttr(d, n, a) then [] else [Decl(a, Message, cat, false)]
  }

  /** Attributes appended to a node keep every name the node already had. */
  lemma Kept(d: Doc, d': Doc, n: Node, es: seq<Decl>, a: Name)
    requires Decls(d', n) == Decls(d, n) + es && HasAttr(d, n, a)
    ensures FindAttr(d', n, a) == FindAttr(d, n, a)
  {
    LookupConcat(Decls(d, n), es, a);
  }

  /** The same, for two appends. */
  lemma KeptPast(d: Doc, d': Doc, n: Node, e1: seq<Decl>, e2: seq<Decl>, a: Name)
    requires Decls(d', n) == Decls(d, n) + e1 + e2 && HasAttr(d, n, a)
    ensures FindAttr(d', n, a) == FindAttr(d, n, a)
  {
    LookupConcat(Decls(d, n), e1, a);
    LookupConcat(Decls(d, n) + e1, e2, a);
  }

  /** messageConnect from a plug that exists: the destination attribute is added when
      absent, the source feeds it, and nothing else changes. */
  lemma ConnectedInto(d: Doc, from: Node, to: Node, fromName: Name, toName: Name, cat: string)
    requires from != "" && to != "" && fromName != "" && toName != ""
    requires from in d.nodes && to in d.nodes && HasAttr(d, from, fromName) && Receives(d, to, toName)
    ensures var s := Connected(d, from, to, fromName, toName, cat);
      && s.status == Done
      && s.doc.nodes == d.nodes && s.doc.values == d.values && s.doc.arrays == d.arrays
      && s.doc.inputs == d.inputs[Plug(to, toName) := Plug(from, fromName)]
      && Decls(s.doc, to) == Decls(d, to) + Missing(d, to, toName, cat)
      && (forall m | m != to :: Decls(s.doc, m) == Decls(d, m))
  {
    assert Ensured(d, from, fromName, cat) == d;
    var d1 := Ensured(d, to, toName, cat);
    assert MessageConnected(d, from, to, fromName, toName, cat) == Step(Done, InputSet(d1, Plug(to, toName), Plug(from, fromName)));
  }

  /** The inputs after addRigNode's three connections: smr.message feeds
      node.systemMetaRoot, root.message feeds node.metaRoot, and node.message feeds
      smr.<name> unless name is None. */
  function LinkedInputs(i: map<Plug, Plug>, root: Node, smr: Node, node: Node, name: Name): map<Plug, Plug> {
    var i1 := i[Plug(node, SystemMetaRootAttr) := Plug(smr, MessageAttr)][Plug(node, MetaRootAttr) := Plug(root, MessageAttr)];
    if name == "" then i1 else i1[Plug(smr, name) := Plug(node, MessageAttr)]
  }

  /** Appending attributes of other names leaves Missing as it was. */
  lemma MissingKept(d: Doc, d': Doc, n: Node, es: seq<Decl>, a: Name, cat: string)
    requires Decls(d', n) == Decls(d, n) + es && forall x <- es :: x.name != a
    ensures Missing(d', n, a, cat) == Missing(d, n, a, cat)
    ensures Receives(d', n, a) == Receives(d, n, a)
  {
    LookupConcat(Decls(d, n), es, a);
  }

  /** addRigNode's first two connections, both into the node. */
  lemma NodeLinked(d: Doc, root: Node, smr: Node, node: Node)
    requires root in d.nodes && smr in d.nodes && node in d.nodes
    requires root != "" && smr != "" && node != ""
    requires HasAttr(d, root, MessageAttr) && HasAttr(d, smr, MessageAttr) && HasAttr(d, node, MessageAttr)
    requires Receives(d, node, SystemMetaRootAttr) && Receives(d, node, MetaRootAttr)
    ensures var s1 := Connected(d, smr, node, MessageAttr, SystemMetaRootAttr, NoCategory);
      var s2 := Connected(s1.doc, root, node, MessageAttr, MetaRootAttr, NoCategory);
      && s1.status == Done && s2.status == Done
      && s2.doc.nodes == d.nodes && s2.doc.values == d.values && s2.doc.arrays == d.arrays
      && s2.doc.inputs == d.inputs[Plug(node, SystemMetaRootAttr) := Plug(smr, MessageAttr)][Plug(node, MetaRootAttr) := Plug(root, MessageAttr)]
      && Decls(s2.doc, node) == Decls(d, node) + Missing(d, node, SystemMetaRootAttr, NoCategory) + Missing(d, node, MetaRootAttr, NoCategory)
      && (forall m | m != node :: Decls(s2.doc, m) == Decls(d, m))
  {
    ConnectedInto(d, smr, node, MessageAttr, SystemMetaRootAttr, NoCategory);
    var d1 := Connected(d, smr, node, MessageAttr, SystemMetaRootAttr, NoCategory).doc;
    var es1 := Missing(d, node, SystemMetaRootAttr, NoCategory);
    if root == node {
      Kept(d, d1, node, es1, MessageAttr);
    }
    MissingKept(d, d1, node, es1, MetaRootAttr, NoCategory);
    ConnectedInto(d1, root, node, MessageAttr, MetaRootAttr, NoCategory);
  }

  /** addRigNode's three connections go into attributes that are absent or message
      attributes: node.systemMetaRoot, node.metaRoot and, for a name, smr.<name>. */
  ghost predicate LinksReceive(d: Doc, smr: Node, node: Node, name: Name) {
    && Receives(d, node, SystemMetaRootAttr) && Receives(d, node, MetaRootAttr)
    && (name != "" ==> Receives(d, smr, name))
  }

  /** The three connections of addRigNode, between nodes that carry `message`. */
  lemma RigNodeLinkedEffect(d: Doc, root: Node, smr: Node, node: Node, name: Name)
    requires root in d.nodes && smr in d.nodes && node in d.nodes
    requires root != "" && smr != "" && node != "" && node != smr
    requires HasAttr(d, root, MessageAttr) && HasAttr(d, smr, MessageAttr) && HasAttr(d, node, MessageAttr)
    requires LinksReceive(d, smr, node, name)
    ensures var s := RigNodeLinked(d, root, smr, node, name);
      && s.status == Done
      && s.doc.nodes == d.nodes && s.doc.values == d.values && s.doc.arrays == d.arrays
      && s.doc.inputs == LinkedInputs(d.inputs, root, smr, node, name)
      && Decls(s.doc, node) == Decls(d, node) + Missing(d, node, SystemMetaRootAttr, NoCategory) + Missing(d, node, MetaRootAttr, NoCategory)
      && Decls(s.doc, smr) == Decls(d, smr) + (if name == "" then [] else Missing(d, smr, name, MetaNode))
      && (forall m | m != node && m != smr :: Decls(s.doc, m) == Decls(d, m))
  {
    NodeLinked(d, root, smr, node);
    var d1 := Connected(d, smr, node, MessageAttr, SystemMetaRootAttr, NoCategory).doc;
    var d2 := Connected(d1, root, node, MessageAttr, MetaRootAttr, NoCategory).doc;
    if name != "" {
      KeptPast(d, d2, node, Missing(d, node, SystemMetaRootAttr, NoCategory), Missing(d, node, MetaRootAttr, NoCategory), MessageAttr);
      ConnectedInto(d2, node, smr, MessageAttr, name, MetaNode);
    }
  }

  // ---------------------------------------------------------------- the meta attributes

  /** The names of the three meta attributes addRigNode declares on the node. */
  const MetaNames: set<Name> := {MetaParent, MetaChildren, MetaTypeAttr}

  /** Attributes of other names than the six UI names leave addUIAttrs' readiness alone. */
  lemma UIReadyAppended(d: Doc, d': Doc, n: Node, es: seq<Decl>)
    requires Decls(d', n) == Decls(d, n) + es && forall x <- es :: x.name !in UINames
    ensures UIReady(d', n) == UIReady(d, n)
  {
    LookupConcat(Decls(d, n), es, "buttonPos");
    LookupConcat(Decls(d, n), es, "buttonPosX");
    LookupConcat(Decls(d, n), es, "buttonPosY");
    LookupConcat(Decls(d, n), es, "buttonSize");
    LookupConcat(Decls(d, n), es, "buttonSizeX");
    LookupConcat(Decls(d, n), es, "buttonSizeY");
  }

  lemma UIReadyKept(d: Doc, d': Doc, n: Node, names: set<Name>, cats: set<string>)
    requires GrownAt(d, d', n, names, cats) && names !! UINames
    ensures UIReady(d', n) == UIReady(d, n)
  {
    var es := Decls(d', n)[|Decls(d, n)|..];
    assert Decls(d', n) == Decls(d, n) + es;
    UIReadyAppended(d, d', n, es);
  }

  /** What one declaration leaves each name of the node finding. */
  lemma DeclaredFind(d: Doc, n: Node, x: Decl, b: Name)
    requires n in d.nodes
    ensures FindAttr(Declared(d, n, x).doc, n, b) == if b == x.name && !HasAttr(d, n, b) then Some(x) else FindAttr(d, n, b)
  {
    if !HasAttr(d, n, x.name) {
      LookupAppend(Decls(d, n), x, b);
    }
  }

  /** The three meta attributes, each declared unless present, add only attributes of
      those names and of category metaNode to the node. */
  lemma MetaDeclaredGrown(d: Doc, node: Node)
    requires node in d.nodes
    ensures var s4 := Declared(d, node, Decl(MetaParent, Message, MetaNode, false));
      var s5 := Declared(s4.doc, node, Decl(MetaChildren, Message, MetaNode, true));
      var s6 := Declared(s5.doc, node, Decl(MetaTypeAttr, Enum, MetaNode, false));
      && s4.status == Done && s5.status == Done && s6.status == Done
      && GrownAt(d, s6.doc, node, MetaNames, {MetaNode})
  {
    var x4, x5, x6 := Decl(MetaParent, Message, MetaNode, false), Decl(MetaChildren, Message, MetaNode, true), Decl(MetaTypeAttr, Enum, MetaNode, false);
    DeclaredGrown(d, node, x4, MetaNames, {MetaNode});
    var d4 := Declared(d, node, x4).doc;
    DeclaredGrown(d4, node, x5, MetaNames, {MetaNode});
    var d5 := Declared(d4, node, x5).doc;
    DeclaredGrown(d5, node, x6, MetaNames, {MetaNode});
    GrownTrans(d, d4, d5, node, MetaNames, {MetaNode});
    GrownTrans(d, d5, Declared(d5, node, x6).doc, node, MetaNames, {MetaNode});
  }

  /** Afterwards the node has all three, and a metaChildren it lacked is the multi one. */
  lemma MetaDeclaredHas(d: Doc, node: Node)
    requires node in d.nodes
    ensures var s4 := Declared(d, node, Decl(MetaParent, Message, MetaNode, false));
      var s5 := Declared(s4.doc, node, Decl(MetaChildren, Message, MetaNode, true));
      var s6 := Declared(s5.doc, node, Decl(MetaTypeAttr, Enum, MetaNode, false));
      && HasAttr(s6.doc, node, MetaParent) && HasAttr(s6.doc, node, MetaChildren) && HasAttr(s6.doc, node, MetaTypeAttr)
      && (!HasAttr(d, node, MetaChildren) ==> FindAttr(s6.doc, node, MetaChildren) == Some(Decl(MetaChildren, Message, MetaNode, true)))
  {
    var x4, x5, x6 := Decl(MetaParent, Message, MetaNode, false), Decl(MetaChildren, Message, MetaNode, true), Decl(MetaTypeAttr, Enum, MetaNode, false);
    var d4 := Declared(d, node, x4).doc;
    var d5 := Declared(d4, node, x5).doc;
    DeclaredFind(d, node, x4, MetaParent);
    DeclaredFind(d, node, x4, MetaChildren);
    DeclaredFind(d4, node, x5, MetaParent);
    DeclaredFind(d4, node, x5, MetaChildren);
    DeclaredFind(d5, node, x6, MetaParent);
    DeclaredFind(d5, node, x6, MetaChildren);
    DeclaredFind(d5, node, x6, MetaTypeAttr);
  }

  /** The meta attributes as the three declarations leave them. */
  function MetaTagged(d: Doc, node: Node): Doc {
    var s4 := Declared(d, node, Decl(MetaParent, Message, MetaNode, false));
    var s5 := Declared(s4.doc, node, Decl(MetaChildren, Message, MetaNode, true));
    Declared(s5.doc, node, Decl(MetaTypeAttr, Enum, MetaNode, false)).doc
  }

  /** addRigNode's tagging gets through exactly when the node exists and neither UI
      compound has a child without its parent. */
  lemma TaggedIff(d: Doc, node: Node)
    ensures RigNodeTagged(d, node).status.Done? <==> node in d.nodes && UIReady(d, node)
    ensures RigNodeTagged(d, node).status.Done? ==> RigNodeTagged(d, node) == UIDeclared(MetaTagged(d, node), node)
  {
    if node in d.nodes {
      MetaDeclaredGrown(d, node);
      UIReadyKept(d, MetaTagged(d, node), node, MetaNames, {MetaNode});
      UIDeclaredIff(MetaTagged(d, node), node);
    }
  }

  /** Tagging adds to the node only meta attributes of category metaNode and UI
      attributes of category metaUI, and changes nothing else in the scene. */
  lemma TaggedGrown(d: Doc, node: Node)
    requires RigNodeTagged(d, node).status.Done?
    ensures GrownAt(d, RigNodeTagged(d, node).doc, node, MetaNames + UINames, {MetaNode, MetaUI})
  {
    TaggedIff(d, node);
    var d6 := MetaTagged(d, node);
    MetaDeclaredGrown(d, node);
    UIDeclaredGrown(d6, node);
    GrownWiden(d, d6, node, MetaNames, {MetaNode}, MetaNames + UINames, {MetaNode, MetaUI});
    GrownWiden(d6, UIDeclared(d6, node).doc, node, UINames, {MetaUI}, MetaNames + UINames, {MetaNode, MetaUI});
    GrownTrans(d, d6, UIDeclared(d6, node).doc, node, MetaNames + UINames, {MetaNode, MetaUI});
  }

  /** After tagging the node has metaParent, metaChildren and metaType, and a
      metaChildren it lacked is the multi message attribute of category metaNode. */
  lemma TaggedHas(d: Doc, node: Node)
    requires RigNodeTagged(d, node).status.Done?
    ensures var e := RigNodeTagged(d, node).doc;
      && HasAttr(e, node, MetaParent) && HasAttr(e, node, MetaChildren) && HasAttr(e, node, MetaTypeAttr)
      && (!HasAttr(d, node, MetaChildren) ==> FindAttr(e, node, MetaChildren) == Some(Decl(MetaChildren, Message, MetaNode, true)))
  {
    TaggedIff(d, node);
    var d6 := MetaTagged(d, node);
    MetaDeclaredHas(d, node);
    UIDeclaredGrown(d6, node);
    var e := UIDeclared(d6, node).doc;
    GrownFind(d6, e, node, UINames, {MetaUI}, node, MetaParent);
    GrownFind(d6, e, node, UINames, {MetaUI}, node, MetaChildren);
    GrownFind(d6, e, node, UINames, {MetaUI}, node, MetaTypeAttr);
  }

  // ---------------------------------------------------------------- registration

  /** The names of the two attributes the node gains from the connections. */
  const LinkNames: set<Name> := {SystemMetaRootAttr, MetaRootAttr}

  /** How addRigNode's registration leaves the scene e it started from as d: the three
      connections of LinkedInputs; smr gains the attribute <name> of category metaNode
      when it had none; the node keeps its attributes and gains only link, meta and UI
      attributes; nothing else changes. */
  ghost predicate RegisteredShaped(d: Doc, e: Doc, root: Node, smr: Node, node: Node, name: Name) {
    && e.nodes == d.nodes && e.values == d.values && e.arrays == d.arrays
    && e.inputs == LinkedInputs(d.inputs, root, smr, node, name)
    && Decls(e, smr) == Decls(d, smr) + (if name == "" then [] else Missing(d, smr, name, MetaNode))
    && Decls(d, node) <= Decls(e, node)
    && (forall x <- Decls(e, node)[|Decls(d, node)|..] :: x.name in RegisteredNames)
    && (forall m | m != node && m != smr :: Decls(e, m) == Decls(d, m))
  }

  /** The names the registration may add to the node. */
  const RegisteredNames: set<Name> := LinkNames + MetaNames + UINames

  /** Two appends of attributes whose names are in `names` append only such names. */
  lemma SuffixNames(a: seq<Decl>, b: seq<Decl>, c: seq<Decl>, names: set<Name>)
    requires a <= b <= c
    requires forall x <- b[|a|..] :: x.name in names
    requires forall x <- c[|b|..] :: x.name in names
    ensures forall x <- c[|a|..] :: x.name in names
  {
    forall x <- c[|a|..] ensures x.name in names {
      var k :| 0 <= k < |c[|a|..]| && c[|a|..][k] == x;
      if |a| + k < |b| {
        assert b[|a|..][k] == x;
      } else {
        assert c[|b|..][|a| + k - |b|] == x;
      }
    }
  }

  /** The connections' effect followed by the tagging's growth is RegisteredShaped. */
  lemma ShapedFromSteps(d: Doc, d1: Doc, e: Doc, root: Node, smr: Node, node: Node, name: Name)
    requires node != smr
    requires d1.nodes == d.nodes && d1.values == d.values && d1.arrays == d.arrays
    requires d1.inputs == LinkedInputs(d.inputs, root, smr, node, name)
    requires Decls(d1, node) == Decls(d, node) + Missing(d, node, SystemMetaRootAttr, NoCategory) + Missing(d, node, MetaRootAttr, NoCategory)
    requires Decls(d1, smr) == Decls(d, smr) + (if name == "" then [] else Missing(d, smr, name, MetaNode))
    requires forall m | m != node && m != smr :: Decls(d1, m) == Decls(d, m)
    requires GrownAt(d1, e, node, MetaNames + UINames, {MetaNode, MetaUI})
    ensures RegisteredShaped(d, e, root, smr, node, name)
  {
    GrownWiden(d1, e, node, MetaNames + UINames, {MetaNode, MetaUI}, RegisteredNames, {MetaNode, MetaUI});
    assert Decls(d1, node)[|Decls(d, node)|..] == Missing(d, node, SystemMetaRootAttr, NoCategory) + Missing(d, node, MetaRootAttr, NoCategory);
    SuffixNames(Decls(d, node), Decls(d1, node), Decls(e, node), RegisteredNames);
  }

  /** The two link attributes exist once the connections have appended what was missing. */
  lemma LinkedHas(d: Doc, d1: Doc, node: Node)
    requires Decls(d1, node) == Decls(d, node) + Missing(d, node, SystemMetaRootAttr, NoCategory) + Missing(d, node, MetaRootAttr, NoCategory)
    ensures HasAttr(d1, node, SystemMetaRootAttr) && HasAttr(d1, node, MetaRootAttr)
  {
    var es := Missing(d, node, SystemMetaRootAttr, NoCategory) + Missing(d, node, MetaRootAttr, NoCategory);
    assert Decls(d1, node) == Decls(d, node) + es;
    LookupConcat(Decls(d, node), es, SystemMetaRootAttr);
    LookupConcat(Decls(d, node), es, MetaRootAttr);
  }

  /** Linking adds only the two link attributes, which are no UI names. */
  lemma LinkedUIReady(d: Doc, d1: Doc, node: Node)
    requires Decls(d1, node) == Decls(d, node) + Missing(d, node, SystemMetaRootAttr, NoCategory) + Missing(d, node, MetaRootAttr, NoCategory)
    ensures UIReady(d1, node) == UIReady(d, node)
  {
    var es := Missing(d, node, SystemMetaRootAttr, NoCategory) + Missing(d, node, MetaRootAttr, NoCategory);
    assert Decls(d1, node) == Decls(d, node) + es;
    assert forall x <- es :: x.name in LinkNames;
    UIReadyAppended(d, d1, node, es);
  }

  /** addRigNode's registration, of a node other than the system network whose UI
      compounds have no child without its parent, between nodes that carry `message`. */
  lemma RegisteredEffect(d: Doc, root: Node, smr: Node, node: Node, name: Name)
    requires root in d.nodes && smr in d.nodes && node in d.nodes
    requires root != "" && smr != "" && node != "" && node != smr
    requires HasAttr(d, root, MessageAttr) && HasAttr(d, smr, MessageAttr) && HasAttr(d, node, MessageAttr)
    requires UIReady(d, node) && LinksReceive(d, smr, node, name)
    ensures Registered(d, root, smr, node, name).status == Done
    ensures RegisteredShaped(d, Registered(d, root, smr, node, name).doc, root, smr, node, name)
  {
    RigNodeLinkedEffect(d, root, smr, node, name);
    var d1 := RigNodeLinked(d, root, smr, node, name).doc;
    LinkedUIReady(d, d1, node);
    TaggedIff(d1, node);
    TaggedGrown(d1, node);
    ShapedFromSteps(d, d1, RigNodeTagged(d1, node).doc, root, smr, node, name);
  }

  /** Appending attributes keeps a name the node has. */
  lemma HasKept(d: Doc, e: Doc, n: Node, a: Name)
    requires Decls(d, n) <= Decls(e, n) && HasAttr(d, n, a)
    ensures HasAttr(e, n, a)
  {
    var es := Decls(e, n)[|Decls(d, n)|..];
    assert Decls(e, n) == Decls(d, n) + es;
    LookupConcat(Decls(d, n), es, a);
  }

  /** After the registration the node has the two link and the three meta attributes. */
  lemma RegisteredHas(d: Doc, root: Node, smr: Node, node: Node, name: Name)
    requires root in d.nodes && smr in d.nodes && node in d.nodes
    requires root != "" && smr != "" && node != "" && node != smr
    requires HasAttr(d, root, MessageAttr) && HasAttr(d, smr, MessageAttr) && HasAttr(d, node, MessageAttr)
    requires UIReady(d, node) && LinksReceive(d, smr, node, name)
    ensures var e := Registered(d, root, smr, node, name).doc;
      && HasAttr(e, node, SystemMetaRootAttr) && HasAttr(e, node, MetaRootAttr)
      && HasAttr(e, node, MetaParent) && HasAttr(e, node, MetaChildren) && HasAttr(e, node, MetaTypeAttr)
  {
    RigNodeLinkedEffect(d, root, smr, node, name);
    var d1 := RigNodeLinked(d, root, smr, node, name).doc;
    LinkedUIReady(d, d1, node);
    TaggedIff(d1, node);
    TaggedHas(d1, node);
    TaggedGrown(d1, node);
    var e := RigNodeTagged(d1, node).doc;
    LinkedHas(d, d1, node);
    HasKept(d1, e, node, SystemMetaRootAttr);
    HasKept(d1, e, node, MetaRootAttr);
  }

  // ---------------------------------------------------------------- addRigNode

  /** A node the connections can use: it exists, is named, and has `message`, as every
      node of a sound scene does. */
  ghost predicate Carries(d: Doc, n: Node) {
    n in d.nodes && n != "" && HasAttr(d, n, MessageAttr)
  }

  /** What addRigNode's validation establishes when it lets the node through: a node
      was given, the system is listed, its network smr exists, no metaNode attribute of
      smr has the name, and the node is not connected to the root's message. */
  ghost predicate Admits(rig: RigState, d: Doc, node: Node, system: Name, name: Name, smr: Node) {
    && node != "" && rig.systems.Some? && system in rig.systems.value
    && SystemMetaRoot(rig, d, system) == Answer(smr) && smr in d.nodes
    && name !in ListAttr(d, smr, MetaNode)
    && MetaRigNodes(rig, d).Ok? && node !in MetaRigNodes(rig, d).value
  }

  /** Each error string of addRigNode is returned exactly when its check fails and the
      earlier ones pass; only a call that passes every check goes on to register. */
  lemma RigNodeAddedChecks(rig: RigState, d: Doc, node: Node, system: Name, name: Name)
    ensures var r := RigNodeAdded(rig, d, node, system, name);
      && (r.status == Refused(NoNodes) <==> node == "")
      && (r.status == Refused(UnknownSystem) <==> node != "" && rig.systems.Some? && system !in rig.systems.value)
      && (r.status == Refused(RigNodeExists) <==>
            && node != "" && rig.systems.Some? && system in rig.systems.value
            && SystemMetaRoot(rig, d, system).Answer? && SystemMetaRoot(rig, d, system).value in d.nodes
            && name in ListAttr(d, SystemMetaRoot(rig, d, system).value, MetaNode))
      && (r.status.Done? ==> SystemMetaRoot(rig, d, system).Answer? && Admits(rig, d, node, system, name, SystemMetaRoot(rig, d, system).value))
  {
  }

  /** A node connected to the root's message, whatever the direction, is refused. */
  lemma RigNodeAddedAlreadyInRig(rig: RigState, d: Doc, node: Node, system: Name, name: Name, smr: Node)
    requires node != "" && rig.systems.Some? && system in rig.systems.value
    requires SystemMetaRoot(rig, d, system) == Answer(smr) && smr in d.nodes && name !in ListAttr(d, smr, MetaNode)
    ensures RigNodeAdded(rig, d, node, system, name).status == Refused(AlreadyInRig) <==>
      MetaRigNodes(rig, d).Ok? && node in MetaRigNodes(rig, d).value
  {
  }

  /** The system network is connected to the root when root.message feeds its metaRoot. */
  lemma NetworkInRig(rig: RigState, d: Doc, smr: Node)
    requires rig.root in d.nodes
    requires Plug(smr, MetaRootAttr) in d.inputs && d.inputs[Plug(smr, MetaRootAttr)] == Plug(rig.root, MessageAttr)
    ensures MetaRigNodes(rig, d).Ok? && smr in MetaRigNodes(rig, d).value
  {
    assert smr in Destinations(d, Plug(rig.root, MessageAttr));
  }

  /** A call that passes the checks registers the node: in a scene whose nodes carry
      `message`, for a system network that root.message feeds (as addSystem leaves it)
      and a node whose UI compounds have no child without its parent. */
  lemma RigNodeAddedEffect(rig: RigState, d: Doc, node: Node, system: Name, name: Name, smr: Node)
    requires Admits(rig, d, node, system, name, smr)
    requires Carries(d, rig.root) && Carries(d, smr) && Carries(d, node) && UIReady(d, node) && LinksReceive(d, smr, node, name)
    requires Plug(smr, MetaRootAttr) in d.inputs && d.inputs[Plug(smr, MetaRootAttr)] == Plug(rig.root, MessageAttr)
    ensures RigNodeAdded(rig, d, node, system, name).status == Done
    ensures RegisteredShaped(d, RigNodeAdded(rig, d, node, system, name).doc, rig.root, smr, node, name)
    ensures RigNodeAdded(rig, d, node, system, name) == Registered(d, rig.root, smr, node, name)
    ensures node != smr
  {
    NetworkInRig(rig, d, smr);
    RegisteredEffect(d, rig.root, smr, node, name);
  }

  /** A call that passes the checks goes on to the registration. */
  lemma AdmittedRegisters(rig: RigState, d: Doc, node: Node, system: Name, name: Name, smr: Node)
    requires Admits(rig, d, node, system, name, smr)
    ensures RigNodeAdded(rig, d, node, system, name) == Registered(d, rig.root, smr, node, name)
  {
  }

  /** The third connection into an attribute of another type raises, after the first
      two fed the node from the network and the root. */
  lemma RigNodeLinkedNotMessage(d: Doc, root: Node, smr: Node, node: Node, name: Name)
    requires root in d.nodes && smr in d.nodes && node in d.nodes
    requires root != "" && smr != "" && node != "" && node != smr
    requires HasAttr(d, root, MessageAttr) && HasAttr(d, smr, MessageAttr) && HasAttr(d, node, MessageAttr)
    requires Receives(d, node, SystemMetaRootAttr) && Receives(d, node, MetaRootAttr) && name != "" && !Receives(d, smr, name)
    ensures var s := Registered(d, root, smr, node, name);
      && s.status == Raised(NotAMessage)
      && s.doc.inputs == d.inputs[Plug(node, SystemMetaRootAttr) := Plug(smr, MessageAttr)][Plug(node, MetaRootAttr) := Plug(root, MessageAttr)]
  {
    NodeLinked(d, root, smr, node);
    var d1 := Connected(d, smr, node, MessageAttr, SystemMetaRootAttr, NoCategory).doc;
    var d2 := Connected(d1, root, node, MessageAttr, MetaRootAttr, NoCategory).doc;
    KeptPast(d, d2, node, Missing(d, node, SystemMetaRootAttr, NoCategory), Missing(d, node, MetaRootAttr, NoCategory), MessageAttr);
    assert !Receives(d2, smr, name) by {
      assert Decls(d2, smr) == Decls(d, smr);
    }
    ConnectedNotMessage(d2, node, smr, MessageAttr, name, MetaNode);
  }

  /** messageConnect from a plug that exists into an attribute of another type raises
      and changes nothing. */
  lemma ConnectedNotMessage(d: Doc, from: Node, to: Node, fromName: Name, toName: Name, cat: string)
    requires from != "" && to != "" && fromName != "" && toName != ""
    requires from in d.nodes && to in d.nodes && HasAttr(d, from, fromName) && !Receives(d, to, toName)
    ensures Connected(d, from, to, fromName, toName, cat) == Step(Raised(NotAMessage), d)
  {
    assert Ensured(d, from, fromName, cat) == d;
  }

  /** A node that passes the checks under a name the system network already holds as an
      attribute of another type (its side enum, say) makes the third connection raise:
      the node is fed by the network and the root, while smr.<name> is not fed. */
  lemma RigNodeAddedNotMessage(rig: RigState, d: Doc, node: Node, system: Name, name: Name, smr: Node)
    requires Admits(rig, d, node, system, name, smr)
    requires Carries(d, rig.root) && Carries(d, smr) && Carries(d, node)
    requires Plug(smr, MetaRootAttr) in d.inputs && d.inputs[Plug(smr, MetaRootAttr)] == Plug(rig.root, MessageAttr)
    requires Receives(d, node, SystemMetaRootAttr) && Receives(d, node, MetaRootAttr) && name != "" && !Receives(d, smr, name)
    ensures var r := RigNodeAdded(rig, d, node, system, name);
      && r.status == Raised(NotAMessage)
      && r.doc.inputs == d.inputs[Plug(node, SystemMetaRootAttr) := Plug(smr, MessageAttr)][Plug(node, MetaRootAttr) := Plug(rig.root, MessageAttr)]
  {
    NetworkInRig(rig, d, smr);
    AdmittedRegisters(rig, d, node, system, name, smr);
    RigNodeLinkedNotMessage(d, rig.root, smr, node, name);
  }

  /** After the registration, root.message feeds the node's metaRoot, so the node is
      one of the rig's nodes. */
  lemma RegisteredInRig(rig: RigState, d: Doc, e: Doc, smr: Node, node: Node, name: Name)
    requires RegisteredShaped(d, e, rig.root, smr, node, name) && node != smr && rig.root in d.nodes
    ensures MetaRigNodes(rig, e).Ok? && node in MetaRigNodes(rig, e).value
  {
    assert e.inputs[Plug(node, MetaRootAttr)] == Plug(rig.root, MessageAttr);
    NetworkInRig(rig, e, node);
  }

  /** A node is registered once: a second addRigNode of it, into any system under any
      name, does not register it again. */
  lemma RigNodeAddedOnce(rig: RigState, d: Doc, node: Node, system: Name, name: Name, smr: Node, system': Name, name': Name)
    requires Admits(rig, d, node, system, name, smr)
    requires Carries(d, rig.root) && Carries(d, smr) && Carries(d, node) && UIReady(d, node) && LinksReceive(d, smr, node, name)
    requires Plug(smr, MetaRootAttr) in d.inputs && d.inputs[Plug(smr, MetaRootAttr)] == Plug(rig.root, MessageAttr)
    ensures var e := RigNodeAdded(rig, d, node, system, name).doc;
      !RigNodeAdded(rig, e, node, system', name').status.Done?
  {
    RigNodeAddedEffect(rig, d, node, system, name, smr);
    var e := RigNodeAdded(rig, d, node, system, name).doc;
    RegisteredInRig(rig, d, e, smr, node, name);
    RigNodeAddedChecks(rig, e, node, system', name');
  }

  // ---------------------------------------------------------------- queries after registration

  /** The node's added attributes are of the registration's names only, so a name
      outside them finds what it found before. */
  lemma RegisteredFind(d: Doc, e: Doc, root: Node, smr: Node, node: Node, name: Name, a: Name)
    requires RegisteredShaped(d, e, root, smr, node, name) && a !in RegisteredNames
    ensures FindAttr(e, node, a) == FindAttr(d, node, a)
  {
    var es := Decls(e, node)[|Decls(d, node)|..];
    assert Decls(e, node) == Decls(d, node) + es;
    LookupConcat(Decls(d, node), es, a);
  }

  /** A registered node reports its system network, and through it the system's name. */
  lemma RegisteredNetwork(d: Doc, e: Doc, root: Node, smr: Node, node: Node, name: Name)
    requires RegisteredShaped(d, e, root, smr, node, name) && node != smr
    requires HasAttr(e, node, SystemMetaRootAttr) && HasAttr(d, smr, SystemNameAttr)
    ensures SystemNetwork(e, node) == Ok(smr)
    ensures SystemOf(e, node) == GetAttr(d, Plug(smr, SystemNameAttr))
  {
    assert ListConnections(e, Plug(node, SystemMetaRootAttr))[0] == smr;
    Kept(d, e, smr, if name == "" then [] else Missing(d, smr, name, MetaNode), SystemNameAttr);
  }

  /** A registered node that is not itself a system network (has no systemType)
      reports the side of its system network. */
  lemma RegisteredSide(d: Doc, e: Doc, root: Node, smr: Node, node: Node, name: Name)
    requires RegisteredShaped(d, e, root, smr, node, name) && node != smr && node in d.nodes
    requires HasAttr(e, node, SystemMetaRootAttr) && !HasAttr(d, node, SystemTypeAttr) && HasAttr(d, smr, SideAttr)
    ensures SideOf(e, node) == GetAttr(d, Plug(smr, SideAttr))
  {
    RegisteredNetworkOf(d, e, root, smr, node, name);
    RegisteredFind(d, e, root, smr, node, name, SystemTypeAttr);
    RegisteredRootKept(d, e, root, smr, node, name, SideAttr);
  }

  lemma RegisteredNetworkOf(d: Doc, e: Doc, root: Node, smr: Node, node: Node, name: Name)
    requires RegisteredShaped(d, e, root, smr, node, name) && node != smr
    requires HasAttr(e, node, SystemMetaRootAttr)
    ensures SystemNetwork(e, node) == Ok(smr)
  {
    assert ListConnections(e, Plug(node, SystemMetaRootAttr))[0] == smr;
  }

  /** The registration keeps every existing attribute of smr as it was. */
  lemma RegisteredRootKept(d: Doc, e: Doc, root: Node, smr: Node, node: Node, name: Name, a: Name)
    requires RegisteredShaped(d, e, root, smr, node, name) && node != smr && HasAttr(d, smr, a)
    ensures GetAttr(e, Plug(smr, a)) == GetAttr(d, Plug(smr, a))
  {
    Kept(d, e, smr, if name == "" then [] else Missing(d, smr, name, MetaNode), a);
  }

  /** The first source of each attribute that has one: appending an attribute appends
      its first source, if any. */
  lemma {:induction false} ConnectedSourcesAppend(d: Doc, n: Node, attrs: seq<Name>, a: Name)
    ensures ConnectedSources(d, n, attrs + [a]) == ConnectedSources(d, n, attrs) + FirstSource(d, Plug(n, a))
    decreases |attrs|
  {
    if attrs == [] {
      assert [a][1..] == [];
    } else {
      AppendTail(attrs, a);
      ConnectedSourcesAppend(d, n, attrs[1..], a);
    }
  }

  /** ConnectedSources reads only the connections of the attributes it is given. */
  lemma {:induction false} ConnectedSourcesSame(d: Doc, e: Doc, n: Node, attrs: seq<Name>)
    requires forall a <- attrs :: ListConnections(e, Plug(n, a)) == ListConnections(d, Plug(n, a))
    ensures ConnectedSources(e, n, attrs) == ConnectedSources(d, n, attrs)
    decreases |attrs|
  {
    if attrs != [] {
      assert attrs[0] in attrs;
      ConnectedSourcesSame(d, e, n, attrs[1..]);
    }
  }

  /** The registration leaves the connections of every plug of smr other than <name>,
      and of every node other than the registered one and smr, as they were. */
  lemma RegisteredConnections(d: Doc, e: Doc, root: Node, smr: Node, node: Node, name: Name, p: Plug)
    requires RegisteredShaped(d, e, root, smr, node, name)
    requires p.node != node && p != Plug(smr, name)
    ensures ListConnections(e, p) == ListConnections(d, p)
  {
  }

  /** With the name new to the system network, the corrected getSystemNodes answers
      what it answered before followed by the registered node. */
  lemma RegisteredSystemNodes(rig: RigState, d: Doc, e: Doc, system: Name, smr: Node, node: Node, name: Name)
    requires RegisteredShaped(d, e, rig.root, smr, node, name) && node != smr
    requires rig.root != node && rig.root != smr
    requires SystemMetaRoot(rig, d, system) == Answer(smr) && smr in d.nodes
    requires name != "" && !HasAttr(d, smr, name)
    ensures SystemMetaRoot(rig, e, system) == Answer(smr)
    ensures ListAttr(e, smr, MetaNode) == ListAttr(d, smr, MetaNode) + [name]
    ensures SystemNodesFixed(rig, e, system) == Answer(SystemNodesFixed(rig, d, system).value + [node])
  {
    var p := Plug(rig.root, system);
    RegisteredConnections(d, e, rig.root, smr, node, name, p);
    assert SystemMetaRoot(rig, e, system) == Answer(smr);
    var x := Decl(name, Message, MetaNode, false);
    InCategoryAppend(Decls(d, smr), x, MetaNode);
    var attrs := ListAttr(d, smr, MetaNode);
    assert ListAttr(e, smr, MetaNode) == attrs + [name];
    forall a <- attrs ensures ListConnections(e, Plug(smr, a)) == ListConnections(d, Plug(smr, a)) {
      RegisteredConnections(d, e, rig.root, smr, node, name, Plug(smr, a));
    }
    ConnectedSourcesSame(d, e, smr, attrs);
    ConnectedSourcesAppend(e, smr, attrs, name);
    assert ListConnections(e, Plug(smr, name))[0] == node;
    assert FirstSource(e, Plug(smr, name)) == [node];
  }
}
