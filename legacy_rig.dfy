/** The older schema's MetaRig: a scene node is the rig root and a metaRoot network is
    linked to it both ways; each system has a network wired to the metaRoot, and each
    rig node gets a network of its own standing between the scene node and its system.
    The queries the schemas share (getSystemMetaRoot, getMetaRigNodes) read the
    metaRoot where the current schema reads its root network. */
module LegacyRig {
  import opened Outcomes
  import opened Scene
  import opened MetaGraph
  import opened MetaLinks
  import opened Commands
  import opened Rig

  // ---------------------------------------------------------------- names

  const MetaNodeAttr: Name := "metaNode"
  const RootAttr: Name := "root"
  const RigNodeAttr: Name := "rigNode"

  const MetaConnection: string := "metaConnection"
  const MetaRootConnection: string := "metaRootConnection"

  // ---------------------------------------------------------------- hasMeta, getMetaNode

  /** hasMeta(n, metaType): n has a metaNode attribute and, when a type is given, at
      least one attribute of that category; attributeQuery raises for a missing node. */
  function HasMeta(d: Doc, n: Node, metaType: string): (r: Result<bool>)
    ensures r.Ok? <==> n in d.nodes
    ensures r.Ok? ==> (r.value <==> HasAttr(d, n, MetaNodeAttr) && (metaType == "" || exists x <- Decls(d, n) :: x.category == metaType))
  {
    if n !in d.nodes then Fail(NoSuchNode)
    else if metaType == "" then Ok(HasAttr(d, n, MetaNodeAttr))
    else
      var listed := ListAttr(d, n, metaType);
      assert listed != [] ==> listed[0] in listed;
      Ok(HasAttr(d, n, MetaNodeAttr) && listed != [])
  }

  /** getMetaNode(n): the first node feeding n.metaNode when hasMeta(n), else None. */
  function MetaNodeOf(d: Doc, n: Node): (r: Result<Option<Node>>)
    ensures (r.Ok? && r.value.None?) <==> n in d.nodes && !HasAttr(d, n, MetaNodeAttr)
    ensures (r.Ok? && r.value.Some?) <==> n in d.nodes && HasAttr(d, n, MetaNodeAttr) && ListConnections(d, Plug(n, MetaNodeAttr)) != []
    ensures r.Ok? && r.value.Some? ==> r.value.value == ListConnections(d, Plug(n, MetaNodeAttr))[0]
  {
    match HasMeta(d, n, "")
    case Fail(f) => Fail(f)
    case Ok(has) =>
      if !has then Ok(None)
      else match Listed(d, Plug(n, MetaNodeAttr))
        case Fail(f) => Fail(f)
        case Ok(xs) => if xs == [] then Fail(EmptyListing) else Ok(Some(xs[0]))
  }

  // ---------------------------------------------------------------- state

  /** The fields of an old-schema MetaRig object. */
  datatype LegacyState = LegacyState(name: Name, root: Node, metaRoot: Node, systems: Option<seq<Name>>)

  datatype LegacyOutcome = LegacyOutcome(status: Status, rig: LegacyState, doc: Doc)

  /** The fields the shared queries read, with the metaRoot in the place of the root. */
  function AsCurrent(st: LegacyState): RigState {
    RigState(st.name, st.metaRoot, st.systems)
  }

  // ---------------------------------------------------------------- addSystem

  /** systemType and side, each added and then set; the side's index is looked up
      once its attribute exists. */
  function LegacySystemTagged(d: Doc, nw: Node, systemType: string, side: string): (r: Step)
    ensures !r.status.Done? ==> r.status.Raised?
  {
    var s1 := Added(d, nw, TypeDecl);
    if !s1.status.Done? then s1 else
    var s2 := Assigned(s1.doc, Plug(nw, SystemTypeAttr), StrV(systemType));
    if !s2.status.Done? then s2 else
    var s3 := Added(s2.doc, nw, SideDecl);
    if !s3.status.Done? then s3
    else match SideIndex(side)
      case None => Step(Raised(NotASide), s3.doc)
      case Some(i) => Assigned(s3.doc, Plug(nw, SideAttr), IntV(i))
  }

  /** Everything addSystem does to the new network nw: the two message connections
      with the metaRoot, then the type and the side. */
  function LegacySystemMade(d: Doc, metaRoot: Node, nw: Node, name: Name, systemType: string, side: string): (r: Step)
    ensures !r.status.Done? ==> r.status.Raised?
  {
    var s := SystemWired(d, metaRoot, nw, name);
    if !s.status.Done? then s else LegacySystemTagged(s.doc, nw, systemType, side)
  }

  /** addSystem(systemType, side, name) */
  function LegacySystemAdded(st: LegacyState, d: Doc, systemType: string, side: string, name: Name): (r: LegacyOutcome)
    ensures r.status.Refused? <==> name == "" || (st.systems.Some? && name in st.systems.value)
    ensures r.status.Refused? ==> r.doc == d
    ensures r.status.Done? ==> st.systems.Some? && r.rig == st.(systems := Some(st.systems.value + [name]))
    ensures !r.status.Done? ==> r.rig == st
  {
    if name == "" then LegacyOutcome(Refused(NoSystemName), st, d)
    else if st.systems.None? then LegacyOutcome(Raised(NoneNotIterable), st, d)
    else if name in st.systems.value then LegacyOutcome(Refused(SystemExists), st, d)
    else
      var nw := FreshName(d.nodes, NodeBase(SystemNodeBase(st.name, name)));
      var s := LegacySystemMade(Created(d, nw), st.metaRoot, nw, name, systemType, side);
      if !s.status.Done? then LegacyOutcome(s.status, st, s.doc)
      else LegacyOutcome(Done, st.(systems := Some(st.systems.value + [name])), s.doc)
  }

  // ---------------------------------------------------------------- addRigNode

  /** The five message connections of a rig node's network nw: the system network and
      the metaRoot feed it, it feeds smr.<name> (skipped when name is None, messageConnect
      then returning its error string) and node.metaNode, and the node feeds nw.rigNode. */
  function LegacyLinked(d: Doc, metaRoot: Node, smr: Node, nw: Node, node: Node, name: Name): (r: Step)
    ensures !r.status.Done? ==> r.status.Raised?
  {
    var s1 := Connected(d, smr, nw, MessageAttr, SystemMetaRootAttr, NoCategory);
    if !s1.status.Done? then s1 else
    var s2 := Connected(s1.doc, metaRoot, nw, MessageAttr, MetaRootAttr, NoCategory);
    if !s2.status.Done? then s2 else
    var s3 := Connected(s2.doc, nw, smr, MessageAttr, name, MetaConnection);
    if !s3.status.Done? then s3 else
    var s4 := Connected(s3.doc, nw, node, MessageAttr, MetaNodeAttr, MetaConnection);
    if !s4.status.Done? then s4 else
    Connected(s4.doc, node, nw, MessageAttr, RigNodeAttr, MetaConnection)
  }

  /** metaParent, metaChildren (multi) and metaType on the network, where absent. */
  function LegacyTagged(d: Doc, nw: Node): (r: Step)
    ensures !r.status.Done? ==> r.status.Raised?
  {
    var s1 := Declared(d, nw, Decl(MetaParent, Message, MetaNode, false));
    if !s1.status.Done? then s1 else
    var s2 := Declared(s1.doc, nw, Decl(MetaChildren, Message, MetaNode, true));
    if !s2.status.Done? then s2 else
    Declared(s2.doc, nw, Decl(MetaTypeAttr, Enum, MetaNode, false))
  }

  /** What addRigNode does once the node passed validation and its network nw exists. */
  function LegacyRegistered(d: Doc, metaRoot: Node, smr: Node, nw: Node, node: Node, name: Name): (r: Step)
    ensures !r.status.Done? ==> r.status.Raised?
  {
    var s := LegacyLinked(d, metaRoot, smr, nw, node, name);
    if !s.status.Done? then s else LegacyTagged(s.doc, nw)
  }

  /** Whether one of the networks feeding n.metaNode is among the rig's nodes. */
  predicate MetaInRig(d: Doc, n: Node, rigNodes: set<Node>) {
    exists x <- ListConnections(d, Plug(n, MetaNodeAttr)) :: x in rigNodes
  }

  /** addRigNode's validation: the system network to register the node with, one of its
      error strings, or an exception. `corrected` selects the two corrected checks: the
      names already used are listed from category metaConnection, the category line 279
      gives them, and a node whose meta network is in the rig counts as in the rig. */
  function LegacyAdmission(st: LegacyState, d: Doc, node: Node, system: Name, name: Name, corrected: bool): (r: Reply<Node>)
    ensures r.Declined? ==> r.reason in {NoNodes, UnknownSystem, RigNodeExists, AlreadyInRig}
    ensures r.Answer? ==> node != "" && st.systems.Some? && system in st.systems.value && r.value in d.nodes
  {
    if node == "" then Declined(NoNodes)
    else if st.systems.None? then Threw(NoneNotIterable)
    else if system !in st.systems.value then Declined(UnknownSystem)
    else match SystemMetaRoot(AsCurrent(st), d, system)
      case Threw(f) => Threw(f)
      case Declined(_) => Threw(NoSuchNode)
      case Answer(smr) =>
        if smr !in d.nodes then Threw(NoSuchNode)
        else if name in ListAttr(d, smr, if corrected then MetaConnection else MetaNode) then Declined(RigNodeExists)
        else match MetaRigNodes(AsCurrent(st), d)
          case Fail(f) => Threw(f)
          case Ok(rigNodes) =>
            if node in rigNodes || (corrected && MetaInRig(d, node, rigNodes)) then Declined(AlreadyInRig)
            else Answer(smr)
  }

  /** The network addRigNode creates, named after the rig node. */
  function RigNodeNetwork(d: Doc, name: Name): (nw: Node)
    ensures nw !in d.nodes && nw != ""
  {
    FreshName(d.nodes, NodeBase(name))
  }

  function LegacyRigNodeAddedWith(st: LegacyState, d: Doc, node: Node, system: Name, name: Name, corrected: bool): (r: Step)
    ensures r.status.Refused? ==> r.doc == d
  {
    match LegacyAdmission(st, d, node, system, name, corrected)
    case Declined(reason) => Step(Refused(reason), d)
    case Threw(f) => Step(Raised(f), d)
    case Answer(smr) =>
      var nw := RigNodeNetwork(d, name);
      LegacyRegistered(Created(d, nw), st.metaRoot, smr, nw, node, name)
  }

  /** addRigNode(node, system, name) as written. */
  function LegacyRigNodeAddedAsWritten(st: LegacyState, d: Doc, node: Node, system: Name, name: Name): (r: Step)
    ensures r.status.Refused? ==> r.doc == d
  {
    LegacyRigNodeAddedWith(st, d, node, system, name, false)
  }

  /** addRigNode(node, system, name) with the corrected checks. */
  function LegacyRigNodeAdded(st: LegacyState, d: Doc, node: Node, system: Name, name: Name): (r: Step)
    ensures r.status.Refused? ==> r.doc == d
  {
    LegacyRigNodeAddedWith(st, d, node, system, name, true)
  }

  // ---------------------------------------------------------------- build

  /** build() on a root that hasMeta(root, 'metaRootConnection'): the metaRoot (and the
      rig's name) is the node feeding root.metaNode, and the systems are the metaRoot's
      attributes of category metaSystem; None for an empty listing is replaced by []. */
  function LegacyLoaded(st: LegacyState, d: Doc): (r: LegacyOutcome)
    ensures r.doc == d && r.rig.root == st.root
  {
    match Listed(d, Plug(st.root, MetaNodeAttr))
    case Fail(f) => LegacyOutcome(Raised(f), st, d)
    case Ok(xs) =>
      if xs == [] then LegacyOutcome(Raised(EmptyListing), st, d)
      else
        var st1 := st.(metaRoot := xs[0], name := xs[0]);
        if xs[0] !in d.nodes then LegacyOutcome(Raised(NoSuchNode), st1, d)
        else LegacyOutcome(Done, st1.(systems := Some(ListAttr(d, xs[0], MetaSystem))), d)
  }

  /** The same as written: an empty listing leaves `systems` None. */
  function LegacyLoadedAsWritten(st: LegacyState, d: Doc): (r: LegacyOutcome)
    ensures r.status.Done? && r.rig.systems.Some? ==> r == LegacyLoaded(st, d)
  {
    var r := LegacyLoaded(st, d);
    if r.status.Done? && r.rig.systems == Some([]) then r.(rig := r.rig.(systems := None)) else r
  }

  /** build() on a root without that meta: a metaRoot network named after the rig,
      root.message feeding metaRoot.root and metaRoot.message feeding root.metaNode, then
      the system 'root' and the root's registration as rig node 'root', whose error
      strings build ignores. */
  function LegacyCreated(st: LegacyState, d: Doc, corrected: bool): (r: LegacyOutcome)
    ensures r.rig.root == st.root
  {
    var mr := FreshName(d.nodes, NodeBase(st.name));
    var st1 := st.(metaRoot := mr);
    var s1 := Connected(Created(d, mr), st.root, mr, MessageAttr, RootAttr, MetaConnection);
    if !s1.status.Done? then LegacyOutcome(s1.status, st1, s1.doc) else
    var s2 := Connected(s1.doc, mr, st.root, MessageAttr, MetaNodeAttr, MetaRootConnection);
    if !s2.status.Done? then LegacyOutcome(s2.status, st1, s2.doc) else
    var o := LegacySystemAdded(st1, s2.doc, "root", "centre", "root");
    if o.status.Raised? then o else
    var s4 := LegacyRigNodeAddedWith(o.rig, o.doc, st.root, "root", "root", corrected);
    LegacyOutcome(if s4.status.Raised? then s4.status else Done, o.rig, s4.doc)
  }

  /** build(), with the corrected reload and the corrected addRigNode. */
  function LegacyBuilt(st: LegacyState, d: Doc): (r: LegacyOutcome)
    ensures r.rig.root == st.root
    ensures st.root !in d.nodes ==> r == LegacyOutcome(Raised(NoSuchNode), st, d)
  {
    match HasMeta(d, st.root, MetaRootConnection)
    case Fail(f) => LegacyOutcome(Raised(f), st, d)
    case Ok(loaded) => if loaded then LegacyLoaded(st, d) else LegacyCreated(st, d, true)
  }

  /** build() as written. */
  function LegacyBuiltAsWritten(st: LegacyState, d: Doc): (r: LegacyOutcome)
    ensures r.rig.root == st.root
    ensures st.root !in d.nodes ==> r == LegacyOutcome(Raised(NoSuchNode), st, d)
  {
    match HasMeta(d, st.root, MetaRootConnection)
    case Fail(f) => LegacyOutcome(Raised(f), st, d)
    case Ok(loaded) => if loaded then LegacyLoadedAsWritten(st, d) else LegacyCreated(st, d, false)
  }

  /** The fields __init__ sets before it calls build. */
  function LegacyStart(root: Node, name: Name): LegacyState {
    LegacyState(name, root, "", Some([]))
  }

  // ---------------------------------------------------------------- parentConnect

  /** getMetaNode's answer as parentConnect passes it on, None being the empty name. */
  function NetworkOf(m: Option<Node>): Node {
    if m.None? then "" else m.value
  }

  /** parentConnect(parent, child) as written (lines 46-77): the validation of the
      current schema, then both nodes mapped to their meta networks, which are
      re-parented as written, a missing network included. */
  ghost function LegacyParentConnectedAsWritten(d: Doc, parent: Node, child: Node): (r: Step)
    requires Acyclic(d)
  {
    if parent == "" then Step(Raised(OutOfRange), d)
    else if child == "" then Step(Refused(NoNodes), d)
    else match MetaNodeOf(d, parent)
      case Fail(f) => Step(Raised(f), d)
      case Ok(mp) =>
        match MetaNodeOf(d, child)
        case Fail(f) => Step(Raised(f), d)
        case Ok(mc) => RelinkedAsWritten(d, NetworkOf(mp), NetworkOf(mc))
  }

  /** parentConnect(parent, child), corrected: the meta networks are re-parented with
      the corrected detachment and attachment, and a node itself as its own parent is
      refused. A parent without a meta network leaves the child detached and raises; a
      child without one raises at once. */
  ghost function LegacyParentConnected(d: Doc, parent: Node, child: Node): (r: Step)
    requires Acyclic(d)
  {
    if parent == "" then Step(Raised(OutOfRange), d)
    else if child == "" then Step(Refused(NoNodes), d)
    else match MetaNodeOf(d, parent)
      case Fail(f) => Step(Raised(f), d)
      case Ok(mp) =>
        match MetaNodeOf(d, child)
        case Fail(f) => Step(Raised(f), d)
        case Ok(mc) =>
          if mc.None? || mc.value == "" then Step(Raised(NotMeta), d)
          else Relinked(d, mp, mc.value)
  }

  method LegacyParentConnect(h: Host, parent: Node, child: Node) returns (s: Status)
    requires h.Valid() && Acyclic(h.State())
    modifies h
    ensures h.Valid()
    ensures Step(s, h.State()) == LegacyParentConnectedAsWritten(old(h.State()), parent, child)
  {
    if parent == "" {
      return Raised(OutOfRange);
    }
    if child == "" {
      return Refused(NoNodes);
    }
    var mp := MetaNodeOf(h.State(), parent);
    if mp.Fail? {
      return Raised(mp.fault);
    }
    var mc := MetaNodeOf(h.State(), child);
    if mc.Fail? {
      return Raised(mc.fault);
    }
    s := Relink(h, NetworkOf(mp.value), NetworkOf(mc.value));
  }

  // ---------------------------------------------------------------- the object

  class LegacyMetaRig {
    const host: Host
    var name: Name
    var root: Node
    var metaRoot: Node
    var systems: Option<seq<Name>>

    function Model(): LegacyState
      reads this
    {
      LegacyState(name, root, metaRoot, systems)
    }

    ghost predicate Valid()
      reads this, host
    {
      host.Valid()
    }

    /** The fields __init__ sets before it calls build. */
    constructor (h: Host, root: Node, name: Name)
      requires h.Valid()
      ensures host == h && Valid()
      ensures Model() == LegacyStart(root, name)
    {
      host := h;
      this.name := name;
      this.root := root;
      metaRoot := "";
      systems := Some([]);
    }

    method Build() returns (s: Status)
      requires Valid()
      modifies this, host
      ensures Valid()
      ensures LegacyOutcome(s, Model(), host.State()) == LegacyBuiltAsWritten(old(Model()), old(host.State()))
    {
      var loaded := HasMeta(host.State(), root, MetaRootConnection);
      if loaded.Fail? {
        return Raised(loaded.fault);
      }
      if loaded.value {
        s := Reload();
      } else {
        s := Create();
      }
    }

    /** build's first branch: the metaRoot, and the rig's name, is what feeds
        root.metaNode, and the systems are its attributes of category metaSystem, None
        when listAttr finds none. */
    method Reload() returns (s: Status)
      requires Valid() && HasAttr(host.State(), root, MetaNodeAttr)
      modifies this
      ensures Valid()
      ensures LegacyOutcome(s, Model(), host.State()) == LegacyLoadedAsWritten(old(Model()), old(host.State()))
    {
      var xs := ListConnections(host.State(), Plug(root, MetaNodeAttr));
      if xs == [] {
        return Raised(EmptyListing);
      }
      metaRoot := xs[0];
      name := xs[0];
      if metaRoot !in host.nodes {
        return Raised(NoSuchNode);
      }
      var listed := ListAttr(host.State(), metaRoot, MetaSystem);
      systems := if listed == [] then None else Some(listed);
      return Done;
    }

    /** build's second branch: a new metaRoot wired to the root, the system 'root', and
        the root registered as its rig node 'root'. */
    method Create() returns (s: Status)
      requires Valid()
      modifies this, host
      ensures Valid()
      ensures LegacyOutcome(s, Model(), host.State()) == LegacyCreated(old(Model()), old(host.State()), false)
    {
      var mr := host.CreateNode(name);
      metaRoot := mr;
      s := Connect(host, root, mr, MessageAttr, RootAttr, MetaConnection);
      if !s.Done? {
        return;
      }
      s := Connect(host, mr, root, MessageAttr, MetaNodeAttr, MetaRootConnection);
      if !s.Done? {
        return;
      }
      s := AddSystem("root", "centre", "root");
      if s.Raised? {
        return;
      }
      s := AddRigNode(root, "root", "root");
      if !s.Raised? {
        s := Done;
      }
    }

    method AddSystem(systemType: string, side: string, name: Name) returns (s: Status)
      requires Valid()
      modifies this, host
      ensures Valid()
      ensures LegacyOutcome(s, Model(), host.State()) == LegacySystemAdded(old(Model()), old(host.State()), systemType, side, name)
    {
      if name == "" {
        return Refused(NoSystemName);
      }
      if systems.None? {
        return Raised(NoneNotIterable);
      }
      if name in systems.value {
        return Refused(SystemExists);
      }
      var nw := host.CreateNode(SystemNodeBase(this.name, name));
      s := MakeLegacySystem(host, metaRoot, nw, name, systemType, side);
      if s.Done? {
        systems := Some(systems.value + [name]);
      }
    }

    method AddRigNode(node: Node, system: Name, name: Name) returns (s: Status)
      requires Valid()
      modifies host
      ensures Valid()
      ensures Step(s, host.State()) == LegacyRigNodeAddedAsWritten(Model(), old(host.State()), node, system, name)
    {
      var admitted := Admit(Model(), host.State(), node, system, name, false);
      if admitted.Declined? {
        return Refused(admitted.reason);
      }
      if admitted.Threw? {
        return Raised(admitted.fault);
      }
      var nw := host.CreateNode(name);
      s := RegisterLegacy(host, metaRoot, admitted.value, nw, node, name);
    }
  }

  /** addRigNode's validation, check by check, as written or with the corrected checks. */
  method Admit(st: LegacyState, d: Doc, node: Node, system: Name, name: Name, corrected: bool) returns (r: Reply<Node>)
    ensures r == LegacyAdmission(st, d, node, system, name, corrected)
  {
    if node == "" {
      return Declined(NoNodes);
    }
    if st.systems.None? {
      return Threw(NoneNotIterable);
    }
    if system !in st.systems.value {
      return Declined(UnknownSystem);
    }
    var smr := SystemMetaRoot(AsCurrent(st), d, system);
    if smr.Threw? {
      return Threw(smr.fault);
    }
    if smr.Declined? {
      return Threw(NoSuchNode);
    }
    if smr.value !in d.nodes {
      return Threw(NoSuchNode);
    }
    if name in ListAttr(d, smr.value, if corrected then MetaConnection else MetaNode) {
      return Declined(RigNodeExists);
    }
    var rigNodes := MetaRigNodes(AsCurrent(st), d);
    if rigNodes.Fail? {
      return Threw(rigNodes.fault);
    }
    if node in rigNodes.value || (corrected && MetaInRig(d, node, rigNodes.value)) {
      return Declined(AlreadyInRig);
    }
    r := Answer(smr.value);
  }

  /** MetaRig(root, name): __init__ returns its error string without a root, which Python
      refuses with a TypeError; otherwise it sets the fields and builds. */
  method NewLegacyRig(h: Host, root: Node, name: Name) returns (rig: LegacyMetaRig?, s: Status)
    requires h.Valid()
    modifies h
    ensures h.Valid()
    ensures root == "" ==> rig == null && s == Raised(InitReturned) && h.State() == old(h.State())
    ensures root != "" ==> && rig != null && fresh(rig) && rig.host == h && rig.Valid()
                           && LegacyOutcome(s, rig.Model(), h.State()) == LegacyBuiltAsWritten(LegacyStart(root, name), old(h.State()))
  {
    if root == "" {
      return null, Raised(InitReturned);
    }
    rig := new LegacyMetaRig(h, root, name);
    s := rig.Build();
  }

  method MakeLegacySystem(h: Host, metaRoot: Node, nw: Node, name: Name, systemType: string, side: string) returns (s: Status)
    requires h.Valid()
    modifies h
    ensures h.Valid()
    ensures Step(s, h.State()) == LegacySystemMade(old(h.State()), metaRoot, nw, name, systemType, side)
  {
    s := WireSystem(h, metaRoot, nw, name);
    if !s.Done? {
      return;
    }
    s := Add(h, nw, TypeDecl);
    if !s.Done? {
      return;
    }
    s := Assign(h, Plug(nw, SystemTypeAttr), StrV(systemType));
    if !s.Done? {
      return;
    }
    s := Add(h, nw, SideDecl);
    if !s.Done? {
      return;
    }
    var i := SideIndex(side);
    if i.None? {
      return Raised(NotASide);
    }
    s := Assign(h, Plug(nw, SideAttr), IntV(i.value));
  }

  method RegisterLegacy(h: Host, metaRoot: Node, smr: Node, nw: Node, node: Node, name: Name) returns (s: Status)
    requires h.Valid()
    modifies h
    ensures h.Valid()
    ensures Step(s, h.State()) == LegacyRegistered(old(h.State()), metaRoot, smr, nw, node, name)
  {
    s := Connect(h, smr, nw, MessageAttr, SystemMetaRootAttr, NoCategory);
    if !s.Done? {
      return;
    }
    s := Connect(h, metaRoot, nw, MessageAttr, MetaRootAttr, NoCategory);
    if !s.Done? {
      return;
    }
    s := Connect(h, nw, smr, MessageAttr, name, MetaConnection);
    if !s.Done? {
      return;
    }
    s := Connect(h, nw, node, MessageAttr, MetaNodeAttr, MetaConnection);
    if !s.Done? {
      return;
    }
    s := Connect(h, node, nw, MessageAttr, RigNodeAttr, MetaConnection);
    if !s.Done? {
      return;
    }
    s := Declare(h, nw, Decl(MetaParent, Message, MetaNode, false));
    if !s.Done? {
      return;
    }
    s := Declare(h, nw, Decl(MetaChildren, Message, MetaNode, true));
    if !s.Done? {
      return;
    }
    s := Declare(h, nw, Decl(MetaTypeAttr, Enum, MetaNode, false));
  }
}
