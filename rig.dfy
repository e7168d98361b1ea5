/** The current schema's MetaRig: a root network node, one network per system
    registered on the root, and rig nodes registered on their system's network. */
module Rig {
  import opened Outcomes
  import opened Scene
  import opened MetaGraph
  import opened MetaLinks
  import opened Commands

  // ---------------------------------------------------------------- names

  const MetaSystem: string := "metaSystem"
  const MetaNode: string := "metaNode"

  const MetaRigAttr: Name := "metaRig"
  const MetaRootAttr: Name := "metaRoot"
  const SystemMetaRootAttr: Name := "systemMetaRoot"
  const SystemNameAttr: Name := "systemName"
  const SystemTypeAttr: Name := "systemType"
  const SideAttr: Name := "side"
  const MetaTypeAttr: Name := "metaType"
  const SnapTargetAttr: Name := "snap_target"

  /** The enum names of the `side` attribute, in index order. */
  const Sides: seq<string> := ["centre", "left", "right"]

  /** ['centre', 'left', 'right'].index(side) */
  function SideIndex(side: string): (r: Option<nat>)
    ensures r.Some? <==> side in Sides
    ensures r.Some? ==> r.value < |Sides| && Sides[r.value] == side
  {
    if side == "centre" then Some(0)
    else if side == "left" then Some(1)
    else if side == "right" then Some(2)
    else None
  }

  // ---------------------------------------------------------------- state

  /** The fields of a MetaRig object: `systems` is None after a build that found
      no metaSystem attribute, as listAttr answers None then. */
  datatype RigState = RigState(name: Name, root: Node, systems: Option<seq<Name>>)

  /** How a MetaRig method ended, the object's fields and the scene afterwards. */
  datatype Outcome = Outcome(status: Status, rig: RigState, doc: Doc)

  // ---------------------------------------------------------------- build

  /** build(fromNode) with no node: a fresh network carrying a metaRig string
      attribute, and an empty list of systems. */
  function RootCreated(rig: RigState, d: Doc): (r: Outcome)
    ensures r.rig.root == FreshName(d.nodes, NodeBase(rig.name)) && r.rig.name == rig.name
  {
    var root := FreshName(d.nodes, NodeBase(rig.name));
    var s := Added(Created(d, root), root, Decl(MetaRigAttr, Text, NoCategory, false));
    Outcome(s.status, rig.(root := root, systems := if s.status.Done? then Some([]) else rig.systems), s.doc)
  }

  /** build(fromNode), with None for listAttr's empty answer replaced by []. */
  function Built(rig: RigState, d: Doc, fromNode: Node): (r: Outcome)
    ensures r.rig.name == rig.name
    ensures fromNode != "" ==> r.doc == d && r.rig.root == fromNode
    ensures fromNode != "" ==> (r.status.Done? <==> fromNode in d.nodes)
    ensures fromNode != "" && r.status.Done? ==> r.rig.systems == Some(ListAttr(d, fromNode, MetaSystem))
  {
    if fromNode == "" then RootCreated(rig, d)
    else if fromNode !in d.nodes then Outcome(Raised(NoSuchNode), rig.(root := fromNode), d)
    else Outcome(Done, rig.(root := fromNode, systems := Some(ListAttr(d, fromNode, MetaSystem))), d)
  }

  /** build(fromNode) as written: a root without systems caches listAttr's None. */
  function BuiltAsWritten(rig: RigState, d: Doc, fromNode: Node): (r: Outcome)
    ensures fromNode != "" && fromNode in d.nodes && ListAttr(d, fromNode, MetaSystem) == [] ==>
      r.rig.systems.None?
    ensures !(fromNode != "" && ListAttr(d, fromNode, MetaSystem) == []) ==> r == Built(rig, d, fromNode)
  {
    var r := Built(rig, d, fromNode);
    if fromNode != "" && r.status.Done? && ListAttr(d, fromNode, MetaSystem) == []
    then r.(rig := r.rig.(systems := None))
    else r
  }

  // ---------------------------------------------------------------- addSystem

  function SystemNodeBase(rigName: Name, name: Name): Name {
    rigName + "_" + name + "_systemMetaRoot"
  }

  /** The two message connections between the rig root and the system network nw. */
  function SystemWired(d: Doc, root: Node, nw: Node, name: Name): (r: Step)
    ensures !r.status.Done? ==> r.status.Raised?
  {
    var s := Connected(d, root, nw, MessageAttr, MetaRootAttr, MetaSystem);
    if !s.status.Done? then s else Connected(s.doc, nw, root, MessageAttr, name, MetaSystem)
  }

  /** systemName and systemType: added as strings, then set. */
  function SystemLabelled(d: Doc, nw: Node, name: Name, systemType: string): (r: Step)
    ensures !r.status.Done? ==> r.status.Raised?
  {
    var s1 := Added(d, nw, Decl(SystemNameAttr, Text, MetaSystem, false));
    if !s1.status.Done? then s1 else
    var s2 := Added(s1.doc, nw, Decl(SystemTypeAttr, Text, MetaSystem, false));
    if !s2.status.Done? then s2 else
    var s3 := Assigned(s2.doc, Plug(nw, SystemNameAttr), StrV(name));
    if !s3.status.Done? then s3 else
    Assigned(s3.doc, Plug(nw, SystemTypeAttr), StrV(systemType))
  }

  /** The side enum set to the side's index, then metaType and the UI attributes. */
  function SystemSided(d: Doc, nw: Node, side: string): (r: Step)
    ensures !r.status.Done? ==> r.status.Raised?
  {
    var s1 := Added(d, nw, Decl(SideAttr, Enum, MetaSystem, false));
    if !s1.status.Done? then s1
    else match SideIndex(side)
      case None => Step(Raised(NotASide), s1.doc)
      case Some(i) =>
        var s2 := Assigned(s1.doc, Plug(nw, SideAttr), IntV(i));
        if !s2.status.Done? then s2 else SystemTyped(s2.doc, nw)
  }

  /** metaType, unless the network has one, then the UI attributes. */
  function SystemTyped(d: Doc, nw: Node): (r: Step)
    ensures !r.status.Done? ==> r.status.Raised?
  {
    var s := Declared(d, nw, Decl(MetaTypeAttr, Enum, MetaNode, false));
    if !s.status.Done? then s else UIDeclared(s.doc, nw)
  }

  const RootLink: Decl := Decl(MetaRootAttr, Message, MetaSystem, false)
  const NameDecl: Decl := Decl(SystemNameAttr, Text, MetaSystem, false)
  const TypeDecl: Decl := Decl(SystemTypeAttr, Text, MetaSystem, false)
  const SideDecl: Decl := Decl(SideAttr, Enum, MetaSystem, false)
  const MetaTypeDecl: Decl := Decl(MetaTypeAttr, Enum, MetaNode, false)

  /** The attributes of a new system network, before its UI attributes. */
  const SystemDecls: seq<Decl> := [MessageDecl, RootLink, NameDecl, TypeDecl, SideDecl, MetaTypeDecl]

  /** How addSystem leaves the scene e it started from as d, apart from the set of
      nodes: root.message feeds nw.metaRoot and nw.message feeds root.<name>; nw holds
      the system's name, type and side index, the system attributes and then only UI
      attributes; root gains the attribute <name> when it had none; nothing else
      changes. */
  ghost predicate SystemShaped(d: Doc, e: Doc, root: Node, nw: Node, name: Name, systemType: string, side: string)
    requires side in Sides
  {
    && e.arrays == d.arrays
    && e.inputs == d.inputs[Plug(nw, MetaRootAttr) := Plug(root, MessageAttr)][Plug(root, name) := Plug(nw, MessageAttr)]
    && e.values == d.values[Plug(nw, SystemNameAttr) := StrV(name)][Plug(nw, SystemTypeAttr) := StrV(systemType)]
                           [Plug(nw, SideAttr) := IntV(SideIndex(side).value)]
    && SystemDecls <= Decls(e, nw)
    && (forall x <- Decls(e, nw)[|SystemDecls|..] :: x.name in UINames && x.category == MetaUI)
    && Decls(e, root) == Decls(d, root) + (if HasAttr(d, root, name) then [] else [Decl(name, Message, MetaSystem, false)])
    && (forall m | m != nw && m != root :: Decls(e, m) == Decls(d, m))
  }

  /** addSystem(systemType, side, name) */
  function SystemAdded(rig: RigState, d: Doc, systemType: string, side: string, name: Name): (r: Outcome)
    ensures r.status.Refused? <==> name == "" || (rig.systems.Some? && name in rig.systems.value)
    ensures r.status.Refused? ==> r.doc == d
    ensures r.status.Done? ==> rig.systems.Some? && r.rig == rig.(systems := Some(rig.systems.value + [name]))
    ensures !r.status.Done? ==> r.rig == rig
  {
    if name == "" then Outcome(Refused(NoSystemName), rig, d)
    else if rig.systems.None? then Outcome(Raised(NoneNotIterable), rig, d)
    else if name in rig.systems.value then Outcome(Refused(SystemExists), rig, d)
    else
      var nw := FreshName(d.nodes, NodeBase(SystemNodeBase(rig.name, name)));
      var s := SystemMade(Created(d, nw), rig.root, nw, name, systemType, side);
      if !s.status.Done? then Outcome(s.status, rig, s.doc)
      else Outcome(Done, rig.(systems := Some(rig.systems.value + [name])), s.doc)
  }

  /** Everything addSystem does to the new network nw once it exists. */
  function SystemMade(d: Doc, root: Node, nw: Node, name: Name, systemType: string, side: string): (r: Step)
    ensures !r.status.Done? ==> r.status.Raised?
  {
    var s1 := SystemWired(d, root, nw, name);
    if !s1.status.Done? then s1 else
    var s2 := SystemLabelled(s1.doc, nw, name, systemType);
    if !s2.status.Done? then s2 else SystemSided(s2.doc, nw, side)
  }

  // ---------------------------------------------------------------- queries

  /** getSystemMetaRoot(system): the first node feeding root.<system>. */
  function SystemMetaRoot(rig: RigState, d: Doc, system: Name): (r: Reply<Node>)
    ensures r.Declined? <==> rig.systems.Some? && system !in rig.systems.value
    ensures r.Declined? ==> r.reason == UnknownSystem
    ensures r.Answer? ==> exists xs :: Listed(d, Plug(rig.root, system)) == Ok(xs) && xs != [] && r.value == xs[0]
  {
    if rig.systems.None? then Threw(NoneNotIterable)
    else if system !in rig.systems.value then Declined(UnknownSystem)
    else match Listed(d, Plug(rig.root, system))
      case Fail(f) => Threw(f)
      case Ok(xs) => if xs == [] then Threw(EmptyListing) else Answer(xs[0])
  }

  /** getMetaRigNodes(): every node connected to root.message, in either direction. */
  function MetaRigNodes(rig: RigState, d: Doc): (r: Result<set<Node>>)
    ensures r.Ok? <==> rig.root in d.nodes
  {
    if rig.root !in d.nodes then Fail(NoSuchNode)
    else
      var p := Plug(rig.root, MessageAttr);
      Ok(Destinations(d, p) + set x <- ListConnections(d, p))
  }

  /** `[listConnections(n.a)[0] for a in attrs]` */
  function FirstSources(d: Doc, n: Node, attrs: seq<Name>): (r: Result<seq<Node>>)
    ensures r.Ok? ==> |r.value| == |attrs|
    ensures r.Ok? ==> forall i | 0 <= i < |attrs| ::
      ListConnections(d, Plug(n, attrs[i])) != [] && r.value[i] == ListConnections(d, Plug(n, attrs[i]))[0]
  {
    if attrs == [] then Ok([])
    else match Listed(d, Plug(n, attrs[0]))
      case Fail(f) => Fail(f)
      case Ok(xs) =>
        if xs == [] then Fail(EmptyListing)
        else match FirstSources(d, n, attrs[1..])
          case Fail(f) => Fail(f)
          case Ok(ys) => Ok([xs[0]] + ys)
  }

  /** The first source of p, when something feeds it. */
  function FirstSource(d: Doc, p: Plug): (r: seq<Node>)
    ensures |r| <= 1
  {
    var xs := ListConnections(d, p);
    if xs == [] then [] else [xs[0]]
  }

  /** The first source of each attribute in attrs that has one, in order. */
  function ConnectedSources(d: Doc, n: Node, attrs: seq<Name>): (r: seq<Node>)
    ensures |r| <= |attrs|
  {
    if attrs == [] then [] else FirstSource(d, Plug(n, attrs[0])) + ConnectedSources(d, n, attrs[1..])
  }

  /** x is listed exactly when it is the first source of one of the attributes. */
  lemma {:induction false} ConnectedSourcesFed(d: Doc, n: Node, attrs: seq<Name>, x: Node)
    ensures x in ConnectedSources(d, n, attrs) <==> exists i | 0 <= i < |attrs| :: x in FirstSource(d, Plug(n, attrs[i]))
    decreases |attrs|
  {
    if attrs != [] {
      var rest := attrs[1..];
      ConnectedSourcesFed(d, n, rest, x);
      if exists i | 0 <= i < |rest| :: x in FirstSource(d, Plug(n, rest[i])) {
        var i :| 0 <= i < |rest| && x in FirstSource(d, Plug(n, rest[i]));
        assert attrs[i + 1] == rest[i];
      }
      if exists i | 0 <= i < |attrs| :: x in FirstSource(d, Plug(n, attrs[i])) {
        var i :| 0 <= i < |attrs| && x in FirstSource(d, Plug(n, attrs[i]));
        if i > 0 {
          assert rest[i - 1] == attrs[i];
        }
      }
    }
  }

  /** getSystemNodes(system) as written: the error string of getSystemMetaRoot and
      listAttr's None both reach a command that raises, and so does an attribute
      of category metaNode that nothing feeds. */
  function SystemNodes(rig: RigState, d: Doc, system: Name): (r: Reply<seq<Node>>)
    ensures !r.Declined?
  {
    match SystemMetaRoot(rig, d, system)
    case Threw(f) => Threw(f)
    case Declined(_) => Threw(NoSuchNode)
    case Answer(smr) =>
      if smr !in d.nodes then Threw(NoSuchNode)
      else
        var attrs := ListAttr(d, smr, MetaNode);
        if attrs == [] then Threw(NoneNotIterable)
        else match FirstSources(d, smr, attrs)
          case Fail(f) => Threw(f)
          case Ok(ns) => Answer(ns)
  }

  /** getSystemNodes(system) with no metaNode attribute read as none, and an
      attribute that nothing feeds skipped. */
  function SystemNodesFixed(rig: RigState, d: Doc, system: Name): Reply<seq<Node>> {
    match SystemMetaRoot(rig, d, system)
    case Threw(f) => Threw(f)
    case Declined(_) => Threw(NoSuchNode)
    case Answer(smr) =>
      if smr !in d.nodes then Threw(NoSuchNode)
      else Answer(ConnectedSources(d, smr, ListAttr(d, smr, MetaNode)))
  }

  /** getSystemNodes(system) of the value getAttr gave for systemName: a number is
      no system's name, so the error string reaches listAttr. */
  function SystemNodesOf(rig: RigState, d: Doc, system: Value): (r: Reply<seq<Node>>)
    ensures !r.Declined?
  {
    match system
    case StrV(s) => SystemNodes(rig, d, s)
    case IntV(_) => if rig.systems.None? then Threw(NoneNotIterable) else Threw(NoSuchNode)
  }

  /** The system network a rig node is registered with: listConnections(n.systemMetaRoot)[0]. */
  function SystemNetwork(d: Doc, n: Node): (r: Result<Node>)
    ensures r.Ok? <==> HasAttr(d, n, SystemMetaRootAttr) && ListConnections(d, Plug(n, SystemMetaRootAttr)) != []
    ensures r.Ok? ==> r.value == ListConnections(d, Plug(n, SystemMetaRootAttr))[0]
  {
    match Listed(d, Plug(n, SystemMetaRootAttr))
    case Fail(f) => Fail(f)
    case Ok(xs) => if xs == [] then Fail(EmptyListing) else Ok(xs[0])
  }

  /** getSystem(rigNode): the systemName of the node's system network. */
  function SystemOf(d: Doc, n: Node): Result<Value> {
    match SystemNetwork(d, n)
    case Fail(f) => Fail(f)
    case Ok(smr) => GetAttr(d, Plug(smr, SystemNameAttr))
  }

  /** getSide(rigNode) */
  function SideOf(d: Doc, n: Node): Result<Value> {
    if n !in d.nodes then Fail(NoSuchNode)
    else if HasAttr(d, n, SystemTypeAttr) then GetAttr(d, Plug(n, SideAttr))
    else if HasAttr(d, n, SystemMetaRootAttr) then
      match SystemNetwork(d, n)
      case Fail(f) => Fail(f)
      case Ok(smr) => GetAttr(d, Plug(smr, SideAttr))
    else Ok(IntV(0))
  }

  /** getMetaType(rigNode) */
  function MetaTypeOf(d: Doc, n: Node): Result<Value> {
    if n !in d.nodes then Fail(NoSuchNode)
    else if HasAttr(d, n, SystemTypeAttr) then Ok(IntV(0))
    else GetAttr(d, Plug(n, MetaTypeAttr))
  }

  /** getSnapNode(rigNode): the nodes connected to snap_target; [] stands for the
      None of a node without one and of an unconnected one. */
  function SnapNode(d: Doc, n: Node): Result<seq<Node>> {
    if n !in d.nodes then Fail(NoSuchNode)
    else if HasAttr(d, n, SnapTargetAttr) then Ok(ListConnections(d, Plug(n, SnapTargetAttr)))
    else Ok([])
  }

  // ---------------------------------------------------------------- addRigNode

  /** The connections and attributes addRigNode gives a node that passed validation. */
  function Registered(d: Doc, root: Node, smr: Node, node: Node, name: Name): (r: Step)
    ensures !r.status.Done? ==> r.status.Raised?
  {
    var s := RigNodeLinked(d, root, smr, node, name);
    if !s.status.Done? then s else RigNodeTagged(s.doc, node)
  }

  /** The three message connections: smr.message to node.systemMetaRoot, root.message
      to node.metaRoot, and node.message to smr.<name> (skipped when name is None,
      messageConnect then returning its error string). */
  function RigNodeLinked(d: Doc, root: Node, smr: Node, node: Node, name: Name): (r: Step)
    ensures !r.status.Done? ==> r.status.Raised?
  {
    var s1 := Connected(d, smr, node, MessageAttr, SystemMetaRootAttr, NoCategory);
    if !s1.status.Done? then s1 else
    var s2 := Connected(s1.doc, root, node, MessageAttr, MetaRootAttr, NoCategory);
    if !s2.status.Done? then s2 else
    Connected(s2.doc, node, smr, MessageAttr, name, MetaNode)
  }

  /** metaParent, metaChildren (multi) and metaType where absent, then the UI attributes. */
  function RigNodeTagged(d: Doc, node: Node): (r: Step)
    ensures !r.status.Done? ==> r.status.Raised?
  {
    var s4 := Declared(d, node, Decl(MetaParent, Message, MetaNode, false));
    if !s4.status.Done? then s4 else
    var s5 := Declared(s4.doc, node, Decl(MetaChildren, Message, MetaNode, true));
    if !s5.status.Done? then s5 else
    var s6 := Declared(s5.doc, node, Decl(MetaTypeAttr, Enum, MetaNode, false));
    if !s6.status.Done? then s6 else UIDeclared(s6.doc, node)
  }

  /** addRigNode(node, system, name): validation first, then the registration. */
  function RigNodeAdded(rig: RigState, d: Doc, node: Node, system: Name, name: Name): (r: Step)
    ensures r.status.Refused? ==> r.doc == d
    ensures r.status.Refused? ==> r.status.reason in {NoNodes, UnknownSystem, RigNodeExists, AlreadyInRig}
  {
    if node == "" then Step(Refused(NoNodes), d)
    else if rig.systems.None? then Step(Raised(NoneNotIterable), d)
    else if system !in rig.systems.value then Step(Refused(UnknownSystem), d)
    else match SystemMetaRoot(rig, d, system)
      case Threw(f) => Step(Raised(f), d)
      case Declined(_) => Step(Raised(NoSuchNode), d)
      case Answer(smr) =>
        if smr !in d.nodes then Step(Raised(NoSuchNode), d)
        else if name in ListAttr(d, smr, MetaNode) then Step(Refused(RigNodeExists), d)
        else match MetaRigNodes(rig, d)
          case Fail(f) => Step(Raised(f), d)
          case Ok(rigNodes) =>
            if node in rigNodes then Step(Refused(AlreadyInRig), d)
            else Registered(d, rig.root, smr, node, name)
  }

  // ---------------------------------------------------------------- the object

  class MetaRig {
    const host: Host
    var name: Name
    var root: Node
    var systems: Option<seq<Name>>

    function Model(): RigState
      reads this
    {
      RigState(name, root, systems)
    }

    ghost predicate Valid()
      reads this, host
    {
      host.Valid()
    }

    /** The fields __init__ sets before it calls build. */
    constructor (h: Host, name: Name)
      requires h.Valid()
      ensures host == h && Valid()
      ensures Model() == RigState(name, "", None)
    {
      host := h;
      this.name := name;
      root := "";
      systems := None;
    }

    method Build(fromNode: Node) returns (s: Status)
      requires Valid()
      modifies this, host
      ensures Valid()
      ensures Outcome(s, Model(), host.State()) == BuiltAsWritten(old(Model()), old(host.State()), fromNode)
    {
      if fromNode != "" {
        root := fromNode;
        if fromNode !in host.nodes {
          return Raised(NoSuchNode);
        }
        var listed := ListAttr(host.State(), fromNode, MetaSystem);
        systems := if listed == [] then None else Some(listed);
        return Done;
      }
      ghost var d0 := host.State();
      var n := host.CreateNode(name);
      root := n;
      s := Add(host, n, Decl(MetaRigAttr, Text, NoCategory, false));
      if s.Done? {
        systems := Some([]);
      }
    }

    method AddSystem(systemType: string, side: string, name: Name) returns (s: Status)
      requires Valid()
      modifies this, host
      ensures Valid()
      ensures Outcome(s, Model(), host.State()) == SystemAdded(old(Model()), old(host.State()), systemType, side, name)
    {
      if name == "" {
        return Refused(NoSystemName);
      }
      if systems.None? {
        return Raised(NoneNotIterable);
      }
      if name in systems.value {
        return Refused(SystemExists);
      }
      var nw := host.CreateNode(SystemNodeBase(this.name, name));
      s := MakeSystem(host, root, nw, name, systemType, side);
      if s.Done? {
        systems := Some(systems.value + [name]);
      }
    }

    method AddRigNode(node: Node, system: Name, name: Name) returns (s: Status)
      requires Valid()
      modifies host
      ensures Valid()
      ensures Step(s, host.State()) == RigNodeAdded(Model(), old(host.State()), node, system, name)
    {
      if node == "" {
        return Refused(NoNodes);
      }
      if systems.None? {
        return Raised(NoneNotIterable);
      }
      if system !in systems.value {
        return Refused(UnknownSystem);
      }
      var smr := SystemMetaRoot(Model(), host.State(), system);
      if smr.Threw? {
        return Raised(smr.fault);
      }
      if smr.Declined? {
        return Raised(NoSuchNode);
      }
      if smr.value !in host.nodes {
        return Raised(NoSuchNode);
      }
      if name in ListAttr(host.State(), smr.value, MetaNode) {
        return Refused(RigNodeExists);
      }
      var rigNodes := MetaRigNodes(Model(), host.State());
      if rigNodes.Fail? {
        return Raised(rigNodes.fault);
      }
      if node in rigNodes.value {
        return Refused(AlreadyInRig);
      }
      s := Register(host, root, smr.value, node, name);
    }
  }

  method MakeSystem(h: Host, root: Node, nw: Node, name: Name, systemType: string, side: string) returns (s: Status)
    requires h.Valid()
    modifies h
    ensures h.Valid()
    ensures Step(s, h.State()) == SystemMade(old(h.State()), root, nw, name, systemType, side)
  {
    s := WireSystem(h, root, nw, name);
    if !s.Done? {
      return;
    }
    s := LabelSystem(h, nw, name, systemType);
    if !s.Done? {
      return;
    }
    s := SideSystem(h, nw, side);
  }

  method WireSystem(h: Host, root: Node, nw: Node, name: Name) returns (s: Status)
    requires h.Valid()
    modifies h
    ensures h.Valid()
    ensures Step(s, h.State()) == SystemWired(old(h.State()), root, nw, name)
  {
    s := Connect(h, root, nw, MessageAttr, MetaRootAttr, MetaSystem);
    if !s.Done? {
      return;
    }
    s := Connect(h, nw, root, MessageAttr, name, MetaSystem);
  }

  method LabelSystem(h: Host, nw: Node, name: Name, systemType: string) returns (s: Status)
    requires h.Valid()
    modifies h
    ensures h.Valid()
    ensures Step(s, h.State()) == SystemLabelled(old(h.State()), nw, name, systemType)
  {
    s := Add(h, nw, Decl(SystemNameAttr, Text, MetaSystem, false));
    if !s.Done? {
      return;
    }
    s := Add(h, nw, Decl(SystemTypeAttr, Text, MetaSystem, false));
    if !s.Done? {
      return;
    }
    s := Assign(h, Plug(nw, SystemNameAttr), StrV(name));
    if !s.Done? {
      return;
    }
    s := Assign(h, Plug(nw, SystemTypeAttr), StrV(systemType));
  }

  method SideSystem(h: Host, nw: Node, side: string) returns (s: Status)
    requires h.Valid()
    modifies h
    ensures h.Valid()
    ensures Step(s, h.State()) == SystemSided(old(h.State()), nw, side)
  {
    s := Add(h, nw, Decl(SideAttr, Enum, MetaSystem, false));
    if !s.Done? {
      return;
    }
    var i := SideIndex(side);
    if i.None? {
      return Raised(NotASide);
    }
    s := Assign(h, Plug(nw, SideAttr), IntV(i.value));
    if !s.Done? {
      return;
    }
    s := TypeSystem(h, nw);
  }

  method TypeSystem(h: Host, nw: Node) returns (s: Status)
    requires h.Valid()
    modifies h
    ensures h.Valid()
    ensures Step(s, h.State()) == SystemTyped(old(h.State()), nw)
  {
    s := Declare(h, nw, Decl(MetaTypeAttr, Enum, MetaNode, false));
    if !s.Done? {
      return;
    }
    s := AddUIAttrs(h, nw);
  }

  method Register(h: Host, root: Node, smr: Node, node: Node, name: Name) returns (s: Status)
    requires h.Valid()
    modifies h
    ensures h.Valid()
    ensures Step(s, h.State()) == Registered(old(h.State()), root, smr, node, name)
  {
    s := LinkRigNode(h, root, smr, node, name);
    if !s.Done? {
      return;
    }
    s := TagRigNode(h, node);
  }

  method LinkRigNode(h: Host, root: Node, smr: Node, node: Node, name: Name) returns (s: Status)
    requires h.Valid()
    modifies h
    ensures h.Valid()
    ensures Step(s, h.State()) == RigNodeLinked(old(h.State()), root, smr, node, name)
  {
    s := Connect(h, smr, node, MessageAttr, SystemMetaRootAttr, NoCategory);
    if !s.Done? {
      return;
    }
    s := Connect(h, root, node, MessageAttr, MetaRootAttr, NoCategory);
    if !s.Done? {
      return;
    }
    s := Connect(h, node, smr, MessageAttr, name, MetaNode);
  }

  method TagRigNode(h: Host, node: Node) returns (s: Status)
    requires h.Valid()
    modifies h
    ensures h.Valid()
    ensures Step(s, h.State()) == RigNodeTagged(old(h.State()), node)
  {
    s := Declare(h, node, Decl(MetaParent, Message, MetaNode, false));
    if !s.Done? {
      return;
    }
    s := Declare(h, node, Decl(MetaChildren, Message, MetaNode, true));
    if !s.Done? {
      return;
    }
    s := Declare(h, node, Decl(MetaTypeAttr, Enum, MetaNode, false));
    if !s.Done? {
      return;
    }
    s := AddUIAttrs(h, node);
  }
}
