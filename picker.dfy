/** The picker's logic once its widgets are set aside: the colour of a rig node's
    button, the nodes the snap action aligns, and what a button click selects. */
module Picker {
  import opened Outcomes
  import opened Scene
  import opened MetaGraph
  import opened MetaLinks
  import opened Rig
  import opened RigLaws
  import opened RigNodeLaws
  import opened RigFindings
  import opened Commands

  // ---------------------------------------------------------------- button colour

  /** colourList: one RGB triple per side index. */
  const ColourList: seq<seq<int>> := [[0, 255, 0], [0, 0, 255], [255, 0, 0]]

  /** Python's s[i]: negative indices count from the end, anything else raises. */
  function Item<T>(s: seq<T>, i: int): (r: Result<T>)
    ensures r.Ok? <==> -|s| <= i < |s|
    ensures r.Ok? ==> r.value == s[i % |s|]
    ensures r.Fail? ==> r.fault == OutOfRange
  {
    if 0 <= i < |s| then Ok(s[i])
    else if -|s| <= i < 0 then Ok(s[|s| + i])
    else Fail(OutOfRange)
  }

  /** colourList[side] for the value getSide answered. */
  function ButtonColour(side: Value): (r: Result<seq<int>>)
    ensures r.Ok? <==> side.IntV? && -3 <= side.i < 3
    ensures r.Ok? ==> |r.value| == 3 && forall c <- r.value :: 0 <= c <= 255
    ensures side.StrV? ==> r == Fail(NotAnIndex)
  {
    match side
    case IntV(i) => Item(ColourList, i)
    case StrV(_) => Fail(NotAnIndex)
  }

  /** The colour the comment beside colourList gives each side name. */
  function SideColour(side: string): seq<int> {
    if side == "right" then [255, 0, 0]
    else if side == "left" then [0, 0, 255]
    else [0, 255, 0]
  }

  /** The stored side index of every side addSystem accepts picks that side's colour. */
  lemma ColourOfSide(side: string)
    requires side in Sides
    ensures ButtonColour(IntV(SideIndex(side).value)) == Ok(SideColour(side))
  {
  }

  /** The colour part of getButtonData(rigNode). */
  function ButtonColourOf(d: Doc, n: Node): (r: Result<seq<int>>)
    ensures SideOf(d, n).Fail? ==> r == Fail(SideOf(d, n).fault)
    ensures SideOf(d, n).Ok? ==> r == ButtonColour(SideOf(d, n).value)
  {
    match SideOf(d, n)
    case Fail(f) => Fail(f)
    case Ok(v) => ButtonColour(v)
  }

  /** A node of the scene that is neither a system network nor registered with one
      is drawn in the centre colour. */
  lemma UnregisteredColour(d: Doc, n: Node)
    requires n in d.nodes && !HasAttr(d, n, SystemTypeAttr) && !HasAttr(d, n, SystemMetaRootAttr)
    ensures ButtonColourOf(d, n) == Ok(SideColour("centre"))
  {
  }

  /** After addSystem with a side, the system network's button and the button of a
      rig node then registered into that system are both drawn in that side's colour. */
  lemma RegisteredColour(rig: RigState, d: Doc, e: Doc, nw: Node, name: Name, systemType: string, side: string, node: Node, nodeName: Name)
    requires AfterSystem(rig, d, e, nw, name, systemType, side)
    requires Carries(d, node) && node != rig.root && UIReady(d, node) && !HasAttr(d, node, SystemTypeAttr)
    requires Receives(d, node, SystemMetaRootAttr) && Receives(d, node, MetaRootAttr)
    requires node !in MetaRigNodes(rig, d).value && FreeOnNetwork(nodeName)
    ensures ButtonColourOf(e, nw) == Ok(SideColour(side))
    ensures ButtonColourOf(RigNodeAdded(rig, e, node, name, nodeName).doc, node) == Ok(SideColour(side))
  {
    ShapedQueries(rig, d, e, nw, name, systemType, side);
    ColourOfSide(side);
    assert HasAttr(e, nw, SystemTypeAttr);
    CarriedAfterSystem(rig, d, e, nw, name, systemType, side, node);
    RegisteredAfterSystem(rig, d, e, nw, name, systemType, side, node, nodeName);
    var f := RigNodeAdded(rig, e, node, name, nodeName).doc;
    RegisteredSide(e, f, rig.root, nw, node, nodeName);
  }

  // ---------------------------------------------------------------- snap

  /** One align(node, target) call of the snap action. */
  datatype Alignment = Alignment(node: Node, targets: seq<Node>)

  /** The align calls the loop of snap has made, and the exception that ended it early. */
  datatype SnapRun = SnapRun(aligned: seq<Alignment>, fault: Option<Fault>)

  /** One turn of the loop: a node whose metaType equals the clicked node's is
      aligned to its snap targets, when it has any. */
  function SnapStep(d: Doc, aligned: seq<Alignment>, n: Node, direction: Value): (r: SnapRun)
    ensures r.aligned == aligned || (SnapNode(d, n).Ok? && r.aligned == aligned + [Alignment(n, SnapNode(d, n).value)])
    ensures r.fault.None? <==> MetaTypeOf(d, n).Ok?
  {
    match MetaTypeOf(d, n)
    case Fail(f) => SnapRun(aligned, Some(f))
    case Ok(t) =>
      var snap := SnapNode(d, n);
      if t == direction && snap.Ok? && snap.value != [] then SnapRun(aligned + [Alignment(n, snap.value)], None)
      else SnapRun(aligned, None)
  }

  /** The loop of snap over nodes, stopping at the first node it cannot read. */
  function SnapsOf(d: Doc, nodes: seq<Node>, direction: Value): SnapRun
    decreases |nodes|
  {
    if nodes == [] then SnapRun([], None)
    else
      var run := SnapsOf(d, nodes[..|nodes| - 1], direction);
      if run.fault.Some? then run else SnapStep(d, run.aligned, nodes[|nodes| - 1], direction)
  }

  /** The node a snap would align a node to. */
  ghost predicate Snaps(d: Doc, n: Node, direction: Value) {
    MetaTypeOf(d, n) == Ok(direction) && SnapNode(d, n).Ok? && SnapNode(d, n).value != []
  }

  /** Each align call is for a listed node of the clicked node's metaType, aimed at
      that node's snap targets. */
  lemma {:induction false} SnapsAligned(d: Doc, nodes: seq<Node>, direction: Value)
    ensures forall a <- SnapsOf(d, nodes, direction).aligned ::
      a.node in nodes && Snaps(d, a.node, direction) && a.targets == SnapNode(d, a.node).value
    decreases |nodes|
  {
    if nodes != [] {
      var init := nodes[..|nodes| - 1];
      SnapsAligned(d, init, direction);
      assert forall x <- init :: x in nodes;
    }
  }

  /** The loop gets through exactly when getMetaType answers for every listed node,
      and then it aligns every node of the clicked node's metaType that has a snap
      target. */
  lemma {:induction false} SnapsComplete(d: Doc, nodes: seq<Node>, direction: Value)
    ensures SnapsOf(d, nodes, direction).fault.None? <==> forall n <- nodes :: MetaTypeOf(d, n).Ok?
    ensures SnapsOf(d, nodes, direction).fault.None? ==>
      forall n <- nodes :: Snaps(d, n, direction) ==> Alignment(n, SnapNode(d, n).value) in SnapsOf(d, nodes, direction).aligned
    decreases |nodes|
  {
    if nodes != [] {
      var init := nodes[..|nodes| - 1];
      var last := nodes[|nodes| - 1];
      assert nodes == init + [last];
      SnapsComplete(d, init, direction);
      var run := SnapsOf(d, init, direction);
      if run.fault.None? {
        assert SnapsOf(d, nodes, direction) == SnapStep(d, run.aligned, last, direction);
      } else {
        var n :| n in init && !MetaTypeOf(d, n).Ok?;
        assert n in nodes;
      }
    }
  }

  /** The loop of snap(): `for node in systemNodes: if getMetaType(node) == snapDirection: ...`. */
  method SnapFilter(d: Doc, nodes: seq<Node>, direction: Value) returns (run: SnapRun)
    ensures run == SnapsOf(d, nodes, direction)
  {
    var aligned: seq<Alignment> := [];
    var i := 0;
    while i < |nodes|
      invariant 0 <= i <= |nodes|
      invariant SnapsOf(d, nodes[..i], direction) == SnapRun(aligned, None)
    {
      assert nodes[..i + 1][..i] == nodes[..i];
      match MetaTypeOf(d, nodes[i]) {
        case Fail(f) =>
          run := SnapRun(aligned, Some(f));
          assert run == SnapsOf(d, nodes[..i + 1], direction);
          SnapStopped(d, nodes, i + 1, direction);
          return;
        case Ok(t) =>
          if t == direction {
            var snap := SnapNode(d, nodes[i]);
            if snap.Ok? && snap.value != [] {
              aligned := aligned + [Alignment(nodes[i], snap.value)];
            }
          }
      }
      i := i + 1;
    }
    assert nodes[..i] == nodes;
    run := SnapRun(aligned, None);
  }

  /** Once the loop has stopped, the nodes after the one it stopped at change nothing. */
  lemma {:induction false} SnapStopped(d: Doc, nodes: seq<Node>, i: nat, direction: Value)
    requires i <= |nodes| && SnapsOf(d, nodes[..i], direction).fault.Some?
    ensures SnapsOf(d, nodes, direction) == SnapsOf(d, nodes[..i], direction)
    decreases |nodes| - i
  {
    if i < |nodes| {
      assert nodes[..i + 1][..i] == nodes[..i];
      SnapStopped(d, nodes, i + 1, direction);
    } else {
      assert nodes[..i] == nodes;
    }
  }

  /** snap() on the button of rigNode: the system's nodes, then the loop. */
  function SnapOutcome(rig: RigState, d: Doc, rigNode: Node): (r: SnapRun)
    ensures r.fault.None? ==> SystemOf(d, rigNode).Ok? && MetaTypeOf(d, rigNode).Ok?
    ensures r.fault.None? ==> SystemNodesOf(rig, d, SystemOf(d, rigNode).value).Answer?
    ensures SystemOf(d, rigNode).Ok? && SystemNodesOf(rig, d, SystemOf(d, rigNode).value).Threw? ==>
      r == SnapRun([], Some(SystemNodesOf(rig, d, SystemOf(d, rigNode).value).fault))
  {
    match SystemOf(d, rigNode)
    case Fail(f) => SnapRun([], Some(f))
    case Ok(system) =>
      match SystemNodesOf(rig, d, system)
      case Threw(f) => SnapRun([], Some(f))
      case Answer(nodes) =>
        match MetaTypeOf(d, rigNode)
        case Fail(f) => SnapRun([], Some(f))
        case Ok(direction) => SnapsOf(d, nodes, direction)
  }

  /** snap() */
  method Snap(rig: RigState, d: Doc, rigNode: Node) returns (run: SnapRun)
    ensures run == SnapOutcome(rig, d, rigNode)
  {
    var system := SystemOf(d, rigNode);
    if system.Fail? {
      return SnapRun([], Some(system.fault));
    }
    var nodes := SystemNodesOf(rig, d, system.value);
    if nodes.Threw? {
      return SnapRun([], Some(nodes.fault));
    }
    var direction := MetaTypeOf(d, rigNode);
    if direction.Fail? {
      return SnapRun([], Some(direction.fault));
    }
    run := SnapFilter(d, nodes.value, direction.value);
  }

  // ---------------------------------------------------------------- button selection

  /** The keyboard modifiers held during a click. */
  datatype Key = ShiftKey | AltKey | ControlKey | MetaKey

  /** list.remove(x): the list without its first occurrence of x. */
  function RemoveFirst(s: seq<Node>, x: Node): (r: seq<Node>)
    requires x in s
    ensures |r| == |s| - 1
    ensures multiset(r) == multiset(s) - multiset{x}
  {
    assert s == [s[0]] + s[1..];
    if s[0] == x then s[1..] else [s[0]] + RemoveFirst(s[1..], x)
  }

  /** Shift+click: the clicked node joins the selection, or leaves it when it was selected. */
  function Toggled(selection: seq<Node>, x: Node): seq<Node> {
    if x !in selection then selection + [x] else RemoveFirst(selection, x)
  }

  /** On a selection listing each node once, Shift+click flips the membership of
      the clicked node, keeps every other node, and keeps each node listed once. */
  lemma ToggledMembers(selection: seq<Node>, x: Node)
    requires Distinct(selection)
    ensures forall y :: y in Toggled(selection, x) <==> (if y == x then x !in selection else y in selection)
    ensures Distinct(Toggled(selection, x))
  {
    if x in selection {
      RemovedMembers(selection, x);
    } else {
      var t := selection + [x];
      forall i, j | 0 <= i < j < |t| ensures t[i] != t[j] {
        assert t[i] == selection[i];
        if j < |selection| {
          assert t[j] == selection[j];
        }
      }
    }
  }

  /** list.remove on a list of distinct items drops exactly that item. */
  lemma {:induction false} RemovedMembers(s: seq<Node>, x: Node)
    requires Distinct(s) && x in s
    ensures forall y :: y in RemoveFirst(s, x) <==> y in s && y != x
    ensures Distinct(RemoveFirst(s, x))
  {
    DistinctTail(s);
    if s[0] != x {
      RemovedMembers(s[1..], x);
      DistinctCons(s[0], RemoveFirst(s[1..], x));
    }
  }

  /** Two Shift+clicks on a node that was not selected give back the selection. */
  lemma ToggledTwice(selection: seq<Node>, x: Node)
    requires x !in selection
    ensures Toggled(Toggled(selection, x), x) == selection
  {
    RemoveLast(selection, x);
  }

  /** Removing the first occurrence of an item appended to a list without it. */
  lemma {:induction false} RemoveLast(s: seq<Node>, x: Node)
    requires x !in s
    ensures RemoveFirst(s + [x], x) == s
  {
    if s != [] {
      assert (s + [x])[1..] == s[1..] + [x];
      RemoveLast(s[1..], x);
    }
  }

  /** buttonSelect(): the list handed to cmds.select, for the current selection,
      the modifiers held and the node named by the clicked button. */
  ghost function Selection(rig: RigState, d: Doc, selection: seq<Node>, modifiers: set<Key>, tip: Node): Reply<seq<Node>>
    requires modifiers == {AltKey} ==> Acyclic(d)
  {
    if modifiers == {ShiftKey} then Answer(Toggled(selection, tip))
    else if modifiers == {AltKey} then
      match MetaDescendants(d, tip)
      case Answer(xs) => Answer([tip] + xs)
      // a None tip: [None] plus the error string of getAllMetaChildren
      case Declined(_) => Threw(NotAList)
      case Threw(f) => Threw(f)
    else if modifiers == {ControlKey} then
      match SystemOf(d, tip)
      case Fail(f) => Threw(f)
      case Ok(system) => SystemNodesOf(rig, d, system)
    else Answer([tip])
  }

  /** buttonSelect() */
  method ButtonSelect(rig: RigState, d: Doc, selection: seq<Node>, modifiers: set<Key>, tip: Node) returns (r: Reply<seq<Node>>)
    requires modifiers == {AltKey} ==> Acyclic(d)
    ensures r == Selection(rig, d, selection, modifiers, tip)
  {
    var selNodes: seq<Node> := [];
    if modifiers == {ShiftKey} {
      selNodes := selection;
      if tip !in selNodes {
        selNodes := selNodes + [tip];
      } else {
        selNodes := RemoveFirst(selNodes, tip);
      }
      assert Answer(selNodes) == Selection(rig, d, selection, modifiers, tip);
    } else if modifiers == {AltKey} {
      var xs := GetAllMetaChildren(d, tip);
      match xs {
        case Answer(children) =>
          selNodes := [tip] + children;
          assert Answer(selNodes) == Selection(rig, d, selection, modifiers, tip);
        case Declined(_) => return Threw(NotAList);  // a None tip
        case Threw(f) => return Threw(f);
      }
    } else if modifiers == {ControlKey} {
      var system := SystemOf(d, tip);
      if system.Fail? {
        return Threw(system.fault);
      }
      return SystemNodesOf(rig, d, system.value);
    } else {
      selNodes := selNodes + [tip];
      assert selNodes == [tip];
      assert modifiers != {ShiftKey} && modifiers != {AltKey} && modifiers != {ControlKey};
      assert Selection(rig, d, selection, modifiers, tip) == Answer([tip]);
    }
    r := Answer(selNodes);
  }

  /** Alt+click selects the clicked node followed by its descendants in post-order,
      the node itself once; on a forest every node is selected once. */
  lemma AltSelection(rig: RigState, d: Doc, selection: seq<Node>, tip: Node)
    requires Acyclic(d) && tip != "" && Traversable(d, SomeRank(d), tip)
    ensures var r := Selection(rig, d, selection, {AltKey}, tip);
      && r.Answer? && r.value[0] == tip && r.value[1..] == AllMetaChildren(d, tip)
      && tip !in r.value[1..]
      && (SingleParent(d) ==> Distinct(r.value))
  {
    var rank := SomeRank(d);
    DescendantsExcludeStart(d, rank, tip);
    var xs := AllMetaChildren(d, tip);
    assert Selection(rig, d, selection, {AltKey}, tip) == Answer([tip] + xs);
    assert ([tip] + xs)[1..] == xs;
    if SingleParent(d) {
      DescendantsDistinct(d, rank, tip);
      DistinctCons(tip, xs);
    }
  }

  /** Shift+click toggles, Ctrl+click selects the clicked node's system, and a plain
      click, or any other combination of modifiers, selects the clicked node alone. */
  lemma OtherSelections(rig: RigState, d: Doc, selection: seq<Node>, modifiers: set<Key>, tip: Node)
    requires modifiers != {AltKey}
    ensures var r := Selection(rig, d, selection, modifiers, tip);
      && (modifiers == {ShiftKey} ==> r == Answer(Toggled(selection, tip)))
      && (modifiers == {ControlKey} && SystemOf(d, tip).Ok? ==> r == SystemNodesOf(rig, d, SystemOf(d, tip).value))
      && (modifiers == {ControlKey} && SystemOf(d, tip).Fail? ==> r == Threw(SystemOf(d, tip).fault))
      && (modifiers != {ShiftKey} && modifiers != {ControlKey} ==> r == Answer([tip]))
  {
  }
}
