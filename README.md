# MetaRig composition graph, modelled in Dafny

The rooftops rigging tools record a character rig's logical structure in the Maya
scene itself, as attributes and message connections on ordinary nodes. This
structure is the MetaRig. A rig has a root network node and one network node per
system (`left_arm`, `spine`, ...). Each rig node is registered with its system.
`metaParent` / `metaChildren` edges join rig nodes into a hierarchy. The `side`
and `metaType` enums drive the picker's button colours and its snapping.

Two schemas are modelled:

- `core/metadata.py`, the current schema. The root is a network node. Rig nodes are
  wired directly to their system's network.
- `core/metadata_old.py`, the older schema. A scene node is the root, and a
  `metaRoot` network is linked to it both ways. Every rig node gets a network of its
  own that stands between the scene node and its system. `parentConnect` works on
  those networks (the indirection goes through `getMetaNode`).

## How the scene is modelled

Module `Scene` models the host scene as a value, `Doc`:

- `nodes` is the set of node names;
- `attrs` gives each node its ordered attribute declarations (name, kind, category,
  multi);
- `values` holds the values stored with `setAttr`;
- `inputs` maps each single destination plug to its one source plug;
- `arrays` gives each multi plug, such as `metaChildren`, as a sparse sequence of
  optional sources, in element order.

The class `Scene.Host` holds the same fields. Its methods are the Maya primitives
the core calls: `createNode`, `addAttr`, `setAttr`, `connectAttr -f`, connecting and
disconnecting one element of an array. Each method's contract states the new state
as a function of the old one.

The queries are functions on `Doc`:

- `attributeQuery(exists)` is `HasAttr`;
- `listAttr(category=)` is `ListAttr`, where `[]` stands for the `None` Maya returns;
- `listConnections` on a destination plug is `ListConnections`: the single input,
  then the array's elements in index order;
- `getAttr` is `GetAttr`.

How each Python function ends is modelled in module `Outcomes`:

- an error string returned to the caller is `Refused(reason)`;
- an exception raised by Maya or Python is `Raised(fault)`, for example a missing
  node, a `[0]` of `None`, `list.index` of a missing item, or `in` over `None`;
- a query's answer, error string or exception is a `Reply`.

The empty string `""` stands for Python's `None` and for an empty argument. Where
the code formats `None` into a plug name, the name is `"None"` (`MetaLinks.Shown`).
The user's selection `cmds.ls(sl=1)` is taken to be empty.

Each mutating operation is two things. A function
(`MessageConnected`, `ParentConnectedAsWritten`, `SystemAdded`, `RigNodeAdded`, ...)
computes the resulting `Step` or `Outcome` from the old scene, as the code is
written. A method on the `Host` (and, for the MetaRig objects, on the classes
`Rig.MetaRig` and `LegacyRig.LegacyMetaRig`, whose `systems` field is the Python list
appended in place) performs the code's calls one at a time, and is proved to end in
exactly that state. Where the code has a bug (the table under "Findings"), a second,
corrected function stands beside the one named `...AsWritten`, and lemmas relate the
two. The lemma modules (`RigLaws`, `RigNodeLaws`, `RigFindings`, `LegacyLaws`,
`Findings`) prove what the functions promise.

Traversal of `metaChildren` terminates only on an acyclic graph. `MetaGraph.Acyclic`
says a rank exists that strictly decreases along every edge. The recursive
traversal is defined under such a rank, and the operations that traverse require
`Acyclic`. That premise is about the whole scene: where any cycle exists, even
one far from the nodes involved, nothing is stated about `getAllMetaChildren`,
`parentConnect` (either schema) or the picker's Alt+click.

Maya's `connectAttr` refuses to feed an attribute of another type from a message
plug. `MetaLinks.Receives` says a destination is absent (messageConnect will create
it as a message attribute) or already a message attribute. The lemmas about a
messageConnect, addSystem or addRigNode that completes take that as a premise for
each destination. The raise in the other case is stated by
`MetaLinks.MessageConnected`, `RigLaws.SystemAddedNotMessage` and
`RigNodeLaws.RigNodeAddedNotMessage`.

## Where the code and its description disagree

The model follows the code in every case below.

- In the old schema, `build` on a fresh root does not register the root as rig
  node `'root'`. Line 207 feeds `root.metaNode` from `metaRoot.message`, so the root
  is already among `getMetaRigNodes()`, and `addRigNode` at line 210 returns
  "already connected" (`LegacyLaws.RootAdmissionDeclined`). So line 280 never
  overwrites `root.metaNode` during `build`. What is overwritten is `metaRoot.root`.
  The system named `'root'` connects its network into the metaRoot's existing
  attribute `root` (line 223), which replaces the link from the root made at line
  206 (`LegacyLaws.LegacyCreatedEffect`).
- For the same reason, the old `build` never lists `'root'` as a system on reload:
  the attribute `root` keeps its `metaConnection` category (`LegacyLaws.ReloadAsWritten`).
- `getSystemNodes` (current schema) fails on every system that `addSystem` made,
  before and after rig nodes are added (`RigFindings.SystemNodesAsWritten`). The
  picker's Ctrl+click and `snap` call it as written (`Rig.SystemNodesOf`), so they
  raise on such systems too. The corrected `getSystemNodes` (`Rig.SystemNodesFixed`)
  is kept beside it.

## Model

| member | source | states |
|---|---|---|
| Scene.Lookup | core/metadata.py:63 | finds the declaration of an attribute name in a node's table; None exactly when no declaration has that name |
| Scene.InCategory | core/metadata.py:253 | lists only names declared in the category, and every name declared in it |
| Scene.InCategoryIff | core/metadata.py:304 | on a table with unique names, a name is listed for category c exactly when it is declared there with category c |
| Scene.InCategoryDistinct | core/metadata.py:304 | on a table with unique names, listAttr lists each name once |
| Scene.LookupAppend | core/metadata.py:66 | after addAttr, attributeQuery finds the old declarations unchanged and the new one only when its name was absent |
| Scene.InCategoryAppend | core/metadata.py:66 | addAttr appends the new name to the listing of its own category only |
| Scene.Placed | core/metadata.py:119 | the sources of a sparse array: every placed source is listed, and no more sources than the array has elements |
| Scene.PlacedFrom | core/metadata.py:119 | every listed source comes from an element of the array |
| Scene.Listed | core/metadata.py:119 | listConnections raises when the plug's attribute is absent; otherwise it lists the single input, then the array elements in index order |
| Scene.GetAttr | core/metadata.py:262 | getAttr succeeds exactly when the attribute exists, and returns the value setAttr stored |
| Scene.FreshName | core/metadata.py:212 | createNode picks a name that no node has |
| Scene.Place | core/metadata.py:104 | connecting element i sets element i and leaves the others; an index past the end grows the array |
| Scene.ElementConnected | core/metadata.py:104 | after connectAttr into element i, element i is fed by the source |
| Scene.ElementDisconnected | core/metadata.py:101 | disconnectAttr of element i succeeds exactly when that element is fed by the source, and then clears it alone |
| Scene.CreatedSound | core/metadata.py:212 | createNode of a fresh, non-empty name keeps the scene well formed |
| Scene.AttrAddedSound | core/metadata.py:66 | addAttr of an absent name keeps the scene well formed |
| Scene.InputSetSound | core/metadata.py:76 | a forced connect between existing nodes keeps the scene well formed |
| Scene.ElementConnectedSound | core/metadata.py:104 | connecting an array element keeps the scene well formed |
| Scene.ElementDisconnectedSound | core/metadata.py:101 | disconnecting an array element keeps the scene well formed |
| Scene.ClearedListing | core/metadata.py:101 | clearing an occupied element removes exactly that source from the listing |
| Scene.PlaceAtEnd | core/metadata.py:104 | connecting at index len(array) appends the child to the listing |
| Scene.Host.constructor | core/metadata.py:189 | a host starts as the given well-formed scene |
| Scene.Host.CreateNode | core/metadata.py:212 | createNode adds one fresh node that has only `message` |
| Scene.Host.AddAttr | core/metadata.py:66 | addAttr appends the declaration to the node's table and changes nothing else |
| Scene.Host.SetAttr | core/metadata.py:218 | setAttr stores the value on an existing plug and changes nothing else |
| Scene.Host.ConnectAttr | core/metadata.py:76 | connectAttr -f succeeds exactly when the destination is a message attribute, and then makes the source its only input; otherwise it raises NotAMessage with the scene unchanged |
| Scene.Host.ConnectElement | core/metadata.py:104 | connectAttr into an array element: the new state, or the fault with no change |
| Scene.Host.DisconnectElement | core/metadata.py:101 | disconnectAttr of an array element: the new state, or the fault with no change |
| Commands.Added | core/metadata.py:216 | addAttr succeeds exactly when the node exists and has no attribute of that name; otherwise it raises with no change |
| Commands.Declared | core/metadata.py:225-226 | the guarded addAttr succeeds exactly when the node exists; otherwise it raises with no change |
| Commands.Assigned | core/metadata.py:218 | setAttr succeeds exactly when the attribute exists; otherwise it raises with no change |
| Commands.DeclaredGrown | core/metadata.py:225-226 | the guarded addAttr leaves the attribute present, with the given declaration when it was absent, and changes no other node |
| Commands.CompoundFresh | core/metadata.py:329-332 | on a node with none of the three names, the compound and its two children are appended in order |
| Commands.CompoundDeclaredIff | core/metadata.py:329-332 | addUIAttrs' compound step succeeds exactly when the node exists and the parent is present or neither child is, leaves the parent present and touches only the three names |
| Commands.UIDeclaredIff | core/metadata.py:328-336 | addUIAttrs succeeds exactly when the node exists and neither compound has a child without its parent; then buttonPos and buttonSize exist |
| Commands.UIDeclaredGrown | core/metadata.py:328-336 | addUIAttrs adds only button attributes, in category metaUI, to that node alone |
| Commands.UIDeclaredIdempotent | core/metadata.py:328-336 | a second addUIAttrs changes nothing |
| Commands.AddUIAttrs | core/metadata.py:328-336 | the host ends in the state UIDeclared computes |
| Commands.Add | core/metadata.py:216 | the host ends in the state Added computes |
| Commands.Declare | core/metadata.py:225-226 | the host ends in the state Declared computes |
| Commands.Assign | core/metadata.py:218 | the host ends in the state Assigned computes |
| Commands.DeclareCompound | core/metadata.py:329-332 | the host ends in the state CompoundDeclared computes |
| MetaLinks.MessageConnected | core/metadata.py:52-60 | with the selection empty, a missing fromNode raises at the selection index; otherwise an error string with no change exactly when toNode or a name is missing (NoNodes exactly for toNode); it completes exactly when both nodes are given and exist and the destination is absent or a message attribute; it raises NotAMessage, after creating the source attribute, exactly when the destination exists with another type, and NoSuchNode when a node does not exist |
| MetaLinks.MessageConnectedEffect | core/metadata.py:62-76 | for a destination that is absent or a message attribute, both attributes are present afterwards, each created only when absent and with the category only then; the destination plug is fed by the source plug alone; nothing else changes |
| MetaLinks.MessageConnectedIdempotent | core/metadata.py:45-77 | repeating a successful messageConnect changes nothing |
| MetaLinks.MessageConnectedListAttr | core/metadata.py:66-72 | a name enters a category's listing only when messageConnect created it with that category |
| MetaLinks.MessageConnect | core/metadata_old.py:12-44 | the host ends in the state and status MessageConnected computes; the old file's messageConnect is the same function |
| MetaLinks.GetMetaChildren | core/metadata.py:109-123 | an error string exactly for a missing node; the metaChildren listing when the attribute exists; a raise otherwise |
| MetaLinks.LinkedTraversable | core/metadata.py:137-144 | when every listed child has metaChildren, the recursion never raises |
| MetaLinks.TraversableCovers | core/metadata.py:137-144 | the recursion from a node never raises exactly when every node it visits, the node included, carries metaChildren |
| MetaLinks.CollectSubtree | core/metadata.py:137-144 | the recursive helper succeeds exactly when it never calls getMetaChildren on a node without metaChildren, and then lists that node's subtree in post-order |
| MetaLinks.CollectSubtrees | core/metadata.py:140-143 | the loop over a child list succeeds exactly when every call in it does, and lists each child's subtree in order |
| MetaLinks.GetAllMetaChildren | core/metadata.py:125-150 | on an acyclic graph the result is the error string, the raise, or the descendant list MetaDescendants defines |
| MetaGraph.SomeRank | core/metadata.py:137-148 | an acyclic graph has a rank that decreases along every metaChildren edge |
| MetaGraph.DescendantsExcludeStart | core/metadata.py:146-150 | the start node is never listed, and a childless node gives [] |
| MetaGraph.DescendantsAreReachable | core/metadata.py:125-150 | a node is listed exactly when it is reached by one or more metaChildren edges |
| MetaGraph.DescendantsPostOrdered | core/metadata.py:137-144 | every node is listed after all of its own descendants |
| MetaGraph.DescendantsBefore | core/metadata.py:137-144 | whatever lies under the i-th listed node is listed before position i |
| MetaGraph.DescendantsDistinct | core/metadata_old.py:95-120 | on a forest (each node under at most one parent, once) every descendant is listed once |
| MetaGraph.SubtreeReaches | core/metadata_old.py:107-114 | what the old recursion lists is the node itself or reached from it |
| MetaGraph.RerankedAcyclic | core/metadata.py:92-107 | adding the one edge parent to child, with parent outside child's subtree, keeps the graph acyclic |
| MetaGraph.SelfLoopNotAcyclic | core/metadata.py:92 | a node listed among its own metaChildren makes the graph cyclic |
| MetaLinks.IndexOf | core/metadata.py:100 | list.index gives the first position of the item |
| MetaLinks.SlotIndex | core/metadata.py:100 | the array element fed by the child, if any |
| MetaLinks.Detached | core/metadata.py:96-101 | the corrected detachment: never an error string; a raise leaves no change |
| MetaLinks.Attached | core/metadata.py:103-104 | the corrected attachment: never an error string |
| MetaLinks.DetachedEffect | core/metadata.py:96-101 | the child leaves its former parent's listing once, no other listing changes, and nothing but that array changes |
| MetaLinks.AttachedEffect | core/metadata.py:103-107 | the child is appended to the parent's array and listing, child.metaParent is fed by the parent, other listings are unchanged and no attribute is lost |
| MetaLinks.LinkedEffect | core/metadata.py:107 | the final messageConnect feeds child.metaParent from the parent and leaves all listings unchanged |
| MetaLinks.ParentConnectRefusesDescendant | core/metadata.py:92-93 | a parent that is a meta descendant of the child gives the error string and no change, both as written and corrected |
| MetaLinks.ParentConnectedWiring | core/metadata.py:101-107 | child.metaParent is fed by the parent, and the child's message sits in the element just past the parent's old array |
| MetaLinks.ParentConnectedEffect | core/metadata.py:95-104 | the child is appended to the new parent's listing and taken once from the former parent's; the other listings are unchanged |
| MetaLinks.ParentConnectedSteps | core/metadata.py:89-104 | success means both arguments given, distinct, the parent not below the child, and the re-parenting is the detach followed by the attach |
| MetaLinks.ParentConnectedFromSteps | core/metadata.py:89-104 | those conditions are enough for the re-parenting to be the detach followed by the attach |
| MetaLinks.RelinkedSteps | core/metadata.py:92-104 | the corrected re-parenting, which the corrected old schema applies to meta networks, succeeds only for a parent other than the child and outside its subtree, and is then the corrected detach followed by the corrected attach |
| MetaLinks.ParentConnectedEdges | core/metadata.py:95-107 | the only new metaChildren edge is parent to child |
| MetaLinks.ParentConnectedAcyclic | core/metadata.py:92-107 | a successful parentConnect keeps the graph acyclic |
| MetaLinks.ParentConnectedLinked | core/metadata.py:92-107 | a successful parentConnect keeps every listed child carrying metaChildren |
| MetaLinks.ParentConnectedLeavesFormerParent | core/metadata.py:96-101 | on a forest the child is no longer among its former parent's metaChildren |
| MetaLinks.DetachedWhenPacked | core/metadata.py:99-101 | while the former parent's array has no hole, the written index equals the element fed by the child |
| MetaLinks.AttachedWhenPacked | core/metadata.py:103-104 | while the parent's array has no hole, len(children) is the end of the array |
| MetaLinks.ParentConnectedWhenPacked | core/metadata.py:99-104 | while the arrays are dense, parentConnect as written equals the corrected one |
| MetaLinks.Detach | core/metadata.py:96-101 | the host ends in the state and status DetachedAsWritten computes: disconnect at the child's position in the listing, raising when that element is not the child's |
| MetaLinks.Attach | core/metadata.py:103-107 | the host ends in the state and status AttachedAsWritten computes: connect at index len(children), then messageConnect |
| MetaLinks.Relink | core/metadata.py:92-107 | the host ends in the state and status RelinkedAsWritten computes, None networks of the old schema included |
| MetaLinks.ParentConnect | core/metadata.py:79-107 | the host ends in the state and status ParentConnectedAsWritten computes |
| Rig.SideIndex | core/metadata.py:222 | the index of the side in [centre, left, right], or none for any other string |
| Rig.RootCreated | core/metadata.py:197-201 | build without fromNode creates a fresh network named after the rig and makes it the root |
| Rig.Built | core/metadata.py:193-201 | build(fromNode) keeps the scene, makes fromNode the root and lists its metaSystem attributes as the systems, failing exactly when fromNode is missing |
| Rig.BuiltAsWritten | core/metadata.py:196 | as written, a fromNode with no metaSystem attribute leaves systems None; otherwise it equals Built |
| Rig.SystemAdded | core/metadata.py:203-230 | an error string with no change exactly for an empty or listed name; on success the name is appended to systems; otherwise systems are unchanged |
| Rig.SystemMetaRoot | core/metadata.py:232-238 | the error string exactly for an unlisted system; otherwise the first source of root.<system> |
| Rig.MetaRigNodes | core/metadata.py:240-246 | succeeds exactly when the root exists |
| Rig.FirstSources | core/metadata.py:254 | the first source of each listed attribute, in order, and a raise when one has none |
| Rig.ConnectedSourcesFed | core/metadata.py:254 | the corrected list comprehension lists a node exactly when it is the first source of one of the attributes, skipping those nothing feeds |
| Rig.SystemNetwork | core/metadata.py:261 | the first source of n.systemMetaRoot, or the raise |
| Rig.RigNodeAdded | core/metadata.py:290-326 | any error string is one of the four checks and leaves the scene unchanged |
| Rig.MetaRig.constructor | core/metadata.py:189-190 | __init__ sets the name; it then calls Build |
| Rig.MetaRig.Build | core/metadata.py:193-201 | the object and the scene end as BuiltAsWritten computes, systems None for a fromNode without metaSystem attributes |
| Rig.MetaRig.AddSystem | core/metadata.py:203-230 | the object and the scene end as SystemAdded computes |
| Rig.MetaRig.AddRigNode | core/metadata.py:290-326 | the scene ends as RigNodeAdded computes; the object is unchanged |
| Rig.MakeSystem | core/metadata.py:212-228 | the host ends in the state SystemMade computes |
| Rig.WireSystem | core/metadata.py:213-214 | the host ends in the state SystemWired computes |
| Rig.LabelSystem | core/metadata.py:216-219 | the host ends in the state SystemLabelled computes |
| Rig.SideSystem | core/metadata.py:221-223 | the host ends in the state SystemSided computes |
| Rig.TypeSystem | core/metadata.py:225-228 | the host ends in the state SystemTyped computes |
| Rig.Register | core/metadata.py:314-326 | the host ends in the state Registered computes |
| Rig.LinkRigNode | core/metadata.py:314-316 | the host ends in the state RigNodeLinked computes |
| Rig.TagRigNode | core/metadata.py:319-326 | the host ends in the state RigNodeTagged computes |
| RigLaws.WiredEffect | core/metadata.py:213-214 | nw.metaRoot is fed by the root, root.<name> by nw, and only those two tables grow |
| RigLaws.LabelledEffect | core/metadata.py:216-219 | systemName and systemType are declared on nw and hold the name and the type |
| RigLaws.SidedEffect | core/metadata.py:221-228 | side holds the index of the side; the network then carries its metaSystem attributes and the metaUI button attributes |
| RigLaws.SidedBadSide | core/metadata.py:221-222 | any other side raises after the side attribute was added |
| RigLaws.TypedEffect | core/metadata.py:225-228 | metaType and the button attributes are added and no value changes |
| RigLaws.SystemDeclsWithoutUI | core/metadata.py:225-228 | the network's own attributes never clash with the button attributes |
| RigLaws.MadeEffect | core/metadata.py:212-228 | building a system network succeeds for a listed side and a name the root can receive, and leaves the scene SystemShaped |
| RigLaws.NewNetwork | core/metadata.py:212 | the new network is a node that did not exist |
| RigLaws.SystemAddedEffect | core/metadata.py:212-230 | addSystem for a new name and a valid side appends the name, adds one node, wires root and network both ways and writes name, type and side index |
| RigLaws.SystemAddedBadSide | core/metadata.py:222 | any other side raises with systems unchanged, after the network was created and wired |
| RigLaws.SystemAddedDone | core/metadata.py:206-222 | addSystem completes exactly for a non-empty, new name that the root does not hold as a non-message attribute, and a listed side |
| RigLaws.SystemAddedNotMessage | core/metadata.py:212-214 | for a new name the root holds as a non-message attribute, addSystem raises NotAMessage with systems unchanged, after the network was created and its metaRoot fed by the root; the root's attributes are unchanged |
| RigLaws.RootCreatedReceives | core/metadata.py:197-201 | a fresh root can receive a message connection under every name except metaRig, its string attribute |
| RigLaws.MetaRigNameRaises | core/metadata.py:199-214 | on a fresh rig, addSystem of a system named metaRig raises NotAMessage |
| RigLaws.NetworkReads | core/metadata.py:262-281 | the network's name, type, side and metaType read back as written, and metaType is its one metaNode attribute |
| RigLaws.RootLinkReads | core/metadata.py:232-236 | getSystemMetaRoot answers the node feeding root.<system> |
| RigLaws.ShapedQueries | core/metadata.py:232-281 | a SystemShaped network answers getSystemMetaRoot, getSide and getMetaType as addSystem set them |
| RigLaws.SystemAddedQueries | core/metadata.py:212-236 | after addSystem, getSystemMetaRoot(name) is the new network and it reads back name, type, side index and metaType 0 |
| RigLaws.RootCreatedCached | core/metadata.py:197-201 | a new root has only message and metaRig, and systems [] equals its metaSystem listing |
| RigLaws.SystemAddedCached | core/metadata.py:203-230 | addSystem of a name that is not already one of the root's message attributes keeps `systems` equal to the root's metaSystem listing |
| RigLaws.AllSystemsAddedCached | core/metadata.py:203-230 | so does any sequence of addSystem calls |
| RigLaws.RebuiltListsSystems | core/metadata.py:193-196 | a MetaRig rebuilt from that root lists the same systems, as written once at least one system exists and corrected always; as written, with none it lists None |
| RigLaws.ReloadWithoutSystemsAsWritten | core/metadata.py:196 | a root without systems reloads with systems None, and addSystem then raises |
| RigLaws.ReloadWithoutSystemsCorrected | core/metadata.py:196 | read as [], the reloaded rig accepts addSystem exactly for a system not named metaRig |
| RigNodeLaws.ConnectedInto | core/metadata.py:62-76 | a messageConnect onto an existing source attribute, into a destination that is absent or a message attribute, feeds the destination, declaring it only when absent |
| RigNodeLaws.ConnectedNotMessage | core/metadata.py:70-76 | from an existing source attribute into an existing destination of another type, messageConnect raises NotAMessage and changes nothing |
| RigNodeLaws.AdmittedRegisters | core/metadata.py:294-326 | a node that passes the four checks goes on to the connections and attributes of Registered |
| RigNodeLaws.RigNodeLinkedNotMessage | core/metadata.py:314-316 | when the system network already has a non-message attribute named `name`, the registration raises NotAMessage at the third connection, after the first two were made |
| RigNodeLaws.RigNodeAddedNotMessage | core/metadata.py:294-316 | addRigNode of a node that passes the checks, under a name the network holds as a non-message attribute, raises NotAMessage with the node's systemMetaRoot and metaRoot already fed |
| RigNodeLaws.NodeLinked | core/metadata.py:314-315 | the node's systemMetaRoot and metaRoot are fed by the system network and the root |
| RigNodeLaws.RigNodeLinkedEffect | core/metadata.py:314-316 | the three connections of addRigNode and nothing else |
| RigNodeLaws.MetaDeclaredHas | core/metadata.py:319-324 | metaParent, multi metaChildren and metaType exist afterwards |
| RigNodeLaws.TaggedIff | core/metadata.py:319-326 | the attribute step of addRigNode succeeds exactly when the node exists and addUIAttrs can run |
| RigNodeLaws.TaggedHas | core/metadata.py:319-326 | after it the node has metaParent, multi metaChildren and metaType |
| RigNodeLaws.TaggedGrown | core/metadata.py:319-336 | it adds only meta and button attributes to that node |
| RigNodeLaws.RegisteredEffect | core/metadata.py:314-326 | a validated node is wired to its system and root and declared, and nothing else changes |
| RigNodeLaws.RegisteredHas | core/metadata.py:314-324 | afterwards the node has systemMetaRoot, metaRoot, metaParent, metaChildren and metaType |
| RigNodeLaws.RigNodeAddedChecks | core/metadata.py:294-312 | each error string exactly under its condition, in the source's order; success implies all four checks passed |
| RigNodeLaws.RigNodeAddedAlreadyInRig | core/metadata.py:310-312 | past the first three checks, the "already connected" string comes exactly when the node is among root.message's destinations |
| RigNodeLaws.NetworkInRig | core/metadata.py:212-218 | a system network is itself among the rig's nodes |
| RigNodeLaws.RigNodeAddedEffect | core/metadata.py:294-326 | a node passing the checks is registered, with the RegisteredShaped effect |
| RigNodeLaws.RegisteredInRig | core/metadata.py:315 | a registered node is among the rig's nodes |
| RigNodeLaws.RigNodeAddedOnce | core/metadata.py:310-312 | a node just registered cannot be registered again, into any system |
| RigNodeLaws.RegisteredFind | core/metadata.py:314-326 | attributes other than the registered ones are untouched |
| RigNodeLaws.RegisteredNetwork | core/metadata.py:257-263 | getSystem of a registered node reads its system network's systemName |
| RigNodeLaws.RegisteredSide | core/metadata.py:266-273 | getSide of a registered node is its system's side |
| RigNodeLaws.RegisteredConnections | core/metadata.py:314-326 | no other plug's listing changes |
| RigNodeLaws.RegisteredSystemNodes | core/metadata.py:248-255 | the corrected getSystemNodes lists the new node after the old ones |
| RigFindings.NetworkNamesOnly | core/metadata.py:216-228 | a system network holds no attribute beyond its own and the button ones |
| RigFindings.NetworkTypeUnfed | core/metadata.py:225-226 | the network's metaType exists and nothing feeds it |
| RigFindings.SystemNodesUnfed | core/metadata.py:253-254 | a first metaNode attribute that nothing feeds makes getSystemNodes raise |
| RigFindings.SoundAnchored | core/metadata.py:76 | in a well-formed scene every connected plug is on an existing node |
| RigFindings.SystemAddedUnfed | core/metadata.py:212-228 | after addSystem the network's one metaNode attribute is the unfed metaType |
| RigFindings.SystemNodesAsWritten | core/metadata.py:248-255 | getSystemNodes of a system just added raises |
| RigFindings.SystemNodesCorrected | core/metadata.py:248-255 | the corrected one answers [] |
| RigFindings.ShapedRigNodes | core/metadata.py:240-246 | addSystem adds at most the new network to the rig's nodes |
| RigFindings.SystemAddedAfter | core/metadata.py:212-230 | addSystem leaves the network as the system's meta root with metaType its only, unfed, metaNode attribute |
| RigFindings.AdmittedAfterSystem | core/metadata.py:294-312 | a node outside the rig, with a fresh name, passes the checks of the new system |
| RigFindings.RootAfterSystem | core/metadata.py:212-214 | the root keeps its message attribute |
| RigFindings.CarriedAfterSystem | core/metadata.py:212-228 | other nodes' tables are untouched by addSystem |
| RigFindings.NetworkAfterSystem | core/metadata.py:213 | the network carries message and is fed by the root |
| RigFindings.RegisteredAfterSystem | core/metadata.py:290-326 | such a node is then registered |
| RigFindings.ListedAfterSystem | core/metadata.py:248-255 | the corrected getSystemNodes lists exactly that node |
| RigFindings.UnlistedAfterSystem | core/metadata.py:248-255 | getSystemNodes as written still raises |
| RigFindings.RigNodeAfterSystem | core/metadata.py:248-326 | addSystem then addRigNode: corrected [node], as written a raise |
| RigFindings.NetworkSide | core/metadata.py:221 | a network shaped by addSystem holds side as an enum attribute, so it cannot receive a message connection |
| RigFindings.SideNameAfterSystem | core/metadata.py:212-316 | after addSystem, addRigNode of a fresh node under the name `side` raises NotAMessage at the connection into the network's enum side |
| Picker.Item | core/metadata.py:384 | Python list indexing: defined exactly for -len <= i < len, negative indices counting from the end |
| Picker.ButtonColour | core/metadata.py:384 | colourList[side] is a colour exactly for an integer side in -3..2; a string side is not an index |
| Picker.ColourOfSide | core/metadata.py:12 | the stored index of centre, left and right picks green, blue and red |
| Picker.ButtonColourOf | core/metadata.py:383-384 | the button colour is colourList of getSide, and getSide's raise |
| Picker.UnregisteredColour | core/metadata.py:274-275 | a node that is neither a network nor registered is green |
| Picker.RegisteredColour | core/metadata.py:272-273 | a system network and a node registered with it have the system's side colour |
| Picker.SnapStep | core/metadata.py:438-441 | one node of the loop: aligned when its metaType matches and it has snap targets; getMetaType's raise stops the loop |
| Picker.SnapsAligned | core/metadata.py:437-441 | every align call is for a listed node of the clicked node's metaType, onto its snap targets |
| Picker.SnapsComplete | core/metadata.py:437-441 | the loop completes exactly when every node's metaType reads, and then aligns every matching node |
| Picker.SnapFilter | core/metadata.py:437-441 | the loop's result is SnapsOf |
| Picker.SnapStopped | core/metadata.py:437-438 | nothing after the first raise is aligned |
| Picker.SnapOutcome | core/metadata.py:432-441 | snap completes only when getSystem, getSystemNodes (as written) and getMetaType of the clicked node succeed; getSystemNodes' raise ends it with nothing aligned |
| Picker.Snap | core/metadata.py:432-441 | the method's result is SnapOutcome |
| Picker.RemoveFirst | core/metadata.py:459 | list.remove takes exactly one occurrence out |
| Picker.ToggledMembers | core/metadata.py:454-459 | Shift+click flips the clicked node's membership, keeps every other node and keeps each listed once |
| Picker.RemovedMembers | core/metadata.py:459 | on a distinct selection remove takes the node out and keeps the rest |
| Picker.ToggledTwice | core/metadata.py:454-459 | two Shift+clicks on a node not selected restore the selection |
| Picker.ButtonSelect | core/metadata.py:443-468 | the method's result is Selection |
| Picker.AltSelection | core/metadata.py:460-461 | Alt+click selects the node followed by its descendants, the node not repeated, each once on a forest |
| Picker.OtherSelections | core/metadata.py:454-466 | Shift toggles, Ctrl selects the system's nodes (or getSystem's raise), no modifier selects the node alone |
| LegacyRig.HasMeta | core/metadata_old.py:154-167 | true exactly when the node has metaNode and, for a given type, an attribute of that category; a missing node raises |
| LegacyRig.MetaNodeOf | core/metadata_old.py:169-177 | None without metaNode; otherwise the first source of n.metaNode, or the raise when there is none |
| LegacyLaws.MetaNodeOfHasMeta | core/metadata_old.py:169-177 | a node with meta of any type has metaNode, and getMetaNode answers exactly when it is fed |
| LegacyRig.LegacySystemTagged | core/metadata_old.py:225-230 | any failure is a raise |
| LegacyRig.LegacySystemMade | core/metadata_old.py:221-230 | any failure is a raise |
| LegacyRig.LegacySystemAdded | core/metadata_old.py:212-234 | an error string with no change exactly for an empty or listed name; on success the name is appended |
| LegacyLaws.LegacySystemNetwork | core/metadata_old.py:221 | the system's network is a fresh node |
| LegacyLaws.SystemTaggedEffect | core/metadata_old.py:225-230 | systemType and side are declared and hold the type and the side index |
| LegacyLaws.SystemMadeEffect | core/metadata_old.py:221-230 | the network is wired to the metaRoot both ways and tagged |
| LegacyLaws.LegacySystemAddedEffect | core/metadata_old.py:215-234 | a new name with a listed side is appended, one node is added, and the scene is LegacySystemShaped |
| LegacyLaws.LegacySystemAddedBadSide | core/metadata_old.py:228-229 | any other side raises after the network was made and given its side attribute |
| LegacyRig.LegacyAdmission | core/metadata_old.py:256-274 | an error string is one of the four checks; an answer is an existing network of a listed system |
| LegacyRig.RigNodeNetwork | core/metadata_old.py:276 | the rig node's network is a fresh node |
| LegacyRig.LegacyLinked | core/metadata_old.py:277-281 | any failure is a raise |
| LegacyRig.LegacyTagged | core/metadata_old.py:284-289 | any failure is a raise |
| LegacyRig.LegacyRegistered | core/metadata_old.py:277-289 | any failure is a raise |
| LegacyRig.LegacyRigNodeAddedWith | core/metadata_old.py:252-289 | an error string leaves the scene unchanged |
| LegacyRig.LegacyRigNodeAddedAsWritten | core/metadata_old.py:252-289 | an error string leaves the scene unchanged |
| LegacyRig.LegacyRigNodeAdded | core/metadata_old.py:252-289 | an error string leaves the scene unchanged |
| LegacyLaws.NetworkFed | core/metadata_old.py:277-278 | the network's systemMetaRoot and metaRoot are fed by its system and the metaRoot |
| LegacyLaws.NetworkNamed | core/metadata_old.py:279 | systemMetaRoot.<name> is fed by the network |
| LegacyLaws.NetworkJoined | core/metadata_old.py:280-281 | node.metaNode and nw.rigNode join the node and its network both ways |
| LegacyLaws.DeclaredFresh | core/metadata_old.py:284-289 | a guarded addAttr of an absent name appends it |
| LegacyLaws.NetworkTaggedEffect | core/metadata_old.py:284-289 | the network gains metaParent, multi metaChildren and metaType |
| LegacyLaws.LegacyLinkedEffect | core/metadata_old.py:277-281 | the five connections, each destination declared only when absent |
| LegacyLaws.LegacyRegisteredEffect | core/metadata_old.py:276-289 | exactly one new network with the five edges and the three meta attributes, and nothing else changes |
| LegacyLaws.LegacyRigNodeRefusals | core/metadata_old.py:256-274 | each error string exactly under its condition, with no change |
| LegacyLaws.LegacyRigNodeAddedEffect | core/metadata_old.py:252-289 | a node passing the checks gets its network, NetworkRegistered |
| LegacyLaws.RelinkedEffect | core/metadata_old.py:65-77 | after the corrected re-parenting of two meta networks, the child network's metaParent is fed by the parent network, which lists it last |
| LegacyLaws.LegacyParentConnectedFound | core/metadata_old.py:59-60 | success means both nodes have meta networks |
| LegacyLaws.LegacyParentConnectedOnMeta | core/metadata_old.py:59-77 | all parent and child edges land on the meta networks |
| LegacyLaws.LegacyRefusesDescendant | core/metadata_old.py:62-63 | a parent network below the child network gives the error string and no change, as written and corrected |
| LegacyLaws.LegacyOnNetworks | core/metadata_old.py:46-77 | when both nodes have meta networks, the old parentConnect is the current one applied to the networks, as written and corrected |
| LegacyLaws.NoChildNetworkAsWritten | core/metadata_old.py:59-63 | as written, a child without a meta network and a parent network named `node` give the "meta descendent" error string, since `in` tests for a substring of getAllMetaChildren's error string |
| LegacyLaws.NoChildNetworkRaises | core/metadata_old.py:62-68 | as written, with a child without a meta network, a parent network whose name is not in that string reaches listConnections('None.metaParent'), which raises with no change in a scene without a node None; one whose name is in it is refused |
| LegacyLaws.NoChildNetworkRefused | core/metadata_old.py:59-63 | the corrected parentConnect raises NotMeta with no change for a child without a meta network |
| LegacyLaws.NoParentNetworkAsWritten | core/metadata_old.py:65-77 | as written, a parent without a meta network always ends in a raise, after the child's network was detached |
| LegacyLaws.RegisteredNameListed | core/metadata_old.py:279 | the name addRigNode used is listed under metaConnection, not metaNode |
| LegacyLaws.DuplicateNameAsWritten | core/metadata_old.py:266-270 | as written, a second rig node with the same name is not refused |
| LegacyLaws.DuplicateNameRefused | core/metadata_old.py:266-270 | with the category of line 279 it is refused |
| LegacyLaws.RegisteredFeeds | core/metadata_old.py:278 | the metaRoot feeds the network, not the node |
| LegacyLaws.RegisteredUnseen | core/metadata_old.py:272-274 | the node itself stays outside getMetaRigNodes |
| LegacyLaws.RegisteredNodeUnseenAsWritten | core/metadata_old.py:272-274 | as written, a registered node passes the "already connected" check |
| LegacyLaws.InRigNotAdmitted | core/metadata_old.py:272-274 | the corrected check refuses a node whose network is in the rig |
| LegacyLaws.RegisteredNodeRefused | core/metadata_old.py:272-274 | with it, a registered node cannot be registered again |
| LegacyLaws.BuiltMetaRoot | core/metadata_old.py:205 | the metaRoot is a fresh node |
| LegacyLaws.BuiltSystemNetwork | core/metadata_old.py:221 | the 'root' system's network is another fresh node |
| LegacyLaws.RootLinked | core/metadata_old.py:206-207 | metaRoot.root is fed by the root and root.metaNode by the metaRoot |
| LegacyLaws.RootAdmissionDeclined | core/metadata_old.py:210 | build's addRigNode of the root returns "already connected" |
| LegacyLaws.LegacyCreatedEffect | core/metadata_old.py:205-210 | build on a fresh root: two new nodes, the links, system 'root' listed, and metaRoot.root finally fed by the system's network |
| LegacyRig.LegacyLoaded | core/metadata_old.py:200-203 | the reload keeps the scene and the root |
| LegacyRig.LegacyLoadedAsWritten | core/metadata_old.py:203 | as written it differs from the corrected reload only where the listing is empty |
| LegacyRig.LegacyCreated | core/metadata_old.py:205-210 | the root is kept |
| LegacyRig.LegacyBuilt | core/metadata_old.py:198-210 | a missing root raises with no change |
| LegacyRig.LegacyBuiltAsWritten | core/metadata_old.py:198-210 | a missing root raises with no change |
| LegacyLaws.RootHasMeta | core/metadata_old.py:200-207 | after build the root has meta of type metaRootConnection |
| LegacyLaws.ReloadedState | core/metadata_old.py:200-203 | a reload takes metaRoot and name from root.metaNode; systems [] corrected, None as written |
| LegacyLaws.ReloadAsWritten | core/metadata_old.py:203-218 | a rebuilt rig has systems None and its addSystem raises |
| LegacyLaws.ReloadCorrected | core/metadata_old.py:203-218 | read as [], the rebuilt rig accepts addSystem |
| LegacyRig.LegacyParentConnect | core/metadata_old.py:46-77 | the host ends in the state and status LegacyParentConnectedAsWritten computes |
| LegacyRig.LegacyMetaRig.constructor | core/metadata_old.py:186-195 | __init__ sets root, name and systems []; NewLegacyRig then builds |
| LegacyRig.LegacyMetaRig.Build | core/metadata_old.py:198-210 | the object and the scene end as LegacyBuiltAsWritten computes |
| LegacyRig.LegacyMetaRig.Reload | core/metadata_old.py:200-203 | with hasMeta true, the object ends as LegacyLoadedAsWritten computes (systems None for an empty listing) and the scene is unchanged |
| LegacyRig.LegacyMetaRig.Create | core/metadata_old.py:204-210 | without the meta, the object and the scene end as LegacyCreated computes with the checks as written |
| LegacyRig.LegacyMetaRig.AddSystem | core/metadata_old.py:212-234 | the object and the scene end as LegacySystemAdded computes |
| LegacyRig.LegacyMetaRig.AddRigNode | core/metadata_old.py:252-289 | the scene ends as LegacyRigNodeAddedAsWritten computes |
| LegacyRig.NewLegacyRig | core/metadata_old.py:186-196 | no root makes __init__ return a string, which Python refuses; otherwise a new rig built as LegacyBuiltAsWritten computes |
| LegacyRig.Admit | core/metadata_old.py:256-274 | the method's result is LegacyAdmission with the checks as written or corrected |
| LegacyRig.MakeLegacySystem | core/metadata_old.py:221-230 | the host ends in the state LegacySystemMade computes |
| LegacyRig.RegisterLegacy | core/metadata_old.py:276-289 | the host ends in the state LegacyRegistered computes |
| Findings.SelfParentAsWritten | core/metadata.py:92-107 | parentConnect(a, a) as written succeeds and makes a its own meta child, so the graph is no longer acyclic |
| Findings.SelfParentRefused | core/metadata.py:92-107 | the corrected one refuses it with no change |
| Findings.SelfParentOn | core/metadata.py:92-107 | on any acyclic scene with an unparented, childless rig node a, parentConnect(a, a) as written succeeds and leaves a cycle |
| Findings.SelfParentRefusedOn | core/metadata.py:92-107 | on the same scenes the corrected one refuses it with no change |
| Findings.LegacySelfParentAsWritten | core/metadata_old.py:59-77 | old-schema parentConnect(x, x) as written makes x's meta network its own meta child, so the graph is no longer acyclic |
| Findings.LegacySelfParentRefused | core/metadata_old.py:59-77 | the corrected old-schema parentConnect refuses it with no change |
| Findings.HoleFromReparenting | core/metadata.py:96-104 | re-parenting the first child leaves a hole at element 0 of the old parent's array |
| Findings.AttachIntoHoleAsWritten | core/metadata.py:103-104 | as written, the next child goes to index len(children), an element already taken, and connectAttr raises |
| Findings.AttachIntoHoleCorrected | core/metadata.py:103-104 | appended at the end of the array, the child is listed last |
| Findings.DetachFromHoleAsWritten | core/metadata.py:99-101 | as written, the listing position names the empty element, and disconnectAttr raises |
| Findings.DetachFromHoleCorrected | core/metadata.py:99-101 | disconnecting the element the child feeds re-parents it |

## Left out

- The user's selection `cmds.ls(sl=1)` is ambient UI state; the model takes it to be empty. A selection of exactly two nodes, which `messageConnect` and `parentConnect` would use for missing arguments, is not modelled.
- `print` calls and the strings of the error messages are left out. Only which message was returned is kept. The exceptions are the two strings that `getMetaChildren(None)` and `getAllMetaChildren(None)` return: parentConnect uses them as values (`MetaLinks.Prompt`).
- `align` and the geometry of `snap` are world-space matrix arithmetic. `snap` is modelled as the list of align calls it makes.
- `cmds.select` at the end of `buttonSelect`, the Qt keyboard modifiers and the sender's tooltip are not modelled. The current selection, the modifier set and the clicked node are inputs, and the method returns the node list it would select.
- PickerGui's widget construction and `getButtonData`'s position and size are Qt work. Only the colour lookup is modelled.
- `addDictionaryAttr` and `readDict` wrap `json` and are not part of this model.
- A cyclic metaChildren graph makes the recursion in `getAllMetaChildren` hit Python's recursion limit. The model requires the whole scene's metaChildren graph to be acyclic wherever it traverses (`MetaLinks.MetaDescendants`, `GetAllMetaChildren`, `ParentConnectedAsWritten`, `ParentConnect`, `RelinkedAsWritten`, `Relink`, `LegacyRig.LegacyParentConnectedAsWritten`, `LegacyParentConnect`, `Picker.Selection`, `ButtonSelect`). It therefore says nothing about any of them in a scene with a cycle anywhere, even between nodes they never visit, and in particular nothing about a parentConnect after the one of `Findings.SelfParentAsWritten`.
- Scene.FreshName: createNode's renaming is Maya's (a trailing number is incremented, so `Rig1` becomes `Rig2`); the model appends `1` and promises only that the name is new.
- MetaLinks.MessageConnected: only the destination's type is checked. A source attribute of another type, or a destination that already has an input and is not a message attribute, is not modelled; every call in the core connects from `message`.
- When a node is connected to several destinations, the model keeps them as a set (`Destinations`). The order in which `listConnections` returns them is not modelled; only membership in `getMetaRigNodes` depends on it.
- Old-schema `addUIAttrs` (lines 293-302) is never called, because both calls are commented out. The current schema's `addUIAttrs` is modelled by `Commands.UIDeclared`.
- `getSnapNode` returns None on one branch; the model reads that as an empty list (`Rig.SnapNode`). `snap` only tests whether the result is truthy, so nothing is lost.
- `Rig.SystemNodes`, `Rig.SystemOf`, `Rig.SideOf`, `Rig.MetaTypeOf` and `Rig.SnapNode` are plain reads without their own contracts. What they return is stated by `RigLaws.NetworkReads`, `RigNodeLaws.RegisteredNetwork`, `RigNodeLaws.RegisteredSide`, `RigFindings.SystemNodesAsWritten` and `Picker.UnregisteredColour`.
- LegacyRig.LegacyParentConnected: it is the corrected old-schema parentConnect. A child without a meta network raises `NotMeta` with no change. The code as written (`LegacyRig.LegacyParentConnectedAsWritten`, which the method follows) does a substring test instead and then works on a node named `None`; see the Findings table.
- MetaLinks.RelinkedSteps: it is proved of the corrected re-parenting. As written, the re-parenting equals the corrected one under the premises of `MetaLinks.ParentConnectedWhenPacked`: the arrays it reads have no hole, and the parent is neither the child nor its former parent.
- LegacyLaws.RelinkedEffect: it is proved of the corrected re-parenting, for the same reason. The old schema reaches the as-written re-parenting through `LegacyLaws.LegacyOnNetworks`, so the sparse-hole findings apply to lines 65-77 of the old file too.
- The lemmas `MetaLinks.DetachedEffect`, `AttachedEffect`, `ParentConnectedWiring`, `ParentConnectedEffect`, `ParentConnectedSteps`, `ParentConnectedFromSteps`, `ParentConnectedEdges`, `ParentConnectedAcyclic`, `ParentConnectedLinked` and `ParentConnectedLeavesFormerParent` are about the corrected parentConnect. They carry over to the code as written under the premises of `MetaLinks.ParentConnectedWhenPacked`.
- LegacyLaws.ReloadAsWritten and LegacyLaws.ReloadCorrected: both take one extra premise, that `root.metaNode` has no array element. This holds for any root that is not a multi attribute.
- RigLaws.RebuiltListsSystems: it requires that no system is named `message`, which the root already holds as a message attribute that is not of category metaSystem. A system named `metaRig` is no longer excluded: addSystem raises for it (`RigLaws.SystemAddedNotMessage`), so it never reaches `systems`.

## Findings

| source | as written | input that shows it | evidently intended | confidence | as-written member | corrected member |
|---|---|---|---|---|---|---|
| core/metadata.py:92 | only strict descendants are checked, so parentConnect(a, a) succeeds | a rig node `a` with no meta parent, parentConnect('a', 'a') | a node cannot be its own meta parent | high, not executed | Findings.SelfParentAsWritten | Findings.SelfParentRefused |
| core/metadata.py:103-104 | the new child goes to element len(children), which may already be taken | p with children b, c in elements 0, 1; b moved to q; then parentConnect('p', 'e') | append after the last used element | high, not executed | Findings.AttachIntoHoleAsWritten | Findings.AttachIntoHoleCorrected |
| core/metadata.py:99-101 | the child's position in the listing is used as its element index | the same rig after b moved; then parentConnect('q', 'c') | disconnect the element the child feeds | high, not executed | Findings.DetachFromHoleAsWritten | Findings.DetachFromHoleCorrected |
| core/metadata.py:253-254 | the system network's own metaType (category metaNode, never fed) is read as a rig node, and `[0]` of None raises | addSystem('arm', 'left', 'L_arm'), then getSystemNodes('L_arm') | list only the attributes that rig nodes feed | high, not executed | RigFindings.SystemNodesAsWritten | RigFindings.SystemNodesCorrected |
| core/metadata.py:196 | listAttr returns None for a root without systems, and the next addSystem's `name in None` raises | rebuild from a root that has no systems, then addSystem('spine', 'centre', 'spine') | read None as [] | high, not executed | RigLaws.ReloadWithoutSystemsAsWritten | RigLaws.ReloadWithoutSystemsCorrected |
| core/metadata_old.py:62 | only strict descendants of the child's meta network are checked, so old-schema parentConnect(x, x) succeeds | a scene node `x` whose metaNode is fed by an unparented rig-node network `a`, parentConnect('x', 'x') | a node cannot be its own meta parent | high, not executed | Findings.LegacySelfParentAsWritten | Findings.LegacySelfParentRefused |
| core/metadata_old.py:59-63 | for a child without a meta network, getMetaNode gives None, getAllMetaChildren(None) returns its error string, and `in` becomes a substring test | a child scene node without metaNode and a parent whose meta network is named `node`, parentConnect(parent, child) | report that the child has no meta network | medium, not executed | LegacyLaws.NoChildNetworkAsWritten | LegacyLaws.NoChildNetworkRefused |
| core/metadata_old.py:266 | used names are looked up under metaNode, but line 279 gives them category metaConnection | addRigNode(n1, 'root', 'hand'), then addRigNode(n2, 'root', 'hand') | refuse a name already used in the system | high, not executed | LegacyLaws.DuplicateNameAsWritten | LegacyLaws.DuplicateNameRefused |
| core/metadata_old.py:272-273 | the rig's nodes are the metaRoot's destinations, which are networks, so a registered scene node is never "already connected" | addRigNode(n, 'root', 'a'), then addRigNode(n, 'root', 'b') | refuse a node whose network is in the rig | high, not executed | LegacyLaws.RegisteredNodeUnseenAsWritten | LegacyLaws.RegisteredNodeRefused |
| core/metadata_old.py:203 | a rebuilt rig lists no systems, because 'root' is not a metaSystem attribute, so `systems` is None and addSystem raises | MetaRig(root) on a fresh root, then MetaRig(root) again, then addSystem('arm', 'left', 'L_arm') | read None as [] | high, not executed | LegacyLaws.ReloadAsWritten | LegacyLaws.ReloadCorrected |
