/** The connection helpers shared by both schemas: messageConnect, getMetaChildren,
    getAllMetaChildren and the re-parenting that parentConnect performs. */
module MetaLinks {
  import opened Outcomes
  import opened Scene
  import opened MetaGraph

  const MessageAttr: Name := "message"

  /** '%s' % n names a plug; Python formats None, the empty name here, as "None". */
  function Shown(n: Node): Node {
    if n == "" then "None" else n
  }

  /** The error string getMetaChildren(None) and getAllMetaChildren(None) return, naming
      what is listed; written in pieces so that a proof can point at the word "node". */
  function Prompt(what: string): string {
    "Please supply a " + "node" + " whose " + what + " you wish to list"
  }

  /** parentConnect uses the first prompt as a list and the second as the right side of `in`. */
  const ChildrenPrompt: string := Prompt("children")
  const DescendantsPrompt: string := Prompt("descendents")

  /** Python's `a in s` for strings a and s: a is a substring of s. */
  predicate InString(a: string, s: string) {
    exists i | 0 <= i <= |s| :: a <= s[i..]
  }

  /** How a series of scene commands ended, and the scene it left behind. */
  datatype Step = Step(status: Status, doc: Doc)

  // ---------------------------------------------------------------- messageConnect

  /** The scene with message attribute `a` on n: added, with category `cat`, only when absent. */
  function Ensured(d: Doc, n: Node, a: Name, cat: string): Doc {
    if HasAttr(d, n, a) then d else AttrAdded(d, n, Decl(a, Message, cat, false))
  }

  lemma EnsuredLookup(d: Doc, n: Node, a: Name, cat: string, m: Node, b: Name)
    ensures FindAttr(Ensured(d, n, a, cat), m, b) ==
      if m == n && b == a && !HasAttr(d, n, a) then Some(Decl(a, Message, cat, false)) else FindAttr(d, m, b)
  {
    if !HasAttr(d, n, a) && m == n {
      LookupAppend(Decls(d, n), Decl(a, Message, cat, false), b);
    }
  }

  lemma EnsuredListAttr(d: Doc, n: Node, a: Name, cat: string, m: Node, c: string)
    ensures ListAttr(Ensured(d, n, a, cat), m, c) ==
      ListAttr(d, m, c) + (if m == n && !HasAttr(d, n, a) && cat == c then [a] else [])
  {
    if !HasAttr(d, n, a) && m == n {
      InCategoryAppend(Decls(d, n), Decl(a, Message, cat, false), c);
    }
  }

  /** The destination messageConnect can feed from a message plug: an attribute it is
      about to create, or one that already exists as a message attribute. */
  predicate Receives(d: Doc, n: Node, a: Name) {
    !HasAttr(d, n, a) || FindAttr(d, n, a).value.kind == Message
  }

  /** messageConnect(fromNode, toNode, fromName, toName, category): add the two message
      attributes where absent, then connect them with force. The scene selection is
      empty: a missing fromNode sends the validation into the selection branch, whose
      first index raises; a missing toNode alone returns the argument-error string.
      An existing destination attribute of another type makes connectAttr raise, after
      the source attribute was created. */
  function MessageConnected(d: Doc, from: Node, to: Node, fromName: Name, toName: Name, cat: string): (r: Step)
    ensures r.status == Raised(OutOfRange) <==> from == ""
    ensures r.status.Refused? <==> from != "" && (to == "" || fromName == "" || toName == "")
    ensures r.status == Refused(NoNodes) <==> from != "" && to == ""
    ensures !r.status.Done? && (from == "" || to == "" || fromName == "" || toName == "") ==> r.doc == d
    ensures r.status.Done? <==>
      (from != "" && to != "" && fromName != "" && toName != "" && from in d.nodes && to in d.nodes && Receives(d, to, toName))
    ensures r.status == Raised(NotAMessage) <==>
      (from != "" && to != "" && fromName != "" && toName != "" && from in d.nodes && to in d.nodes && !Receives(d, to, toName))
    ensures r.status == Raised(NotAMessage) ==> r.doc == Ensured(d, from, fromName, cat)
    ensures r.status.Raised? ==> r.status.fault in {NoSuchNode, OutOfRange, NotAMessage}
  {
    if from == "" then Step(Raised(OutOfRange), d)
    else if to == "" then Step(Refused(NoNodes), d)
    else if fromName == "" || toName == "" then Step(Refused(NoNames), d)
    else if from !in d.nodes then Step(Raised(NoSuchNode), d)
    else
      var d1 := Ensured(d, from, fromName, cat);
      if to !in d1.nodes then Step(Raised(NoSuchNode), d1)
      else
        var d2 := Ensured(d1, to, toName, cat);
        EnsuredTwiceLookup(d, from, to, fromName, toName, cat, to, toName);
        EnsuredLookup(d1, to, toName, cat, to, toName);
        if FindAttr(d2, to, toName).value.kind != Message then Step(Raised(NotAMessage), d2)
        else Step(Done, InputSet(d2, Plug(to, toName), Plug(from, fromName)))
  }

  /** One of the two plugs messageConnect(from, to, fromName, toName) works on. */
  predicate Joined(from: Node, to: Node, fromName: Name, toName: Name, m: Node, b: Name) {
    (m == from && b == fromName) || (m == to && b == toName)
  }

  /** A successful messageConnect leaves both attributes present, creates each only when
      it was absent (so the category applies only at creation), feeds the destination
      plug from the source plug alone, and changes nothing else. */
  lemma MessageConnectedEffect(d: Doc, from: Node, to: Node, fromName: Name, toName: Name, cat: string)
    requires from != "" && to != "" && fromName != "" && toName != ""
    requires from in d.nodes && to in d.nodes && Receives(d, to, toName)
    ensures var r := MessageConnected(d, from, to, fromName, toName, cat);
      && r.status == Done
      && r.doc.nodes == d.nodes && r.doc.values == d.values && r.doc.arrays == d.arrays
      && r.doc.inputs == d.inputs[Plug(to, toName) := Plug(from, fromName)]
      && (forall m, b :: FindAttr(r.doc, m, b) ==
            if Joined(from, to, fromName, toName, m, b) && !HasAttr(d, m, b)
            then Some(Decl(b, Message, cat, false)) else FindAttr(d, m, b))
  {
    var d1 := Ensured(d, from, fromName, cat);
    var d2 := Ensured(d1, to, toName, cat);
    var r := MessageConnected(d, from, to, fromName, toName, cat);
    assert r == Step(Done, InputSet(d2, Plug(to, toName), Plug(from, fromName)));
    forall m, b ensures FindAttr(r.doc, m, b) ==
      if Joined(from, to, fromName, toName, m, b) && !HasAttr(d, m, b)
      then Some(Decl(b, Message, cat, false)) else FindAttr(d, m, b)
    {
      EnsuredTwiceLookup(d, from, to, fromName, toName, cat, m, b);
    }
  }

  /** The attributes after both ensures of messageConnect, one plug at a time. */
  lemma EnsuredTwiceLookup(d: Doc, from: Node, to: Node, fromName: Name, toName: Name, cat: string, m: Node, b: Name)
    ensures FindAttr(Ensured(Ensured(d, from, fromName, cat), to, toName, cat), m, b) ==
      if Joined(from, to, fromName, toName, m, b) && !HasAttr(d, m, b)
      then Some(Decl(b, Message, cat, false)) else FindAttr(d, m, b)
  {
    var d1 := Ensured(d, from, fromName, cat);
    EnsuredLookup(d, from, fromName, cat, m, b);
    EnsuredLookup(d, from, fromName, cat, to, toName);
    EnsuredLookup(d1, to, toName, cat, m, b);
  }

  /** Repeating a successful messageConnect changes nothing. */
  lemma MessageConnectedIdempotent(d: Doc, from: Node, to: Node, fromName: Name, toName: Name, cat: string)
    requires MessageConnected(d, from, to, fromName, toName, cat).status == Done
    ensures var d' := MessageConnected(d, from, to, fromName, toName, cat).doc;
      MessageConnected(d', from, to, fromName, toName, cat) == Step(Done, d')
  {
    MessageConnectedLeaves(d, from, to, fromName, toName, cat);
    MessageConnectedPresent(MessageConnected(d, from, to, fromName, toName, cat).doc, from, to, fromName, toName, cat);
  }

  /** After a successful messageConnect both plugs exist and the destination is fed. */
  lemma MessageConnectedLeaves(d: Doc, from: Node, to: Node, fromName: Name, toName: Name, cat: string)
    requires MessageConnected(d, from, to, fromName, toName, cat).status == Done
    ensures var d' := MessageConnected(d, from, to, fromName, toName, cat).doc;
      && from in d'.nodes && to in d'.nodes && HasAttr(d', from, fromName) && HasAttr(d', to, toName)
      && Plug(to, toName) in d'.inputs && d'.inputs[Plug(to, toName)] == Plug(from, fromName)
  {
    MessageConnectedEffect(d, from, to, fromName, toName, cat);
    var d' := MessageConnected(d, from, to, fromName, toName, cat).doc;
    assert FindAttr(d', from, fromName).Some?;
    assert FindAttr(d', to, toName).Some?;
  }

  /** With both attributes present, messageConnect only sets the input. */
  lemma MessageConnectedPresent(d: Doc, from: Node, to: Node, fromName: Name, toName: Name, cat: string)
    requires from != "" && to != "" && fromName != "" && toName != ""
    requires from in d.nodes && to in d.nodes && HasAttr(d, from, fromName) && HasAttr(d, to, toName)
    requires FindAttr(d, to, toName).value.kind == Message
    ensures MessageConnected(d, from, to, fromName, toName, cat) == Step(Done, InputSet(d, Plug(to, toName), Plug(from, fromName)))
    ensures Plug(to, toName) in d.inputs && d.inputs[Plug(to, toName)] == Plug(from, fromName) ==>
      MessageConnected(d, from, to, fromName, toName, cat) == Step(Done, d)
  {
    if Plug(to, toName) in d.inputs && d.inputs[Plug(to, toName)] == Plug(from, fromName) {
      assert d.inputs[Plug(to, toName) := Plug(from, fromName)] == d.inputs;
    }
  }

  /** The category listing of a node after messageConnect: a created attribute joins the
      end of its category's listing; every other listing is unchanged. */
  lemma MessageConnectedListAttr(d: Doc, from: Node, to: Node, fromName: Name, toName: Name, cat: string, m: Node, c: string)
    requires MessageConnected(d, from, to, fromName, toName, cat).status == Done
    ensures var d1 := Ensured(d, from, fromName, cat);
      ListAttr(MessageConnected(d, from, to, fromName, toName, cat).doc, m, c) ==
        ListAttr(d, m, c)
        + (if m == from && !HasAttr(d, from, fromName) && cat == c then [fromName] else [])
        + (if m == to && !HasAttr(d1, to, toName) && cat == c then [toName] else [])
  {
    var d1 := Ensured(d, from, fromName, cat);
    EnsuredListAttr(d, from, fromName, cat, m, c);
    EnsuredListAttr(d1, to, toName, cat, m, c);
  }

  method MessageConnect(h: Host, from: Node, to: Node, fromName: Name, toName: Name, cat: string) returns (s: Status)
    requires h.Valid()
    modifies h
    ensures h.Valid()
    ensures Step(s, h.State()) == MessageConnected(old(h.State()), from, to, fromName, toName, cat)
  {
    if from == "" {
      return Raised(OutOfRange);
    }
    if to == "" {
      return Refused(NoNodes);
    }
    if fromName == "" || toName == "" {
      return Refused(NoNames);
    }
    if from !in h.nodes {
      return Raised(NoSuchNode);
    }
    ghost var d0 := h.State();
    if !HasAttr(h.State(), from, fromName) {
      h.AddAttr(from, Decl(fromName, Message, cat, false));
    }
    assert h.State() == Ensured(d0, from, fromName, cat);
    if to !in h.nodes {
      return Raised(NoSuchNode);
    }
    ghost var d1 := h.State();
    if !HasAttr(h.State(), to, toName) {
      h.AddAttr(to, Decl(toName, Message, cat, false));
    }
    assert h.State() == Ensured(d1, to, toName, cat);
    EnsuredLookup(d0, from, fromName, cat, from, fromName);
    EnsuredLookup(d1, to, toName, cat, from, fromName);
    EnsuredLookup(d1, to, toName, cat, to, toName);
    var f := h.ConnectAttr(Plug(from, fromName), Plug(to, toName));
    s := if f == None then Done else Raised(NotAMessage);
  }

  // ---------------------------------------------------------------- getMetaChildren

  /** getMetaChildren(n): the nodes feeding n.metaChildren in index order; the error
      string for a missing node argument; an exception when the plug does not exist. */
  function GetMetaChildren(d: Doc, n: Node): (r: Reply<seq<Node>>)
    ensures r.Declined? <==> n == ""
    ensures r.Answer? <==> n != "" && HasAttr(d, n, MetaChildren)
    ensures r.Answer? ==> r.value == Children(d, n)
    ensures r.Threw? ==> r.fault == NoSuchAttribute
  {
    if n == "" then Declined(NoNodes)
    else match Listed(d, Plug(n, MetaChildren))
      case Ok(cs) => Answer(cs)
      case Fail(f) => Threw(f)
  }

  // ---------------------------------------------------------------- getAllMetaChildren

  /** The recursion from n never raises: n carries metaChildren, so getMetaChildren
      succeeds on it, and the recursion from each of its children never raises. */
  ghost predicate Traversable(d: Doc, rank: map<Node, nat>, n: Node)
    requires Ranked(d, rank)
    decreases Height(rank, n), 1
  {
    HasAttr(d, n, MetaChildren) && TraversableAll(d, rank, Children(d, n), Height(rank, n))
  }

  ghost predicate TraversableAll(d: Doc, rank: map<Node, nat>, cs: seq<Node>, bound: nat)
    requires Ranked(d, rank)
    requires forall c <- cs :: Height(rank, c) < bound
    decreases bound, 0, |cs|
  {
    cs == [] || (Traversable(d, rank, cs[0]) && TraversableAll(d, rank, cs[1..], bound))
  }

  /** The recursion from n never raises exactly when every node it visits, n included,
      carries metaChildren. */
  lemma {:induction false} TraversableCovers(d: Doc, rank: map<Node, nat>, n: Node)
    requires Ranked(d, rank)
    ensures Traversable(d, rank, n) <==> forall x <- Subtree(d, rank, n) :: HasAttr(d, x, MetaChildren)
    decreases Height(rank, n), 1
  {
    TraversableAllCovers(d, rank, Children(d, n), Height(rank, n));
  }

  lemma {:induction false} TraversableAllCovers(d: Doc, rank: map<Node, nat>, cs: seq<Node>, bound: nat)
    requires Ranked(d, rank)
    requires forall c <- cs :: Height(rank, c) < bound
    ensures TraversableAll(d, rank, cs, bound) <==>
      forall x <- Subtrees(d, rank, cs, bound) :: HasAttr(d, x, MetaChildren)
    decreases bound, 0, |cs|
  {
    if cs != [] {
      TraversableCovers(d, rank, cs[0]);
      TraversableAllCovers(d, rank, cs[1..], bound);
    }
  }

  /** What getAllMetaChildren(n) returns or raises. */
  ghost function MetaDescendants(d: Doc, n: Node): Reply<seq<Node>>
    requires Acyclic(d)
  {
    if n == "" then Declined(NoNodes)
    else if !Traversable(d, SomeRank(d), n) then Threw(NoSuchAttribute)
    else Answer(AllMetaChildren(d, n))
  }

  /** When every listed child carries metaChildren, the traversal from a node that
      carries it never raises. */
  lemma LinkedTraversable(d: Doc, rank: map<Node, nat>, n: Node)
    requires Ranked(d, rank) && Linked(d) && HasAttr(d, n, MetaChildren)
    ensures Traversable(d, rank, n)
  {
    forall x <- Subtree(d, rank, n) ensures HasAttr(d, x, MetaChildren) {
      if x != n {
        assert x in Descendants(d, rank, n);
        ParentInside(d, rank, n, x);
      }
    }
    TraversableCovers(d, rank, n);
  }

  /** One round of the loop: the subtree of the next child is appended to what the
      loop has listed so far, and the loop raises as soon as the recursion from that
      child does. */
  lemma TraversableSuffix(d: Doc, rank: map<Node, nat>, cs: seq<Node>, bound: nat, i: nat,
                          out: seq<Node>, sub: Option<seq<Node>>)
    requires Ranked(d, rank) && forall c <- cs :: Height(rank, c) < bound
    requires i < |cs|
    requires out + Subtrees(d, rank, cs[i..], bound) == Subtrees(d, rank, cs, bound)
    requires TraversableAll(d, rank, cs, bound) <==> TraversableAll(d, rank, cs[i..], bound)
    requires sub.Some? <==> Traversable(d, rank, cs[i])
    requires sub.Some? ==> sub.value == Subtree(d, rank, cs[i])
    ensures sub.None? ==> !TraversableAll(d, rank, cs, bound)
    ensures sub.Some? ==> out + sub.value + Subtrees(d, rank, cs[i + 1..], bound) == Subtrees(d, rank, cs, bound)
    ensures sub.Some? ==> (TraversableAll(d, rank, cs, bound) <==> TraversableAll(d, rank, cs[i + 1..], bound))
  {
    assert cs[i..][0] == cs[i] && cs[i..][1..] == cs[i + 1..];
    if sub.Some? {
      assert out + sub.value + Subtrees(d, rank, cs[i + 1..], bound) == out + Subtrees(d, rank, cs[i..], bound);
    }
  }

  /** The nested helper: the subtree of n, or failure where getMetaChildren raises. */
  method CollectSubtree(d: Doc, ghost rank: map<Node, nat>, n: Node) returns (r: Option<seq<Node>>)
    requires Ranked(d, rank)
    ensures r.Some? <==> Traversable(d, rank, n)
    ensures r.Some? ==> r.value == Subtree(d, rank, n)
    decreases Height(rank, n), 1
  {
    if !HasAttr(d, n, MetaChildren) {
      return None;
    }
    ChildrenBelow(d, rank, n);
    var sub := CollectSubtrees(d, rank, Children(d, n), Height(rank, n));
    if sub.None? {
      return None;
    }
    r := Some(sub.value + [n]);
  }

  /** The loop over a list of children, calling the helper on each in turn. */
  method CollectSubtrees(d: Doc, ghost rank: map<Node, nat>, cs: seq<Node>, ghost bound: nat)
    returns (r: Option<seq<Node>>)
    requires Ranked(d, rank)
    requires forall c <- cs :: Height(rank, c) < bound
    ensures r.Some? <==> TraversableAll(d, rank, cs, bound)
    ensures r.Some? ==> r.value == Subtrees(d, rank, cs, bound)
    decreases bound, 0
  {
    var out := [];
    var i := 0;
    while i < |cs|
      invariant 0 <= i <= |cs|
      invariant out + Subtrees(d, rank, cs[i..], bound) == Subtrees(d, rank, cs, bound)
      invariant TraversableAll(d, rank, cs, bound) <==> TraversableAll(d, rank, cs[i..], bound)
    {
      var sub := CollectSubtree(d, rank, cs[i]);
      TraversableSuffix(d, rank, cs, bound, i, out, sub);
      if sub.None? {
        return None;
      }
      out := out + sub.value;
      i := i + 1;
    }
    assert cs[i..] == [];
    r := Some(out);
  }

  /** getAllMetaChildren(n): the post-order listing of n's descendants. */
  method GetAllMetaChildren(d: Doc, n: Node) returns (r: Reply<seq<Node>>)
    requires Acyclic(d)
    ensures r == MetaDescendants(d, n)
  {
    if n == "" {
      return Declined(NoNodes);
    }
    ghost var rank := SomeRank(d);
    if !HasAttr(d, n, MetaChildren) {
      return Threw(NoSuchAttribute);
    }
    ChildrenBelow(d, rank, n);
    var all := CollectSubtrees(d, rank, Children(d, n), Height(rank, n));
    if all.None? {
      return Threw(NoSuchAttribute);
    }
    assert all.value == AllMetaChildren(d, n);
    r := Answer(all.value);
  }

  // ---------------------------------------------------------------- parentConnect

  /** list.index: the position of the first occurrence. */
  function IndexOf(xs: seq<Node>, x: Node): (i: nat)
    requires x in xs
    ensures i < |xs| && xs[i] == x && x !in xs[..i]
  {
    if xs[0] == x then 0
    else
      var j := IndexOf(xs[1..], x);
      assert xs[..j + 1] == [xs[0]] + xs[1..][..j];
      j + 1
  }

  /** The first element of an array fed by plug p. */
  function SlotIndex(s: Slots, p: Plug): (r: Option<nat>)
    ensures r.None? <==> Some(p) !in s
    ensures r.Some? ==> r.value < |s| && s[r.value] == Some(p)
  {
    if s == [] then None
    else if s[0] == Some(p) then Some(0)
    else match SlotIndex(s[1..], p)
      case None => None
      case Some(i) => Some(i + 1)
  }

  /** Lines 95-101 as written: the child leaves its old parent's metaChildren at the
      element whose index is the child's position in the listing. A None child (the old
      schema's getMetaNode can give one) lists 'None.metaParent' and is never in the list. */
  function DetachedAsWritten(d: Doc, child: Node): Step {
    match Listed(d, Plug(Shown(child), MetaParent))
    case Fail(f) => Step(Raised(f), d)
    case Ok(parents) =>
      if parents == [] then Step(Done, d)
      else match Listed(d, Plug(parents[0], MetaChildren))
        case Fail(f) => Step(Raised(f), d)
        case Ok(mcs) =>
          if child == "" || child !in mcs then Step(Raised(NotInList), d)
          else match ElementDisconnected(d, Plug(child, MessageAttr), Plug(parents[0], MetaChildren), IndexOf(mcs, child))
            case Fail(f) => Step(Raised(f), d)
            case Ok(d1) => Step(Done, d1)
  }

  /** Line 107: metaParent is fed by the parent; only an exception ends parentConnect early. */
  function ParentLinked(d: Doc, parent: Node, child: Node): Step {
    var m := MessageConnected(d, parent, child, MessageAttr, MetaParent, NoCategory);
    Step(if m.status.Raised? then m.status else Done, m.doc)
  }

  /** len(getMetaChildren(parent)): for a None parent, the length of the error string. */
  function ChildCount(d: Doc, parent: Node): Result<nat> {
    match GetMetaChildren(d, parent)
    case Answer(mcs) => Ok(|mcs|)
    case Declined(_) => Ok(|ChildrenPrompt|)
    case Threw(f) => Fail(f)
  }

  /** Lines 103-107 as written: connect at the element whose index is the number of
      children listed, then messageConnect(parent, child), which raises for a None
      parent and returns its error string for a None child. */
  function AttachedAsWritten(d: Doc, parent: Node, child: Node): Step {
    match ChildCount(d, parent)
    case Fail(f) => Step(Raised(f), d)
    case Ok(n) =>
      match ElementConnected(d, Plug(Shown(child), MessageAttr), Plug(Shown(parent), MetaChildren), n)
      case Fail(f) => Step(Raised(f), d)
      case Ok(d1) => ParentLinked(d1, parent, child)
  }

  /** The detachment as written only empties array elements. */
  lemma DetachedAsWrittenNodes(d: Doc, child: Node)
    ensures DetachedAsWritten(d, child).doc.nodes == d.nodes
  {
  }

  /** Lines 95-107 as written: the detachment, then the attachment unless it raised. */
  function MovedAsWritten(d: Doc, parent: Node, child: Node): Step {
    var s := DetachedAsWritten(d, child);
    if s.status.Raised? then s else AttachedAsWritten(s.doc, parent, child)
  }

  /** parentConnect as written, after its argument check (lines 92-107). With a None
      child, getAllMetaChildren returns its error string and `in` tests for a substring:
      a None parent raises, and a parent whose name occurs in the string is refused. */
  ghost function RelinkedAsWritten(d: Doc, parent: Node, child: Node): Step
    requires Acyclic(d)
  {
    match MetaDescendants(d, child)
    case Threw(f) => Step(Raised(f), d)
    case Declined(_) =>
      if parent == "" then Step(Raised(NotAString), d)
      else if InString(parent, DescendantsPrompt) then Step(Refused(IsDescendant), d)
      else MovedAsWritten(d, parent, child)
    case Answer(ds) =>
      if parent != "" && parent in ds then Step(Refused(IsDescendant), d)
      else MovedAsWritten(d, parent, child)
  }

  /** parentConnect(parent, child) as written (lines 79-107). The selection is empty: a
      missing parent makes the validation index it and raise; a missing child alone
      returns the argument-error string. */
  ghost function ParentConnectedAsWritten(d: Doc, parent: Node, child: Node): Step
    requires Acyclic(d)
  {
    if parent == "" then Step(Raised(OutOfRange), d)
    else if child == "" then Step(Refused(NoNodes), d)
    else RelinkedAsWritten(d, parent, child)
  }

  /** The corrected detachment: empty the element that holds child.message. */
  function Detached(d: Doc, child: Node): (r: Step)
    ensures !r.status.Refused?
    ensures r.status.Raised? ==> r.doc == d
  {
    match Listed(d, Plug(child, MetaParent))
    case Fail(f) => Step(Raised(f), d)
    case Ok(parents) =>
      if parents == [] then Step(Done, d)
      else if !HasAttr(d, parents[0], MetaChildren) then Step(Raised(NoSuchAttribute), d)
      else match SlotIndex(SlotsOf(d, Plug(parents[0], MetaChildren)), Plug(child, MessageAttr))
        case None => Step(Raised(NotInList), d)
        case Some(i) =>
          match ElementDisconnected(d, Plug(child, MessageAttr), Plug(parents[0], MetaChildren), i)
          case Fail(f) => Step(Raised(f), d)
          case Ok(d1) => Step(Done, d1)
  }

  /** The corrected attachment: connect at the first index past the array's last element. */
  function Attached(d: Doc, parent: Node, child: Node): (r: Step)
    ensures !r.status.Refused?
  {
    if !HasAttr(d, parent, MetaChildren) then Step(Raised(NoSuchAttribute), d)
    else match ElementConnected(d, Plug(child, MessageAttr), Plug(parent, MetaChildren), |SlotsOf(d, Plug(parent, MetaChildren))|)
      case Fail(f) => Step(Raised(f), d)
      case Ok(d1) => ParentLinked(d1, parent, child)
  }

  /** The corrected re-parenting, shared by both schemas. The old schema passes None when
      the parent has no meta network: the child is still detached, then the attachment raises. */
  ghost function Relinked(d: Doc, parent: Option<Node>, child: Node): Step
    requires Acyclic(d) && child != ""
  {
    if !Traversable(d, SomeRank(d), child) then Step(Raised(NoSuchAttribute), d)
    else if parent == Some(child) then Step(Refused(SelfParent), d)
    else if parent.Some? && parent.value in AllMetaChildren(d, child) then Step(Refused(IsDescendant), d)
    else
      var s := Detached(d, child);
      if s.status.Raised? then s
      else if parent.None? then Step(Raised(NotMeta), s.doc)
      else Attached(s.doc, parent.value, child)
  }

  /** parentConnect(parent, child), corrected. */
  ghost function ParentConnected(d: Doc, parent: Node, child: Node): Step
    requires Acyclic(d)
  {
    if parent == "" then Step(Raised(OutOfRange), d)
    else if child == "" then Step(Refused(NoNodes), d)
    else Relinked(d, Some(parent), child)
  }

  /** getMetaChildren(oldParent[0]), then list.index and disconnectAttr (lines 95-101). */
  method Detach(h: Host, child: Node) returns (s: Status)
    requires h.Valid()
    modifies h
    ensures h.Valid()
    ensures Step(s, h.State()) == DetachedAsWritten(old(h.State()), child)
  {
    var shown := Shown(child);
    if !HasAttr(h.State(), shown, MetaParent) {
      return Raised(NoSuchAttribute);
    }
    var parents := ListConnections(h.State(), Plug(shown, MetaParent));
    if parents == [] {
      return Done;
    }
    if !HasAttr(h.State(), parents[0], MetaChildren) {
      return Raised(NoSuchAttribute);
    }
    var mcs := ListConnections(h.State(), Plug(parents[0], MetaChildren));
    if child == "" || child !in mcs {
      return Raised(NotInList);
    }
    var f := h.DisconnectElement(Plug(child, MessageAttr), Plug(parents[0], MetaChildren), IndexOf(mcs, child));
    s := if f.Some? then Raised(f.value) else Done;
  }

  /** connectAttr at index len(getMetaChildren(parent)), then messageConnect (lines 103-107). */
  method Attach(h: Host, parent: Node, child: Node) returns (s: Status)
    requires h.Valid()
    modifies h
    ensures h.Valid()
    ensures Step(s, h.State()) == AttachedAsWritten(old(h.State()), parent, child)
  {
    var kids := GetMetaChildren(h.State(), parent);
    if kids.Threw? {
      return Raised(kids.fault);
    }
    var n := if kids.Answer? then |kids.value| else |ChildrenPrompt|;
    var f := h.ConnectElement(Plug(Shown(child), MessageAttr), Plug(Shown(parent), MetaChildren), n);
    if f.Some? {
      return Raised(f.value);
    }
    var m := MessageConnect(h, parent, child, MessageAttr, MetaParent, NoCategory);
    s := if m.Raised? then m else Done;
  }

  /** The descendant check of line 92, then the detachment and the attachment. */
  method Relink(h: Host, parent: Node, child: Node) returns (s: Status)
    requires h.Valid() && Acyclic(h.State())
    modifies h
    ensures h.Valid()
    ensures Step(s, h.State()) == RelinkedAsWritten(old(h.State()), parent, child)
  {
    var desc := GetAllMetaChildren(h.State(), child);
    if desc.Threw? {
      return Raised(desc.fault);
    }
    if desc.Declined? {
      if parent == "" {
        return Raised(NotAString);
      }
      if InString(parent, DescendantsPrompt) {
        return Refused(IsDescendant);
      }
    } else if parent != "" && parent in desc.value {
      return Refused(IsDescendant);
    }
    s := Detach(h, child);
    if s.Raised? {
      return;
    }
    s := Attach(h, parent, child);
  }

  /** parentConnect(parent, child) as written. */
  method ParentConnect(h: Host, parent: Node, child: Node) returns (s: Status)
    requires h.Valid() && Acyclic(h.State())
    modifies h
    ensures h.Valid()
    ensures Step(s, h.State()) == ParentConnectedAsWritten(old(h.State()), parent, child)
  {
    if parent == "" {
      return Raised(OutOfRange);
    }
    if child == "" {
      return Refused(NoNodes);
    }
    s := Relink(h, parent, child);
  }

  // ---------------------------------------------------------------- what parentConnect does

  /** The node feeding child.metaParent, if any: the parent parentConnect detaches from. */
  function FormerParent(d: Doc, child: Node): Option<Node> {
    var ps := ListConnections(d, Plug(child, MetaParent));
    if ps == [] then None else Some(ps[0])
  }

  /** ys is xs with one occurrence of c taken out. */
  ghost predicate RemovedOnce(xs: seq<Node>, ys: seq<Node>, c: Node) {
    exists k :: 0 <= k < |xs| && xs[k] == c && ys == xs[..k] + xs[k + 1..]
  }

  lemma RemovedAt(a: seq<Node>, c: Node, b: seq<Node>)
    ensures RemovedOnce(a + [c] + b, a + b, c)
  {
    var xs := a + [c] + b;
    assert xs[|a|] == c;
    assert xs[..|a|] == a && xs[|a| + 1..] == b;
  }

  lemma RemovedSubset(xs: seq<Node>, ys: seq<Node>, c: Node)
    requires RemovedOnce(xs, ys, c)
    ensures forall y <- ys :: y in xs
  {
    var k :| 0 <= k < |xs| && xs[k] == c && ys == xs[..k] + xs[k + 1..];
    forall y <- ys ensures y in xs {
      if y in xs[..k] {
        var j :| 0 <= j < k && xs[..k][j] == y;
        assert xs[j] == y;
      } else {
        var j :| 0 <= j < |xs[k + 1..]| && xs[k + 1..][j] == y;
        assert xs[k + 1 + j] == y;
      }
    }
  }

  /** A node listed once is gone after one occurrence is taken out. */
  lemma RemovedDistinct(xs: seq<Node>, ys: seq<Node>, c: Node)
    requires Distinct(xs) && RemovedOnce(xs, ys, c)
    ensures c !in ys
  {
  }

  /** Replacing the elements of n.metaChildren changes n's listing to the new elements
      and no other node's listing. */
  lemma ArraySetChildren(d: Doc, n: Node, s: Slots)
    ensures var P := Plug(n, MetaChildren);
      var d' := d.(arrays := d.arrays[P := s]);
      && Children(d', n) == (if P in d.inputs then [d.inputs[P].node] else []) + Placed(s)
      && forall x :: x != n ==> Children(d', x) == Children(d, x)
  {
  }

  /** Emptying element i of n.metaChildren takes that element's node out of n's listing
      once, and leaves the other listings alone. */
  lemma ClearedChildren(d: Doc, n: Node, i: nat)
    requires i < |SlotsOf(d, Plug(n, MetaChildren))| && SlotsOf(d, Plug(n, MetaChildren))[i].Some?
    ensures var P := Plug(n, MetaChildren);
      var d' := d.(arrays := d.arrays[P := SlotsOf(d, P)[i := None]]);
      && RemovedOnce(Children(d, n), Children(d', n), SlotsOf(d, P)[i].value.node)
      && forall x :: x != n ==> Children(d', x) == Children(d, x)
  {
    var P := Plug(n, MetaChildren);
    var S := SlotsOf(d, P);
    var I := if P in d.inputs then [d.inputs[P].node] else [];
    ArraySetChildren(d, n, S[i := None]);
    ClearedOnce(I, S, i);
    assert Children(d, n) == I + Placed(S);
  }

  /** Emptying element i of a listing's slots takes that element's node out once. */
  lemma ClearedOnce(I: seq<Node>, S: Slots, i: nat)
    requires i < |S| && S[i].Some?
    ensures RemovedOnce(I + Placed(S), I + Placed(S[i := None]), S[i].value.node)
  {
    var A := I + Placed(S[..i]);
    var B := Placed(S[i + 1..]);
    var c := S[i].value.node;
    ClearedListing(S, i);
    assert I + Placed(S) == A + [c] + B;
    assert I + Placed(S[i := None]) == A + B;
    RemovedAt(A, c, B);
  }

  /** Feeding the element past the end of n.metaChildren appends to n's listing alone. */
  lemma AppendedChildren(d: Doc, n: Node, p: Plug)
    ensures var P := Plug(n, MetaChildren);
      var d' := d.(arrays := d.arrays[P := SlotsOf(d, P) + [Some(p)]]);
      && Children(d', n) == Children(d, n) + [p.node]
      && forall x :: x != n ==> Children(d', x) == Children(d, x)
  {
    ArraySetChildren(d, n, SlotsOf(d, Plug(n, MetaChildren)) + [Some(p)]);
    PlacedAppend(SlotsOf(d, Plug(n, MetaChildren)), Some(p));
  }

  /** The corrected detachment takes the child out of its former parent's listing once,
      and touches no other listing and nothing but that one array. */
  lemma DetachedEffect(d: Doc, child: Node)
    requires Detached(d, child).status.Done?
    ensures var d' := Detached(d, child).doc;
      && d'.nodes == d.nodes && d'.attrs == d.attrs && d'.values == d.values && d'.inputs == d.inputs
      && (forall q :: |SlotsOf(d', q)| == |SlotsOf(d, q)|)
      && match FormerParent(d, child)
         case None => d' == d
         case Some(op) =>
           && RemovedOnce(Children(d, op), Children(d', op), child)
           && (forall x :: x != op ==> Children(d', x) == Children(d, x))
           && forall x :: x != op ==> SlotsOf(d', Plug(x, MetaChildren)) == SlotsOf(d, Plug(x, MetaChildren))
  {
    var ps := ListConnections(d, Plug(child, MetaParent));
    if ps != [] {
      var P := Plug(ps[0], MetaChildren);
      var i := SlotIndex(SlotsOf(d, P), Plug(child, MessageAttr)).value;
      assert Detached(d, child).doc == d.(arrays := d.arrays[P := SlotsOf(d, P)[i := None]]);
      ClearedChildren(d, ps[0], i);
    }
  }

  /** The detachment keeps the nodes, the attributes and the inputs. */
  lemma DetachedFrame(d: Doc, mc: Node)
    requires Detached(d, mc).status.Done?
    ensures var d1 := Detached(d, mc).doc;
      d1.nodes == d.nodes && d1.attrs == d.attrs && d1.inputs == d.inputs
  {
    DetachedEffect(d, mc);
  }

  /** The detachment changes no listing but the former parent's. */
  lemma DetachedKeeps(d: Doc, mc: Node, x: Node)
    requires Detached(d, mc).status.Done? && FormerParent(d, mc) != Some(x)
    ensures Children(Detached(d, mc).doc, x) == Children(d, x)
  {
    DetachedEffect(d, mc);
  }

  /** The detachment keeps every other node's metaChildren packed. */
  lemma DetachedKeepsPacked(d: Doc, mc: Node, x: Node)
    requires Detached(d, mc).status.Done? && FormerParent(d, mc) != Some(x) && Packed(d, x)
    ensures Packed(Detached(d, mc).doc, x)
  {
    DetachedEffect(d, mc);
  }

  lemma DetachedSlotCount(d: Doc, mc: Node, q: Plug)
    requires Detached(d, mc).status.Done?
    ensures |SlotsOf(Detached(d, mc).doc, q)| == |SlotsOf(d, q)|
  {
    DetachedEffect(d, mc);
  }

  /** The corrected attachment feeds the element just past the end of the parent's array,
      so the child joins the end of the parent's listing, and feeds child.metaParent
      from the parent. */
  lemma AttachedEffect(d: Doc, parent: Node, child: Node)
    requires parent != "" && child != "" && Attached(d, parent, child).status.Done?
    ensures var d' := Attached(d, parent, child).doc;
      && d'.nodes == d.nodes
      && SlotsOf(d', Plug(parent, MetaChildren)) == SlotsOf(d, Plug(parent, MetaChildren)) + [Some(Plug(child, MessageAttr))]
      && Children(d', parent) == Children(d, parent) + [child]
      && (forall x :: x != parent ==> Children(d', x) == Children(d, x))
      && d'.inputs == d.inputs[Plug(child, MetaParent) := Plug(parent, MessageAttr)]
      && (forall n, a :: HasAttr(d, n, a) ==> HasAttr(d', n, a))
  {
    var P := Plug(parent, MetaChildren);
    var S := SlotsOf(d, P);
    PlaceAtEnd(S, Plug(child, MessageAttr));
    var d1 := d.(arrays := d.arrays[P := S + [Some(Plug(child, MessageAttr))]]);
    assert ElementConnected(d, Plug(child, MessageAttr), P, |S|) == Ok(d1);
    AppendedChildren(d, parent, Plug(child, MessageAttr));
    LinkedEffect(d1, parent, child);
  }

  /** Line 107 changes only child.metaParent's input and adds attributes. */
  lemma LinkedEffect(d: Doc, parent: Node, child: Node)
    requires parent != "" && child != "" && parent in d.nodes && child in d.nodes && Receives(d, child, MetaParent)
    ensures var d' := ParentLinked(d, parent, child).doc;
      && ParentLinked(d, parent, child).status == Done
      && d'.nodes == d.nodes && d'.arrays == d.arrays
      && (forall x :: Children(d', x) == Children(d, x))
      && d'.inputs == d.inputs[Plug(child, MetaParent) := Plug(parent, MessageAttr)]
      && (forall n, a :: HasAttr(d, n, a) ==> HasAttr(d', n, a))
  {
    MessageConnectedEffect(d, parent, child, MessageAttr, MetaParent, NoCategory);
    var d' := ParentLinked(d, parent, child).doc;
    forall x ensures Children(d', x) == Children(d, x) {
      assert Plug(x, MetaChildren) != Plug(child, MetaParent);
    }
  }

  // ---------------------------------------------------------------- parentConnect, corrected

  /** parentConnect refuses, changing nothing, when the parent is reachable from the child
      along metaChildren edges; so does the code as written. */
  lemma ParentConnectRefusesDescendant(d: Doc, parent: Node, child: Node)
    requires Acyclic(d) && parent != "" && child != ""
    requires Traversable(d, SomeRank(d), child) && Reaches(d, child, parent)
    ensures ParentConnected(d, parent, child) == Step(Refused(IsDescendant), d)
    ensures ParentConnectedAsWritten(d, parent, child) == Step(Refused(IsDescendant), d)
  {
    DescendantsAreReachable(d, SomeRank(d), child, parent);
    DescendantsExcludeStart(d, SomeRank(d), child);
  }

  /** A successful parentConnect: child.metaParent is fed by the parent, child.message
      feeds the element just past the end of the parent's array, and no attribute
      disappears. */
  lemma ParentConnectedWiring(d: Doc, parent: Node, child: Node)
    requires Acyclic(d) && ParentConnected(d, parent, child).status.Done?
    ensures var d' := ParentConnected(d, parent, child).doc;
      var P := Plug(parent, MetaChildren);
      && d'.inputs == d.inputs[Plug(child, MetaParent) := Plug(parent, MessageAttr)]
      && |SlotsOf(d', P)| == |SlotsOf(d, P)| + 1 && SlotsOf(d', P)[|SlotsOf(d, P)|] == Some(Plug(child, MessageAttr))
      && (forall n, a :: HasAttr(d, n, a) ==> HasAttr(d', n, a))
  {
    ParentConnectedSteps(d, parent, child);
    DetachedFrame(d, child);
    DetachedSlotCount(d, child, Plug(parent, MetaChildren));
    AttachedEffect(Detached(d, child).doc, parent, child);
  }

  /** A successful parentConnect takes the child out of its former parent's listing once
      and puts it at the end of the parent's listing; no other listing changes. */
  lemma ParentConnectedEffect(d: Doc, parent: Node, child: Node)
    requires Acyclic(d) && ParentConnected(d, parent, child).status.Done?
    ensures var d' := ParentConnected(d, parent, child).doc;
      match FormerParent(d, child)
      case None =>
        && Children(d', parent) == Children(d, parent) + [child]
        && forall x :: x != parent ==> Children(d', x) == Children(d, x)
      case Some(op) =>
        && (op != parent ==> && RemovedOnce(Children(d, op), Children(d', op), child)
                             && Children(d', parent) == Children(d, parent) + [child])
        && (op == parent ==> exists ys :: RemovedOnce(Children(d, parent), ys, child)
                                           && Children(d', parent) == ys + [child])
        && forall x :: x != parent && x != op ==> Children(d', x) == Children(d, x)
  {
    var d1 := Detached(d, child).doc;
    ParentConnectedSteps(d, parent, child);
    DetachedEffect(d, child);
    AttachedEffect(d1, parent, child);
    match FormerParent(d, child)
    case None =>
    case Some(op) =>
      if op == parent {
        assert RemovedOnce(Children(d, parent), Children(d1, parent), child);
      }
  }

  /** A successful parentConnect is a successful detachment followed by a successful attachment. */
  lemma ParentConnectedSteps(d: Doc, parent: Node, child: Node)
    requires Acyclic(d) && ParentConnected(d, parent, child).status.Done?
    ensures parent != "" && child != "" && parent != child && parent !in AllMetaChildren(d, child)
    ensures HasAttr(d, child, MetaChildren)
    ensures Detached(d, child).status.Done?
    ensures ParentConnected(d, parent, child) == Attached(Detached(d, child).doc, parent, child)
  {
    assert parent != "" && child != "";
    RelinkedSteps(d, parent, child);
  }

  /** Conversely, once the checks pass and the detachment succeeds, parentConnect is the attachment. */
  lemma ParentConnectedFromSteps(d: Doc, parent: Node, child: Node)
    requires Acyclic(d) && parent != "" && child != "" && parent != child
    requires Traversable(d, SomeRank(d), child) && parent !in AllMetaChildren(d, child)
    requires Detached(d, child).status.Done?
    ensures ParentConnected(d, parent, child) == Attached(Detached(d, child).doc, parent, child)
  {
  }

  lemma ParentConnectedAsWrittenFromSteps(d: Doc, parent: Node, child: Node)
    requires Acyclic(d) && parent != "" && child != ""
    requires Traversable(d, SomeRank(d), child) && parent !in AllMetaChildren(d, child)
    ensures var s := DetachedAsWritten(d, child);
      ParentConnectedAsWritten(d, parent, child) == if s.status.Raised? then s else AttachedAsWritten(s.doc, parent, child)
  {
  }

  lemma RelinkedSteps(d: Doc, parent: Node, child: Node)
    requires Acyclic(d) && child != "" && Relinked(d, Some(parent), child).status.Done?
    ensures parent != child && parent !in AllMetaChildren(d, child)
    ensures HasAttr(d, child, MetaChildren)
    ensures Detached(d, child).status.Done?
    ensures Relinked(d, Some(parent), child) == Attached(Detached(d, child).doc, parent, child)
  {
    var rank := SomeRank(d);
    assert Traversable(d, rank, child);
  }

  /** Every metaChildren edge after a successful parentConnect was there before, except
      the new edge from the parent to the child. */
  lemma ParentConnectedEdges(d: Doc, parent: Node, child: Node, x: Node, c: Node)
    requires Acyclic(d) && ParentConnected(d, parent, child).status.Done?
    requires c in Children(ParentConnected(d, parent, child).doc, x)
    ensures c in Children(d, x) || (x == parent && c == child)
  {
    ParentConnectedEffect(d, parent, child);
    var d' := ParentConnected(d, parent, child).doc;
    match FormerParent(d, child)
    case None =>
    case Some(op) =>
      if x == op && op != parent {
        RemovedSubset(Children(d, op), Children(d', op), child);
      } else if x == parent && op == parent {
        var ys :| RemovedOnce(Children(d, parent), ys, child) && Children(d', parent) == ys + [child];
        RemovedSubset(Children(d, parent), ys, child);
      }
  }

  /** parentConnect keeps the metaChildren graph acyclic, so later traversals terminate. */
  lemma ParentConnectedAcyclic(d: Doc, parent: Node, child: Node)
    requires Acyclic(d) && ParentConnected(d, parent, child).status.Done?
    ensures Acyclic(ParentConnected(d, parent, child).doc)
  {
    var rank := SomeRank(d);
    var d' := ParentConnected(d, parent, child).doc;
    ParentConnectedSteps(d, parent, child);
    assert Subtree(d, rank, child) == Descendants(d, rank, child) + [child];
    forall x, c | c in Children(d', x) ensures c in Children(d, x) || (x == parent && c == child) {
      ParentConnectedEdges(d, parent, child, x, c);
    }
    RerankedAcyclic(d, d', rank, parent, child);
  }

  /** parentConnect keeps every listed child carrying a metaChildren attribute. */
  lemma ParentConnectedLinked(d: Doc, parent: Node, child: Node)
    requires Acyclic(d) && Linked(d) && ParentConnected(d, parent, child).status.Done?
    ensures Linked(ParentConnected(d, parent, child).doc)
  {
    var d' := ParentConnected(d, parent, child).doc;
    ParentConnectedSteps(d, parent, child);
    ParentConnectedWiring(d, parent, child);
    forall x, c | c in Children(d', x) ensures HasAttr(d', c, MetaChildren) {
      ParentConnectedEdges(d, parent, child, x, c);
    }
  }

  /** In a forest the child leaves its former parent's listing entirely. */
  lemma ParentConnectedLeavesFormerParent(d: Doc, parent: Node, child: Node)
    requires Acyclic(d) && SingleParent(d) && ParentConnected(d, parent, child).status.Done?
    requires FormerParent(d, child).Some? && FormerParent(d, child).value != parent
    ensures child !in Children(ParentConnected(d, parent, child).doc, FormerParent(d, child).value)
  {
    ParentConnectedEffect(d, parent, child);
    var op := FormerParent(d, child).value;
    RemovedDistinct(Children(d, op), Children(ParentConnected(d, parent, child).doc, op), child);
  }

  // ---------------------------------------------------------------- where the code as written is right

  /** n.metaChildren has no holes, every element is fed by a message plug, and it has no
      single input: the shape in which a position in the listing is also an element index. */
  ghost predicate Packed(d: Doc, n: Node) {
    var s := SlotsOf(d, Plug(n, MetaChildren));
    && Plug(n, MetaChildren) !in d.inputs
    && forall i | 0 <= i < |s| :: s[i].Some? && s[i].value.attr == MessageAttr
  }

  lemma {:induction false} PackedIndex(s: Slots, c: Node)
    requires forall i | 0 <= i < |s| :: s[i].Some? && s[i].value.attr == MessageAttr
    ensures |Placed(s)| == |s|
    ensures c in Placed(s) <==> SlotIndex(s, Plug(c, MessageAttr)).Some?
    ensures c in Placed(s) ==> SlotIndex(s, Plug(c, MessageAttr)) == Some(IndexOf(Placed(s), c))
    decreases |s|
  {
    if s != [] {
      PackedIndex(s[1..], c);
      assert Placed(s) == [s[0].value.node] + Placed(s[1..]);
    }
  }

  lemma DetachedWhenPacked(d: Doc, child: Node)
    requires child != ""
    requires FormerParent(d, child).Some? ==> Packed(d, FormerParent(d, child).value)
    ensures DetachedAsWritten(d, child) == Detached(d, child)
  {
    var ps := ListConnections(d, Plug(child, MetaParent));
    if HasAttr(d, child, MetaParent) && ps != [] && HasAttr(d, ps[0], MetaChildren) {
      var P := Plug(ps[0], MetaChildren);
      var S := SlotsOf(d, P);
      var m := Plug(child, MessageAttr);
      assert FormerParent(d, child) == Some(ps[0]);
      assert ListConnections(d, P) == Placed(S) by {
        assert [] + Placed(S) == Placed(S);
      }
      assert Listed(d, P) == Ok(Placed(S));
      PackedIndex(S, child);
      if child in Placed(S) {
        var i := IndexOf(Placed(S), child);
        assert DetachedAsWritten(d, child) == match ElementDisconnected(d, m, P, i)
          case Fail(f) => Step(Raised(f), d)
          case Ok(d1) => Step(Done, d1);
      }
    }
  }

  lemma AttachedWhenPacked(d: Doc, parent: Node, child: Node)
    requires parent != "" && child != "" && Packed(d, parent)
    ensures AttachedAsWritten(d, parent, child) == Attached(d, parent, child)
  {
    PackedIndex(SlotsOf(d, Plug(parent, MetaChildren)), child);
  }

  /** While the arrays it reads are packed and the child moves to a different node,
      parentConnect as written does what the corrected one does. */
  lemma ParentConnectedWhenPacked(d: Doc, parent: Node, child: Node)
    requires Acyclic(d) && parent != child && Packed(d, parent)
    requires FormerParent(d, child).Some? ==>
      Packed(d, FormerParent(d, child).value) && FormerParent(d, child).value != parent
    ensures ParentConnectedAsWritten(d, parent, child) == ParentConnected(d, parent, child)
  {
    if parent != "" && child != "" && Traversable(d, SomeRank(d), child) && parent !in AllMetaChildren(d, child) {
      DetachedWhenPacked(d, child);
      var s := Detached(d, child);
      if s.status.Done? {
        DetachedKeepsPacked(d, child, parent);
        AttachedWhenPacked(s.doc, parent, child);
      }
    }
  }
}
