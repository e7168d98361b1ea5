/** The host scene as the cmds module sees it: nodes, the dynamic attributes
    of each node in creation order, attribute values, and the connections
    between plugs. A plug that is not an array has at most one input; an
    array (multi) plug holds a sparse index-to-source table. */
module Scene {
  import opened Outcomes

  type Node = string
  type Name = string

  datatype Kind = Message | Enum | Text | Short | Short2

  /** One attribute as addAttr declares it: long name, type, category and multi flag. */
  datatype Decl = Decl(name: Name, kind: Kind, category: string, multi: bool)

  datatype Plug = Plug(node: Node, attr: Name)

  datatype Value = IntV(i: int) | StrV(s: string)

  /** The elements of a multi attribute by index; `None` is an index without an input. */
  type Slots = seq<Option<Plug>>

  /** The category of an attribute added with `category=None`. */
  const NoCategory: string := ""

  /** The static `message` attribute every node carries. */
  const MessageDecl: Decl := Decl("message", Message, NoCategory, false)

  datatype Doc = Doc(
    nodes: set<Node>,
    attrs: map<Node, seq<Decl>>,
    values: map<Plug, Value>,
    inputs: map<Plug, Plug>,   // a plug that is not an array -> the plug that feeds it
    arrays: map<Plug, Slots>)  // an array plug -> its elements

  // ---------------------------------------------------------------- attribute tables

  /** The declaration named `a`, if any (attributeQuery -exists). */
  function Lookup(ds: seq<Decl>, a: Name): (r: Option<Decl>)
    ensures r.Some? ==> r.value in ds && r.value.name == a
    ensures r.None? <==> forall x <- ds :: x.name != a
  {
    if ds == [] then None
    else if ds[0].name == a then Some(ds[0])
    else Lookup(ds[1..], a)
  }

  /** The names of the attributes of category `c`, in creation order (listAttr -category). */
  function InCategory(ds: seq<Decl>, c: string): (r: seq<Name>)
    ensures forall a <- r :: exists x <- ds :: x.name == a && x.category == c
    ensures forall x <- ds :: x.category == c ==> x.name in r
  {
    if ds == [] then []
    else (if ds[0].category == c then [ds[0].name] else []) + InCategory(ds[1..], c)
  }

  ghost predicate UniqueNames(ds: seq<Decl>) {
    forall i, j :: 0 <= i < j < |ds| ==> ds[i].name != ds[j].name
  }

  lemma {:induction false} LookupAppend(ds: seq<Decl>, x: Decl, a: Name)
    ensures Lookup(ds + [x], a) ==
      if Lookup(ds, a).Some? then Lookup(ds, a) else if x.name == a then Some(x) else None
  {
    if ds != [] {
      assert (ds + [x])[1..] == ds[1..] + [x];
      LookupAppend(ds[1..], x, a);
    }
  }

  lemma {:induction false} InCategoryAppend(ds: seq<Decl>, x: Decl, c: string)
    ensures InCategory(ds + [x], c) == InCategory(ds, c) + (if x.category == c then [x.name] else [])
  {
    if ds == [] {
      assert [x][1..] == [];
    } else {
      AppendTail(ds, x);
      InCategoryAppend(ds[1..], x, c);
    }
  }

  lemma {:induction false} LookupConcat(ds: seq<Decl>, es: seq<Decl>, a: Name)
    ensures Lookup(ds + es, a) == if Lookup(ds, a).Some? then Lookup(ds, a) else Lookup(es, a)
  {
    if ds == [] {
      assert ds + es == es;
    } else {
      assert (ds + es)[1..] == ds[1..] + es;
      LookupConcat(ds[1..], es, a);
    }
  }

  lemma {:induction false} InCategoryConcat(ds: seq<Decl>, es: seq<Decl>, c: string)
    ensures InCategory(ds + es, c) == InCategory(ds, c) + InCategory(es, c)
  {
    if ds == [] {
      assert ds + es == es;
    } else {
      assert (ds + es)[1..] == ds[1..] + es;
      InCategoryConcat(ds[1..], es, c);
    }
  }

  lemma {:induction false} InCategoryNone(ds: seq<Decl>, c: string)
    requires forall x <- ds :: x.category != c
    ensures InCategory(ds, c) == []
  {
    if ds != [] {
      InCategoryNone(ds[1..], c);
    }
  }

  /** The one declaration of its name is the one found. */
  lemma LookupUnique(ds: seq<Decl>, x: Decl)
    requires x in ds && forall y <- ds :: y.name == x.name ==> y == x
    ensures Lookup(ds, x.name) == Some(x)
  {
  }

  /** The one declaration of category c is the whole listing. */
  lemma {:induction false} InCategoryOne(ds: seq<Decl>, i: nat, c: string)
    requires i < |ds| && ds[i].category == c
    requires forall j | 0 <= j < |ds| && j != i :: ds[j].category != c
    ensures InCategory(ds, c) == [ds[i].name]
  {
    if i == 0 {
      forall x <- ds[1..] ensures x.category != c {
        var k :| 0 <= k < |ds[1..]| && ds[1..][k] == x;
        assert ds[k + 1] == x;
      }
      InCategoryNone(ds[1..], c);
    } else {
      forall j | 0 <= j < |ds[1..]| && j != i - 1 ensures ds[1..][j].category != c {
        assert ds[1..][j] == ds[j + 1];
      }
      InCategoryOne(ds[1..], i - 1, c);
    }
  }

  /** With unique names, a name is listed in a category exactly when the attribute
      of that name exists and has that category. */
  lemma {:induction false} InCategoryIff(ds: seq<Decl>, c: string, a: Name)
    requires UniqueNames(ds)
    ensures a in InCategory(ds, c) <==> Lookup(ds, a).Some? && Lookup(ds, a).value.category == c
  {
    if ds != [] {
      assert UniqueNames(ds[1..]) by {
        forall i, j | 0 <= i < j < |ds[1..]| ensures ds[1..][i].name != ds[1..][j].name {
          assert ds[1..][i] == ds[i + 1] && ds[1..][j] == ds[j + 1];
        }
      }
      InCategoryIff(ds[1..], c, a);
      if ds[0].name == a {
        assert forall x <- ds[1..] :: x.name != a by {
          forall x <- ds[1..] ensures x.name != a {
            var j :| 0 <= j < |ds[1..]| && ds[1..][j] == x;
            assert ds[j + 1] == x;
          }
        }
      }
    }
  }

  /** With unique names, each name is listed at most once. */
  lemma {:induction false} InCategoryDistinct(ds: seq<Decl>, c: string)
    requires UniqueNames(ds)
    ensures Distinct(InCategory(ds, c))
  {
    if ds != [] {
      assert UniqueNames(ds[1..]) by {
        forall i, j | 0 <= i < j < |ds[1..]| ensures ds[1..][i].name != ds[1..][j].name {
          assert ds[1..][i] == ds[i + 1] && ds[1..][j] == ds[j + 1];
        }
      }
      InCategoryDistinct(ds[1..], c);
      var rest := InCategory(ds[1..], c);
      if ds[0].category == c {
        forall a <- rest ensures a != ds[0].name {
          var x :| x in ds[1..] && x.name == a && x.category == c;
          var j :| 0 <= j < |ds[1..]| && ds[1..][j] == x;
          assert ds[j + 1] == x;
        }
        DistinctCons(ds[0].name, rest);
      }
    }
  }

  ghost predicate Distinct<T>(s: seq<T>) {
    forall i, j :: 0 <= i < j < |s| ==> s[i] != s[j]
  }

  /** Appending to a non-empty sequence keeps its head and appends to its tail. */
  lemma AppendTail<T>(s: seq<T>, x: T)
    requires s != []
    ensures (s + [x])[0] == s[0] && (s + [x])[1..] == s[1..] + [x]
  {
  }

  lemma DistinctCons<T>(x: T, s: seq<T>)
    requires Distinct(s) && x !in s
    ensures Distinct([x] + s)
  {
    forall i, j | 0 <= i < j < |[x] + s| ensures ([x] + s)[i] != ([x] + s)[j] {
      if i == 0 {
        assert ([x] + s)[j] == s[j - 1];
      } else {
        assert ([x] + s)[i] == s[i - 1] && ([x] + s)[j] == s[j - 1];
      }
    }
  }

  lemma DistinctConcat<T>(a: seq<T>, b: seq<T>)
    requires Distinct(a) && Distinct(b) && forall x <- a :: x !in b
    ensures Distinct(a + b)
  {
    forall i, j | 0 <= i < j < |a + b| ensures (a + b)[i] != (a + b)[j] {
      if j >= |a| && i < |a| {
        assert (a + b)[i] == a[i] && (a + b)[j] == b[j - |a|];
        assert a[i] in a;
      } else if i >= |a| {
        assert (a + b)[i] == b[i - |a|] && (a + b)[j] == b[j - |a|];
      }
    }
  }

  lemma DistinctTail<T>(s: seq<T>)
    requires Distinct(s) && s != []
    ensures Distinct(s[1..]) && s[0] !in s[1..]
  {
    forall i, j | 0 <= i < j < |s[1..]| ensures s[1..][i] != s[1..][j] {
      assert s[1..][i] == s[i + 1] && s[1..][j] == s[j + 1];
    }
  }

  // ---------------------------------------------------------------- queries

  function Decls(d: Doc, n: Node): seq<Decl> {
    if n in d.attrs then d.attrs[n] else []
  }

  function FindAttr(d: Doc, n: Node, a: Name): Option<Decl> {
    Lookup(Decls(d, n), a)
  }

  /** attributeQuery(a, node=n, exists=1) */
  predicate HasAttr(d: Doc, n: Node, a: Name) {
    FindAttr(d, n, a).Some?
  }

  /** listAttr(n, category=c), with [] for the None Maya returns when nothing matches */
  function ListAttr(d: Doc, n: Node, c: string): seq<Name> {
    InCategory(Decls(d, n), c)
  }

  function SlotsOf(d: Doc, p: Plug): Slots {
    if p in d.arrays then d.arrays[p] else []
  }

  /** The sources held by a sparse array, in index order. */
  function Placed(s: Slots): (r: seq<Node>)
    ensures |r| <= |s|
    ensures forall i | 0 <= i < |s| && s[i].Some? :: s[i].value.node in r
  {
    if s == [] then []
    else (if s[0].Some? then [s[0].value.node] else []) + Placed(s[1..])
  }

  /** Every listed source comes from an element of the array. */
  lemma {:induction false} PlacedFrom(s: Slots, n: Node)
    requires n in Placed(s)
    ensures exists i :: 0 <= i < |s| && s[i].Some? && s[i].value.node == n
  {
    if s[0].Some? && s[0].value.node == n {
      assert s[0].Some? && s[0].value.node == n;
    } else {
      PlacedFrom(s[1..], n);
      var i :| 0 <= i < |s[1..]| && s[1..][i].Some? && s[1..][i].value.node == n;
      assert s[i + 1] == s[1..][i];
    }
  }

  /** The nodes feeding plug p (listConnections on a destination plug): its single
      input, then the inputs of its elements in index order; [] for Maya's None. */
  function ListConnections(d: Doc, p: Plug): seq<Node> {
    (if p in d.inputs then [d.inputs[p].node] else []) + Placed(SlotsOf(d, p))
  }

  /** listConnections(p) as a command: it raises when the plug does not exist. */
  function Listed(d: Doc, p: Plug): (r: Result<seq<Node>>)
    ensures r.Ok? <==> HasAttr(d, p.node, p.attr)
    ensures r.Ok? ==> r.value == ListConnections(d, p)
  {
    if HasAttr(d, p.node, p.attr) then Ok(ListConnections(d, p)) else Fail(NoSuchAttribute)
  }

  /** The nodes that plug p feeds (listConnections on a source plug), as a set. */
  function Destinations(d: Doc, p: Plug): set<Node> {
    (set q | q in d.inputs && d.inputs[q] == p :: q.node)
    + (set q, i | q in d.arrays && 0 <= i < |d.arrays[q]| && d.arrays[q][i] == Some(p) :: q.node)
  }

  function DefaultValue(k: Kind): Value {
    if k == Text then StrV("") else IntV(0)
  }

  /** getAttr of plug p: the stored value, the type's default if never set. */
  function GetAttr(d: Doc, p: Plug): (r: Result<Value>)
    ensures r.Ok? <==> HasAttr(d, p.node, p.attr)
    ensures r.Ok? && p in d.values ==> r.value == d.values[p]
  {
    match FindAttr(d, p.node, p.attr)
    case None => Fail(NoSuchAttribute)
    case Some(x) => Ok(if p in d.values then d.values[p] else DefaultValue(x.kind))
  }

  // ---------------------------------------------------------------- well-formedness

  ghost predicate SlotsIn(s: Slots, nodes: set<Node>) {
    forall i | 0 <= i < |s| && s[i].Some? :: s[i].value.node in nodes
  }

  ghost predicate WellFormedDecls(ds: seq<Decl>) {
    |ds| > 0 && ds[0] == MessageDecl && UniqueNames(ds)
  }

  /** What holds of every scene: node names are not empty, every node has its
      attribute table starting with `message`, and connections join existing nodes. */
  ghost predicate Sound(d: Doc) {
    && "" !in d.nodes
    && d.attrs.Keys == d.nodes
    && (forall n | n in d.attrs :: WellFormedDecls(d.attrs[n]))
    && (forall p | p in d.inputs :: p.node in d.nodes && d.inputs[p].node in d.nodes)
    && (forall p | p in d.arrays :: p.node in d.nodes && SlotsIn(d.arrays[p], d.nodes))
  }

  lemma SoundHasMessage(d: Doc, n: Node)
    requires Sound(d) && n in d.nodes
    ensures FindAttr(d, n, "message") == Some(MessageDecl)
  {
    assert Decls(d, n)[0] == MessageDecl;
  }

  lemma SoundExists(d: Doc, n: Node, a: Name)
    requires Sound(d) && HasAttr(d, n, a)
    ensures n in d.nodes && n != ""
  {
  }

  // ---------------------------------------------------------------- updates

  /** The name createNode gives: the requested one, or one not yet taken.
      Maya's digit-increment renaming scheme is not modelled, only its uniqueness. */
  function FreshName(used: set<Node>, base: Name): (n: Node)
    ensures n !in used && |n| >= |base|
    decreases |used|
  {
    if base !in used then base else FreshName(used - {base}, base + "1")
  }

  /** createNode with no name lets Maya choose one after the node type. */
  function NodeBase(base: Name): (b: Name)
    ensures b != ""
  {
    if base == "" then "network" else base
  }

  function Created(d: Doc, n: Node): Doc {
    d.(nodes := d.nodes + {n}, attrs := d.attrs[n := [MessageDecl]])
  }

  function AttrAdded(d: Doc, n: Node, x: Decl): Doc {
    d.(attrs := d.attrs[n := Decls(d, n) + [x]])
  }

  function ValueSet(d: Doc, p: Plug, v: Value): Doc {
    d.(values := d.values[p := v])
  }

  /** connectAttr -force: the destination's previous input, if any, is replaced. */
  function InputSet(d: Doc, dst: Plug, src: Plug): Doc {
    d.(inputs := d.inputs[dst := src])
  }

  /** Element i of an array is fed by p; an index past the end grows the array. */
  function Place(s: Slots, i: nat, p: Plug): (r: Slots)
    ensures |r| == if i < |s| then |s| else i + 1
    ensures r[i] == Some(p)
    ensures forall k | 0 <= k < |r| && k != i :: r[k] == if k < |s| then s[k] else None
  {
    if i < |s| then s[i := Some(p)] else s + seq(i - |s|, _ => None) + [Some(p)]
  }

  /** connectAttr src dst[i] without force: refused when that element already has
      another input, and a no-op when it already has this one. */
  function ElementConnected(d: Doc, src: Plug, dst: Plug, i: nat): (r: Result<Doc>)
    ensures r.Ok? ==> i < |SlotsOf(r.value, dst)| && SlotsOf(r.value, dst)[i] == Some(src)
  {
    if src.node !in d.nodes || dst.node !in d.nodes then Fail(NoSuchNode)
    else if !HasAttr(d, src.node, src.attr) then Fail(NoSuchAttribute)
    else match FindAttr(d, dst.node, dst.attr)
      case None => Fail(NoSuchAttribute)
      case Some(x) =>
        if !x.multi then Fail(NotMulti)
        else if i < |SlotsOf(d, dst)| && SlotsOf(d, dst)[i].Some? then
          (if SlotsOf(d, dst)[i] == Some(src) then Ok(d) else Fail(SlotTaken))
        else Ok(d.(arrays := d.arrays[dst := Place(SlotsOf(d, dst), i, src)]))
  }

  /** disconnectAttr src dst[i]: raises unless element i is fed by src. */
  function ElementDisconnected(d: Doc, src: Plug, dst: Plug, i: nat): (r: Result<Doc>)
    ensures r.Ok? <==> i < |SlotsOf(d, dst)| && SlotsOf(d, dst)[i] == Some(src)
    ensures r.Ok? ==> SlotsOf(r.value, dst) == SlotsOf(d, dst)[i := None]
  {
    if i < |SlotsOf(d, dst)| && SlotsOf(d, dst)[i] == Some(src) then
      Ok(d.(arrays := d.arrays[dst := SlotsOf(d, dst)[i := None]]))
    else Fail(NotConnected)
  }

  // ---------------------------------------------------------------- updates keep scenes sound

  lemma CreatedSound(d: Doc, n: Node)
    requires Sound(d) && n !in d.nodes && n != ""
    ensures Sound(Created(d, n))
  {
    var d' := Created(d, n);
    forall m | m in d'.attrs ensures WellFormedDecls(d'.attrs[m]) {
      if m != n { assert d'.attrs[m] == d.attrs[m]; }
    }
    forall p | p in d'.arrays ensures p.node in d'.nodes && SlotsIn(d'.arrays[p], d'.nodes) {
      assert SlotsIn(d.arrays[p], d.nodes);
    }
  }

  lemma AttrAddedSound(d: Doc, n: Node, x: Decl)
    requires Sound(d) && n in d.nodes && !HasAttr(d, n, x.name)
    ensures Sound(AttrAdded(d, n, x))
  {
    var ds := Decls(d, n);
    var d' := AttrAdded(d, n, x);
    assert WellFormedDecls(ds);
    assert forall y <- ds :: y.name != x.name;
    forall i, j | 0 <= i < j < |ds + [x]| ensures (ds + [x])[i].name != (ds + [x])[j].name {
      if j == |ds| {
        assert ds[i] in ds;
      }
    }
    forall m | m in d'.attrs ensures WellFormedDecls(d'.attrs[m]) {
      if m != n { assert d'.attrs[m] == d.attrs[m]; }
    }
  }

  lemma InputSetSound(d: Doc, dst: Plug, src: Plug)
    requires Sound(d) && dst.node in d.nodes && src.node in d.nodes
    ensures Sound(InputSet(d, dst, src))
  {
  }

  lemma ElementConnectedSound(d: Doc, src: Plug, dst: Plug, i: nat)
    requires Sound(d) && ElementConnected(d, src, dst, i).Ok?
    ensures Sound(ElementConnected(d, src, dst, i).value)
  {
    var d' := ElementConnected(d, src, dst, i).value;
    forall p | p in d'.arrays ensures p.node in d'.nodes && SlotsIn(d'.arrays[p], d'.nodes) {
      if p != dst { assert d'.arrays[p] == d.arrays[p]; }
      else if p in d.arrays { assert SlotsIn(d.arrays[p], d.nodes); }
    }
  }

  lemma ElementDisconnectedSound(d: Doc, src: Plug, dst: Plug, i: nat)
    requires Sound(d) && ElementDisconnected(d, src, dst, i).Ok?
    ensures Sound(ElementDisconnected(d, src, dst, i).value)
  {
    var d' := ElementDisconnected(d, src, dst, i).value;
    forall p | p in d'.arrays ensures p.node in d'.nodes && SlotsIn(d'.arrays[p], d'.nodes) {
      if p != dst { assert d'.arrays[p] == d.arrays[p]; }
      else { assert SlotsIn(d.arrays[p], d.nodes); }
    }
  }

  // ---------------------------------------------------------------- listings after an update

  lemma {:induction false} PlacedAppend(s: Slots, o: Option<Plug>)
    ensures Placed(s + [o]) == Placed(s) + (if o.Some? then [o.value.node] else [])
  {
    if s == [] {
      assert [o][1..] == [];
    } else {
      assert (s + [o])[1..] == s[1..] + [o];
      PlacedAppend(s[1..], o);
    }
  }

  lemma {:induction false} PlacedSplit(s: Slots, i: nat)
    requires i <= |s|
    ensures Placed(s) == Placed(s[..i]) + Placed(s[i..])
  {
    if i > 0 {
      assert s[1..][..i - 1] == s[1..i];
      assert s[1..][i - 1..] == s[i..];
      PlacedSplit(s[1..], i - 1);
      assert s[..i][1..] == s[1..i];
    } else {
      assert s[..0] == [];
    }
  }

  lemma {:induction false} PlacedNones(n: nat)
    ensures Placed(seq(n, _ => None)) == []
  {
    if n > 0 {
      var s: Slots := seq(n, _ => None);
      assert s[1..] == seq(n - 1, _ => None);
      PlacedNones(n - 1);
    }
  }

  /** Feeding the element just past the end of an array appends to its listing. */
  lemma PlaceAtEnd(s: Slots, p: Plug)
    ensures Place(s, |s|, p) == s + [Some(p)]
    ensures Placed(Place(s, |s|, p)) == Placed(s) + [p.node]
  {
    var none: Slots := seq(0, _ => None);
    assert none == [];
    assert s + none == s;
    PlacedAppend(s, Some(p));
  }

  /** Emptying element i removes exactly one entry of the listing: the one at the
      position given by the number of filled elements before i. */
  lemma ClearedListing(s: Slots, i: nat)
    requires i < |s| && s[i].Some?
    ensures Placed(s) == Placed(s[..i]) + [s[i].value.node] + Placed(s[i + 1..])
    ensures Placed(s[i := None]) == Placed(s[..i]) + Placed(s[i + 1..])
  {
    PlacedSplit(s, i);
    assert Placed(s[i..]) == [s[i].value.node] + Placed(s[i + 1..]) by {
      assert s[i..][1..] == s[i + 1..];
    }
    var t := s[i := None];
    PlacedSplit(t, i);
    assert t[..i] == s[..i];
    assert t[i..][1..] == s[i + 1..];
  }

  // ---------------------------------------------------------------- the host document

  /** The live scene. Its fields are the document's tables; each method is one
      cmds primitive and states the whole new scene in terms of the old one. */
  class Host {
    var nodes: set<Node>
    var attrs: map<Node, seq<Decl>>
    var values: map<Plug, Value>
    var inputs: map<Plug, Plug>
    var arrays: map<Plug, Slots>

    function State(): Doc
      reads this
    {
      Doc(nodes, attrs, values, inputs, arrays)
    }

    ghost predicate Valid()
      reads this
    {
      Sound(State())
    }

    constructor (d: Doc)
      requires Sound(d)
      ensures Valid() && State() == d
    {
      nodes, attrs, values, inputs, arrays := d.nodes, d.attrs, d.values, d.inputs, d.arrays;
    }

    /** createNode('network', name=base) */
    method CreateNode(base: Name) returns (n: Node)
      requires Valid()
      modifies this
      ensures Valid()
      ensures n == FreshName(old(nodes), NodeBase(base)) && n !in old(nodes)
      ensures State() == Created(old(State()), n)
    {
      n := FreshName(nodes, NodeBase(base));
      CreatedSound(State(), n);
      nodes := nodes + {n};
      attrs := attrs[n := [MessageDecl]];
    }

    /** addAttr(n, ln=x.name, ...): callers first check that the name is free. */
    method AddAttr(n: Node, x: Decl)
      requires Valid() && n in nodes && !HasAttr(State(), n, x.name)
      modifies this
      ensures Valid() && State() == AttrAdded(old(State()), n, x)
    {
      AttrAddedSound(State(), n, x);
      attrs := attrs[n := attrs[n] + [x]];
    }

    /** setAttr(p, v) */
    method SetAttr(p: Plug, v: Value)
      requires Valid() && HasAttr(State(), p.node, p.attr)
      modifies this
      ensures Valid() && State() == ValueSet(old(State()), p, v)
    {
      values := values[p := v];
    }

    /** connectAttr(src, dst, f=1) from a message plug: Maya refuses a destination
        attribute of any other type and leaves the scene as it was. */
    method ConnectAttr(src: Plug, dst: Plug) returns (f: Option<Fault>)
      requires Valid() && HasAttr(State(), src.node, src.attr) && HasAttr(State(), dst.node, dst.attr)
      modifies this
      ensures Valid()
      ensures f == None <==> FindAttr(old(State()), dst.node, dst.attr).value.kind == Message
      ensures f == None ==> State() == InputSet(old(State()), dst, src)
      ensures f != None ==> f == Some(NotAMessage) && State() == old(State())
    {
      if FindAttr(State(), dst.node, dst.attr).value.kind != Message {
        return Some(NotAMessage);
      }
      var d := InputSet(State(), dst, src);
      InputSetSound(State(), dst, src);
      inputs := d.inputs;
      assert State() == d;
      f := None;
    }

    /** connectAttr(src, dst[i]) without force */
    method ConnectElement(src: Plug, dst: Plug, i: nat) returns (f: Option<Fault>)
      requires Valid()
      modifies this
      ensures Valid()
      ensures match ElementConnected(old(State()), src, dst, i)
        case Ok(d) => f == None && State() == d
        case Fail(e) => f == Some(e) && State() == old(State())
    {
      if src.node !in nodes || dst.node !in nodes {
        return Some(NoSuchNode);
      }
      if !HasAttr(State(), src.node, src.attr) {
        return Some(NoSuchAttribute);
      }
      var x := FindAttr(State(), dst.node, dst.attr);
      if x.None? {
        return Some(NoSuchAttribute);
      }
      if !x.value.multi {
        return Some(NotMulti);
      }
      var s := SlotsOf(State(), dst);
      if i < |s| && s[i].Some? {
        if s[i] == Some(src) {
          return None;
        }
        return Some(SlotTaken);
      }
      ElementConnectedSound(State(), src, dst, i);
      arrays := arrays[dst := Place(s, i, src)];
      f := None;
    }

    /** disconnectAttr(src, dst[i]) */
    method DisconnectElement(src: Plug, dst: Plug, i: nat) returns (f: Option<Fault>)
      requires Valid()
      modifies this
      ensures Valid()
      ensures match ElementDisconnected(old(State()), src, dst, i)
        case Ok(d) => f == None && State() == d
        case Fail(e) => f == Some(e) && State() == old(State())
    {
      var s := SlotsOf(State(), dst);
      if i < |s| && s[i] == Some(src) {
        ElementDisconnectedSound(State(), src, dst, i);
        arrays := arrays[dst := s[i := None]];
        f := None;
      } else {
        f := Some(NotConnected);
      }
    }
  }
}
