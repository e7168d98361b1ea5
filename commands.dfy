/** The scene commands the MetaRig classes issue besides the connection helpers:
    addAttr, setAttr, the "add it unless attributeQuery finds it" idiom, and addUIAttrs. */
module Commands {
  import opened Outcomes
  import opened Scene
  import opened MetaLinks

  const MetaUI: string := "metaUI"

  /** messageConnect called for its effect: the error string it may return is dropped,
      an exception ends the caller. */
  function Connected(d: Doc, from: Node, to: Node, fromName: Name, toName: Name, cat: string): (r: Step)
    ensures !r.status.Refused?
  {
    var m := MessageConnected(d, from, to, fromName, toName, cat);
    Step(if m.status.Raised? then m.status else Done, m.doc)
  }

  /** addAttr(n, ln=x.name, ...): raises for a missing node and for a name already taken. */
  function Added(d: Doc, n: Node, x: Decl): (r: Step)
    ensures r.status.Done? <==> n in d.nodes && !HasAttr(d, n, x.name)
    ensures !r.status.Done? ==> r.status.Raised? && r.doc == d
  {
    if n !in d.nodes then Step(Raised(NoSuchNode), d)
    else if HasAttr(d, n, x.name) then Step(Raised(AttributeExists), d)
    else Step(Done, AttrAdded(d, n, x))
  }

  /** `if not attributeQuery(x.name, node=n): addAttr(n, ...)` */
  function Declared(d: Doc, n: Node, x: Decl): (r: Step)
    ensures r.status.Done? <==> n in d.nodes
    ensures !r.status.Done? ==> r.status.Raised? && r.doc == d
  {
    if n !in d.nodes then Step(Raised(NoSuchNode), d)
    else if HasAttr(d, n, x.name) then Step(Done, d)
    else Step(Done, AttrAdded(d, n, x))
  }

  /** setAttr(p, v): raises when the plug does not exist. */
  function Assigned(d: Doc, p: Plug, v: Value): (r: Step)
    ensures r.status.Done? <==> HasAttr(d, p.node, p.attr)
    ensures !r.status.Done? ==> r.status.Raised? && r.doc == d
  {
    if HasAttr(d, p.node, p.attr) then Step(Done, ValueSet(d, p, v)) else Step(Raised(NoSuchAttribute), d)
  }

  /** A compound attribute `a` of kind short2 with its two children `ax` and `ay`. */
  function Compound(a: Name, ax: Name, ay: Name): seq<Decl> {
    [Decl(a, Short2, MetaUI, false), Decl(ax, Short, MetaUI, false), Decl(ay, Short, MetaUI, false)]
  }

  function AllAdded(d: Doc, n: Node, xs: seq<Decl>): (r: Step)
    ensures !r.status.Done? ==> r.status.Raised?
    decreases |xs|
  {
    if xs == [] then Step(Done, d)
    else
      var s := Added(d, n, xs[0]);
      if !s.status.Done? then s else AllAdded(s.doc, n, xs[1..])
  }

  /** The compound, when attributeQuery does not find its parent attribute. */
  function CompoundDeclared(d: Doc, n: Node, a: Name, ax: Name, ay: Name): (r: Step)
    ensures !r.status.Done? ==> r.status.Raised?
  {
    if n !in d.nodes then Step(Raised(NoSuchNode), d)
    else if HasAttr(d, n, a) then Step(Done, d)
    else AllAdded(d, n, Compound(a, ax, ay))
  }

  /** addUIAttrs(n): buttonPos and buttonSize, each with its X and Y children. */
  function UIDeclared(d: Doc, n: Node): (r: Step)
    ensures !r.status.Done? ==> r.status.Raised?
  {
    var s := CompoundDeclared(d, n, "buttonPos", "buttonPosX", "buttonPosY");
    if !s.status.Done? then s else CompoundDeclared(s.doc, n, "buttonSize", "buttonSizeX", "buttonSizeY")
  }

  // ---------------------------------------------------------------- frames

  /** The six attribute names addUIAttrs may add. */
  const UINames: set<Name> := {"buttonPos", "buttonPosX", "buttonPosY", "buttonSize", "buttonSizeX", "buttonSizeY"}

  /** d' is d with attributes appended to n alone, each named in `names` and of a
      category in `cats`. */
  ghost predicate GrownAt(d: Doc, d': Doc, n: Node, names: set<Name>, cats: set<string>) {
    && d'.nodes == d.nodes && d'.values == d.values && d'.inputs == d.inputs && d'.arrays == d.arrays
    && (forall m | m != n :: Decls(d', m) == Decls(d, m))
    && Decls(d, n) <= Decls(d', n)
    && (forall x <- Decls(d', n)[|Decls(d, n)|..] :: x.name in names && x.category in cats)
  }

  lemma GrownTrans(d1: Doc, d2: Doc, d3: Doc, n: Node, names: set<Name>, cats: set<string>)
    requires GrownAt(d1, d2, n, names, cats) && GrownAt(d2, d3, n, names, cats)
    ensures GrownAt(d1, d3, n, names, cats)
  {
    var a, b, c := Decls(d1, n), Decls(d2, n), Decls(d3, n);
    forall x <- c[|a|..] ensures x.name in names && x.category in cats {
      var k :| 0 <= k < |c[|a|..]| && c[|a|..][k] == x;
      if |a| + k < |b| {
        assert b[|a|..][k] == x;
      } else {
        assert c[|b|..][|a| + k - |b|] == x;
      }
    }
  }

  lemma GrownWiden(d: Doc, d': Doc, n: Node, names: set<Name>, cats: set<string>, names': set<Name>, cats': set<string>)
    requires GrownAt(d, d', n, names, cats) && names <= names' && cats <= cats'
    ensures GrownAt(d, d', n, names', cats')
  {
  }

  lemma DeclaredGrown(d: Doc, n: Node, x: Decl, names: set<Name>, cats: set<string>)
    requires Declared(d, n, x).status.Done? && x.name in names && x.category in cats
    ensures GrownAt(d, Declared(d, n, x).doc, n, names, cats)
    ensures HasAttr(Declared(d, n, x).doc, n, x.name)
    ensures !HasAttr(d, n, x.name) ==> FindAttr(Declared(d, n, x).doc, n, x.name) == Some(x)
  {
    if !HasAttr(d, n, x.name) {
      AppendedGrown(d, n, x, names, cats);
    }
  }

  /** Appending a declaration named in `names`, of a category in `cats`, grows n. */
  lemma AppendedGrown(d: Doc, n: Node, x: Decl, names: set<Name>, cats: set<string>)
    requires !HasAttr(d, n, x.name) && x.name in names && x.category in cats
    ensures GrownAt(d, AttrAdded(d, n, x), n, names, cats)
    ensures Decls(AttrAdded(d, n, x), n) == Decls(d, n) + [x]
    ensures FindAttr(AttrAdded(d, n, x), n, x.name) == Some(x)
  {
    var d' := AttrAdded(d, n, x);
    assert Decls(d', n) == Decls(d, n) + [x];
    assert Decls(d', n)[|Decls(d, n)|..] == [x];
    LookupAppend(Decls(d, n), x, x.name);
  }

  /** Adding declarations whose names are new and distinct succeeds and appends them. */
  lemma AllAddedFresh(d: Doc, n: Node, xs: seq<Decl>, names: set<Name>, cats: set<string>)
    requires n in d.nodes
    requires forall x <- xs :: x.name in names && x.category in cats && !HasAttr(d, n, x.name)
    requires forall i, j | 0 <= i < j < |xs| :: xs[i].name != xs[j].name
    ensures AllAdded(d, n, xs).status.Done?
    ensures Decls(AllAdded(d, n, xs).doc, n) == Decls(d, n) + xs
    ensures GrownAt(d, AllAdded(d, n, xs).doc, n, names, cats)
  {
    AllAddedAppends(d, n, xs);
    AllAddedGrown(d, n, xs, names, cats);
  }

  /** The names of xs are new on n and distinct from each other. */
  ghost predicate FreshNames(d: Doc, n: Node, xs: seq<Decl>) {
    && (forall x <- xs :: !HasAttr(d, n, x.name))
    && (forall i, j | 0 <= i < j < |xs| :: xs[i].name != xs[j].name)
  }

  lemma {:induction false} AllAddedAppends(d: Doc, n: Node, xs: seq<Decl>)
    requires n in d.nodes && FreshNames(d, n, xs)
    ensures AllAdded(d, n, xs).status.Done?
    ensures Decls(AllAdded(d, n, xs).doc, n) == Decls(d, n) + xs
    decreases |xs|
  {
    if xs == [] {
      assert Decls(d, n) + xs == Decls(d, n);
    } else {
      AddedFreshStep(d, n, xs);
      var d1 := AttrAdded(d, n, xs[0]);
      AllAddedAppends(d1, n, xs[1..]);
      AppendFirst(Decls(d, n), xs);
    }
  }

  lemma AppendFirst(a: seq<Decl>, xs: seq<Decl>)
    requires xs != []
    ensures (a + [xs[0]]) + xs[1..] == a + xs
  {
    assert [xs[0]] + xs[1..] == xs;
  }

  /** The first declaration of a fresh, distinct list is added, and the rest stay fresh. */
  lemma AddedFreshStep(d: Doc, n: Node, xs: seq<Decl>)
    requires n in d.nodes && xs != [] && FreshNames(d, n, xs)
    ensures Added(d, n, xs[0]) == Step(Done, AttrAdded(d, n, xs[0]))
    ensures AllAdded(d, n, xs) == AllAdded(AttrAdded(d, n, xs[0]), n, xs[1..])
    ensures Decls(AttrAdded(d, n, xs[0]), n) == Decls(d, n) + [xs[0]]
    ensures FreshNames(AttrAdded(d, n, xs[0]), n, xs[1..])
  {
    var d1 := AttrAdded(d, n, xs[0]);
    assert xs[0] in xs;
    assert Decls(d1, n) == Decls(d, n) + [xs[0]];
    forall x <- xs[1..] ensures !HasAttr(d1, n, x.name) {
      LookupAppend(Decls(d, n), xs[0], x.name);
      var k :| 0 <= k < |xs[1..]| && xs[1..][k] == x;
      assert xs[k + 1] == x;
    }
    forall i, j | 0 <= i < j < |xs[1..]| ensures xs[1..][i].name != xs[1..][j].name {
      assert xs[1..][i] == xs[i + 1] && xs[1..][j] == xs[j + 1];
    }
  }

  lemma {:induction false} AllAddedGrown(d: Doc, n: Node, xs: seq<Decl>, names: set<Name>, cats: set<string>)
    requires AllAdded(d, n, xs).status.Done? && forall x <- xs :: x.name in names && x.category in cats
    ensures GrownAt(d, AllAdded(d, n, xs).doc, n, names, cats)
    decreases |xs|
  {
    if xs != [] {
      var s := Added(d, n, xs[0]);
      assert Decls(s.doc, n) == Decls(d, n) + [xs[0]];
      assert Decls(s.doc, n)[|Decls(d, n)|..] == [xs[0]];
      AllAddedGrown(s.doc, n, xs[1..], names, cats);
      GrownTrans(d, s.doc, AllAdded(d, n, xs).doc, n, names, cats);
    }
  }

  lemma UIDeclaredGrown(d: Doc, n: Node)
    requires UIDeclared(d, n).status.Done?
    ensures GrownAt(d, UIDeclared(d, n).doc, n, UINames, {MetaUI})
  {
    var s := CompoundDeclared(d, n, "buttonPos", "buttonPosX", "buttonPosY");
    CompoundGrown(d, n, "buttonPos", "buttonPosX", "buttonPosY", UINames);
    CompoundGrown(s.doc, n, "buttonSize", "buttonSizeX", "buttonSizeY", UINames);
    GrownTrans(d, s.doc, UIDeclared(d, n).doc, n, UINames, {MetaUI});
  }

  /** A compound that goes through only grows its node, by names among its own three. */
  lemma CompoundGrown(d: Doc, n: Node, a: Name, ax: Name, ay: Name, names: set<Name>)
    requires CompoundDeclared(d, n, a, ax, ay).status.Done? && a in names && ax in names && ay in names
    ensures GrownAt(d, CompoundDeclared(d, n, a, ax, ay).doc, n, names, {MetaUI})
  {
    if !HasAttr(d, n, a) {
      AllAddedGrown(d, n, Compound(a, ax, ay), names, {MetaUI});
    }
  }

  /** A compound none of whose three names the node has is added whole. */
  lemma CompoundFresh(d: Doc, n: Node, a: Name, ax: Name, ay: Name)
    requires n in d.nodes && a != ax && a != ay && ax != ay
    requires !HasAttr(d, n, a) && !HasAttr(d, n, ax) && !HasAttr(d, n, ay)
    ensures CompoundDeclared(d, n, a, ax, ay).status.Done?
    ensures Decls(CompoundDeclared(d, n, a, ax, ay).doc, n) == Decls(d, n) + Compound(a, ax, ay)
    ensures GrownAt(d, CompoundDeclared(d, n, a, ax, ay).doc, n, {a, ax, ay}, {MetaUI})
  {
    AllAddedFresh(d, n, Compound(a, ax, ay), {a, ax, ay}, {MetaUI});
  }

  /** addUIAttrs on a node without any of the six names adds all six. */
  lemma UIDeclaredFresh(d: Doc, n: Node)
    requires n in d.nodes && forall a <- UINames :: !HasAttr(d, n, a)
    ensures UIDeclared(d, n).status.Done?
  {
    var xs := Compound("buttonPos", "buttonPosX", "buttonPosY");
    assert !HasAttr(d, n, "buttonPos") && !HasAttr(d, n, "buttonPosX") && !HasAttr(d, n, "buttonPosY");
    assert !HasAttr(d, n, "buttonSize") && !HasAttr(d, n, "buttonSizeX") && !HasAttr(d, n, "buttonSizeY");
    CompoundFresh(d, n, "buttonPos", "buttonPosX", "buttonPosY");
    var s := CompoundDeclared(d, n, "buttonPos", "buttonPosX", "buttonPosY");
    LookupConcat(Decls(d, n), xs, "buttonSize");
    LookupConcat(Decls(d, n), xs, "buttonSizeX");
    LookupConcat(Decls(d, n), xs, "buttonSizeY");
    CompoundFresh(s.doc, n, "buttonSize", "buttonSizeX", "buttonSizeY");
  }

  /** A compound is declared exactly when its node exists and either has the parent
      attribute already or has neither child; afterwards the parent exists, and every
      other name finds what it found before. */
  lemma CompoundDeclaredIff(d: Doc, n: Node, a: Name, ax: Name, ay: Name)
    requires a != ax && a != ay && ax != ay
    ensures CompoundDeclared(d, n, a, ax, ay).status.Done? <==>
      n in d.nodes && (HasAttr(d, n, a) || (!HasAttr(d, n, ax) && !HasAttr(d, n, ay)))
    ensures CompoundDeclared(d, n, a, ax, ay).status.Done? ==> HasAttr(CompoundDeclared(d, n, a, ax, ay).doc, n, a)
    ensures CompoundDeclared(d, n, a, ax, ay).status.Done? ==> CompoundDeclared(d, n, a, ax, ay).doc.nodes == d.nodes
    ensures CompoundDeclared(d, n, a, ax, ay).status.Done? ==> forall b | b != a && b != ax && b != ay ::
      FindAttr(CompoundDeclared(d, n, a, ax, ay).doc, n, b) == FindAttr(d, n, b)
  {
    if n in d.nodes && !HasAttr(d, n, a) {
      if !HasAttr(d, n, ax) && !HasAttr(d, n, ay) {
        CompoundFreshFinds(d, n, a, ax, ay);
      } else {
        CompoundBlocked(d, n, a, ax, ay);
      }
    }
  }

  /** A fresh compound adds its parent and leaves every other name as it was. */
  lemma CompoundFreshFinds(d: Doc, n: Node, a: Name, ax: Name, ay: Name)
    requires n in d.nodes && a != ax && a != ay && ax != ay
    requires !HasAttr(d, n, a) && !HasAttr(d, n, ax) && !HasAttr(d, n, ay)
    ensures var s := CompoundDeclared(d, n, a, ax, ay);
      && s.status.Done? && HasAttr(s.doc, n, a) && s.doc.nodes == d.nodes
      && forall b | b != a && b != ax && b != ay :: FindAttr(s.doc, n, b) == FindAttr(d, n, b)
  {
    var xs := Compound(a, ax, ay);
    CompoundFresh(d, n, a, ax, ay);
    LookupConcat(Decls(d, n), xs, a);
    forall b | b != a && b != ax && b != ay
      ensures FindAttr(CompoundDeclared(d, n, a, ax, ay).doc, n, b) == FindAttr(d, n, b)
    {
      LookupConcat(Decls(d, n), xs, b);
    }
  }

  /** A child already there without its parent makes the compound raise. */
  lemma CompoundBlocked(d: Doc, n: Node, a: Name, ax: Name, ay: Name)
    requires n in d.nodes && a != ax && a != ay && ax != ay
    requires !HasAttr(d, n, a) && (HasAttr(d, n, ax) || HasAttr(d, n, ay))
    ensures !CompoundDeclared(d, n, a, ax, ay).status.Done?
  {
    var xs := Compound(a, ax, ay);
    var d1 := AttrAdded(d, n, xs[0]);
    assert AllAdded(d, n, xs) == AllAdded(d1, n, xs[1..]);
    LookupAppend(Decls(d, n), xs[0], ax);
    LookupAppend(Decls(d, n), xs[0], ay);
    if !HasAttr(d, n, ax) {
      var d2 := AttrAdded(d1, n, xs[1]);
      assert AllAdded(d1, n, xs[1..]) == AllAdded(d2, n, xs[2..]);
      LookupAppend(Decls(d1, n), xs[1], ay);
    }
  }

  /** The two compounds of addUIAttrs are independent of each other. */
  ghost predicate UIReady(d: Doc, n: Node) {
    && (HasAttr(d, n, "buttonPos") || (!HasAttr(d, n, "buttonPosX") && !HasAttr(d, n, "buttonPosY")))
    && (HasAttr(d, n, "buttonSize") || (!HasAttr(d, n, "buttonSizeX") && !HasAttr(d, n, "buttonSizeY")))
  }

  /** addUIAttrs gets through exactly when the node exists and neither compound has a
      child without its parent; afterwards both parents exist. */
  lemma UIDeclaredIff(d: Doc, n: Node)
    ensures UIDeclared(d, n).status.Done? <==> n in d.nodes && UIReady(d, n)
    ensures UIDeclared(d, n).status.Done? ==>
      HasAttr(UIDeclared(d, n).doc, n, "buttonPos") && HasAttr(UIDeclared(d, n).doc, n, "buttonSize")
  {
    CompoundDeclaredIff(d, n, "buttonPos", "buttonPosX", "buttonPosY");
    var s := CompoundDeclared(d, n, "buttonPos", "buttonPosX", "buttonPosY");
    if s.status.Done? {
      UISecondIff(d, s.doc, n);
    }
  }

  /** The second compound of addUIAttrs, after the first went through. */
  lemma UISecondIff(d: Doc, e: Doc, n: Node)
    requires e.nodes == d.nodes && HasAttr(e, n, "buttonPos")
    requires forall b | b != "buttonPos" && b != "buttonPosX" && b != "buttonPosY" :: FindAttr(e, n, b) == FindAttr(d, n, b)
    ensures var s := CompoundDeclared(e, n, "buttonSize", "buttonSizeX", "buttonSizeY");
      && (s.status.Done? <==> n in d.nodes && (HasAttr(d, n, "buttonSize") || (!HasAttr(d, n, "buttonSizeX") && !HasAttr(d, n, "buttonSizeY"))))
      && (s.status.Done? ==> HasAttr(s.doc, n, "buttonPos") && HasAttr(s.doc, n, "buttonSize"))
  {
    CompoundDeclaredIff(e, n, "buttonSize", "buttonSizeX", "buttonSizeY");
    assert FindAttr(e, n, "buttonSize") == FindAttr(d, n, "buttonSize");
    assert FindAttr(e, n, "buttonSizeX") == FindAttr(d, n, "buttonSizeX");
    assert FindAttr(e, n, "buttonSizeY") == FindAttr(d, n, "buttonSizeY");
  }

  /** A second addUIAttrs finds both parents and changes nothing. */
  lemma UIDeclaredIdempotent(d: Doc, n: Node)
    requires UIDeclared(d, n).status.Done?
    ensures UIDeclared(UIDeclared(d, n).doc, n) == Step(Done, UIDeclared(d, n).doc)
  {
    UIDeclaredIff(d, n);
    assert n in UIDeclared(d, n).doc.nodes by {
      UIDeclaredGrown(d, n);
    }
  }

  /** Growing keeps every attribute that was there. */
  lemma GrownFind(d: Doc, d': Doc, n: Node, names: set<Name>, cats: set<string>, m: Node, a: Name)
    requires GrownAt(d, d', n, names, cats) && (HasAttr(d, m, a) || a !in names)
    ensures FindAttr(d', m, a) == FindAttr(d, m, a)
  {
    if m == n {
      var k := |Decls(d, n)|;
      var es := Decls(d', n)[k..];
      assert Decls(d', n) == Decls(d, n) + es;
      LookupConcat(Decls(d, n), es, a);
    }
  }

  /** Growing leaves the listing of every other category unchanged. */
  lemma GrownListAttr(d: Doc, d': Doc, n: Node, names: set<Name>, cats: set<string>, m: Node, c: string)
    requires GrownAt(d, d', n, names, cats) && c !in cats
    ensures ListAttr(d', m, c) == ListAttr(d, m, c)
  {
    if m == n {
      var k := |Decls(d, n)|;
      var es := Decls(d', n)[k..];
      assert Decls(d', n) == Decls(d, n) + es;
      InCategoryConcat(Decls(d, n), es, c);
      InCategoryNone(es, c);
    }
  }

  method Connect(h: Host, from: Node, to: Node, fromName: Name, toName: Name, cat: string) returns (s: Status)
    requires h.Valid()
    modifies h
    ensures h.Valid()
    ensures Step(s, h.State()) == Connected(old(h.State()), from, to, fromName, toName, cat)
  {
    var m := MessageConnect(h, from, to, fromName, toName, cat);
    s := if m.Raised? then m else Done;
  }

  method Add(h: Host, n: Node, x: Decl) returns (s: Status)
    requires h.Valid()
    modifies h
    ensures h.Valid()
    ensures Step(s, h.State()) == Added(old(h.State()), n, x)
  {
    if n !in h.nodes {
      return Raised(NoSuchNode);
    }
    if HasAttr(h.State(), n, x.name) {
      return Raised(AttributeExists);
    }
    h.AddAttr(n, x);
    s := Done;
  }

  method Declare(h: Host, n: Node, x: Decl) returns (s: Status)
    requires h.Valid()
    modifies h
    ensures h.Valid()
    ensures Step(s, h.State()) == Declared(old(h.State()), n, x)
  {
    if n !in h.nodes {
      return Raised(NoSuchNode);
    }
    if !HasAttr(h.State(), n, x.name) {
      h.AddAttr(n, x);
    }
    s := Done;
  }

  method Assign(h: Host, p: Plug, v: Value) returns (s: Status)
    requires h.Valid()
    modifies h
    ensures h.Valid()
    ensures Step(s, h.State()) == Assigned(old(h.State()), p, v)
  {
    if !HasAttr(h.State(), p.node, p.attr) {
      return Raised(NoSuchAttribute);
    }
    h.SetAttr(p, v);
    s := Done;
  }

  method DeclareCompound(h: Host, n: Node, a: Name, ax: Name, ay: Name) returns (s: Status)
    requires h.Valid()
    modifies h
    ensures h.Valid()
    ensures Step(s, h.State()) == CompoundDeclared(old(h.State()), n, a, ax, ay)
  {
    if n !in h.nodes {
      return Raised(NoSuchNode);
    }
    if HasAttr(h.State(), n, a) {
      return Done;
    }
    ghost var d0 := h.State();
    var xs := Compound(a, ax, ay);
    CompoundSteps(d0, n, a, ax, ay);
    s := Add(h, n, xs[0]);
    if s.Raised? {
      return;
    }
    s := Add(h, n, xs[1]);
    if s.Raised? {
      return;
    }
    s := Add(h, n, xs[2]);
  }

  /** The three additions of a compound, one after the other. */
  lemma CompoundSteps(d: Doc, n: Node, a: Name, ax: Name, ay: Name)
    ensures var xs := Compound(a, ax, ay);
      var s1 := Added(d, n, xs[0]);
      var s2 := Added(s1.doc, n, xs[1]);
      AllAdded(d, n, xs) == if !s1.status.Done? then s1 else if !s2.status.Done? then s2 else Added(s2.doc, n, xs[2])
  {
    var xs := Compound(a, ax, ay);
    var s1 := Added(d, n, xs[0]);
    var s2 := Added(s1.doc, n, xs[1]);
    assert xs[1..][0] == xs[1] && xs[1..][1..] == xs[2..] == [xs[2]];
    assert xs[2..][1..] == [];
    if s1.status.Done? && s2.status.Done? {
      assert AllAdded(s2.doc, n, [xs[2]]) == Added(s2.doc, n, xs[2]);
    }
  }

  /** addUIAttrs(n) */
  method AddUIAttrs(h: Host, n: Node) returns (s: Status)
    requires h.Valid()
    modifies h
    ensures h.Valid()
    ensures Step(s, h.State()) == UIDeclared(old(h.State()), n)
  {
    s := DeclareCompound(h, n, "buttonPos", "buttonPosX", "buttonPosY");
    if s.Raised? {
      return;
    }
    s := DeclareCompound(h, n, "buttonSize", "buttonSizeX", "buttonSizeY");
  }
}
