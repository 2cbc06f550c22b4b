/**
  The `basic` and `minimal` Graphviz themes.

  Nodes are filled by a classification of their lowercased type and name.
  Edges are styled by kind (recovery edges dashed, lone edges black with an
  empty arrowhead, hidden edges white), and edges still without a colour draw
  one from a palette: one counter per (conjunction or lone, recovery or
  normal) category, and a memo from edge id to the colour first drawn for it.
 */
module ThemeBasic {
  import opened Wrappers
  import opened Dicts
  import opened Strings
  import opened GraphvizWriter

  const Scheme: seq<string> := [
    "blue", "red", "green", "forestgreen", "deeppink", "gold", "brown", "purple", "cyan2",
    "yellow", "darkorange", "aquamarine", "bisque", "darkolivegreen2", "turquoise",
    "cornflowerblue", "cadetblue", "grey"]

  // ----- nodes -----

  const NodeDefaults: Attrs := Dict(["colorscheme", "style", "penwidth", "fillcolor"],
    map["colorscheme" := "pastel19", "style" := "filled", "penwidth" := "0", "fillcolor" := "9"])

  /** The cases of the node classification, in the order they are tried. */
  datatype NodeKind = Password | Account | Biometric | PasswordManager | Device | AccountManager | Unclassified

  /** The first case whose condition holds of the lowercased type `t` and name `n`. */
  function KindOf(t: string, n: string): NodeKind {
    if ContainsAnyOf(t, ["pw", "pwd", "password"]) || ContainsAnyOf(n, ["pw", "pwd", "password"]) then Password
    else if ContainsAnyOf(t, ["account", "mail"]) then Account
    else if ContainsAnyOf(t, ["finger", "biometric"]) then Biometric
    else if ContainsAnyOf(t, ["password manager"]) then PasswordManager
    else if ContainsAnyOf(t, ["device"]) then Device
    else if ContainsAnyOf(t, ["account manager", "cyberguard"]) || ContainsAnyOf(n, ["cyberguard"]) then AccountManager
    else Unclassified
  }

  /** The Password Manager case placed before Password, and Account Manager before Account. */
  function IntendedKindOf(t: string, n: string): NodeKind {
    if ContainsAnyOf(t, ["password manager"]) then PasswordManager
    else if ContainsAnyOf(t, ["account manager", "cyberguard"]) || ContainsAnyOf(n, ["cyberguard"]) then AccountManager
    else if ContainsAnyOf(t, ["pw", "pwd", "password"]) || ContainsAnyOf(n, ["pw", "pwd", "password"]) then Password
    else if ContainsAnyOf(t, ["account", "mail"]) then Account
    else if ContainsAnyOf(t, ["finger", "biometric"]) then Biometric
    else if ContainsAnyOf(t, ["device"]) then Device
    else Unclassified
  }

  function FillColour(kind: NodeKind): string {
    match kind
    case Password => "1"
    case Account => "2"
    case Biometric => "3"
    case PasswordManager => "4"
    case Device => "5"
    case AccountManager => "#8E61F0"
    case Unclassified => "9"
  }

  /**
    The defaults overlaid by what the matching case assigns: its fill colour
    (an unclassified node keeps the default 9), the CyberGuard fonts for an
    account manager, and diagonals for a device whose name says `locked`.
    `a | {k: v, ...}` with a literal assigns its entries in order.
   */
  function KindAttributes(kind: NodeKind, locked: bool): Attrs {
    var a := NodeDefaults.Set("fillcolor", FillColour(kind));
    if kind == AccountManager then a.Set("fontcolor", "white").Set("fontname", "Source Sans 3 SemiBold").Set("fontsize", "10")
    else if kind == Device && locked then a.Set("penwidth", "1").Set("style", "filled, diagonals")
    else a
  }

  /** A type mentioning `pattern` is drawn as a 3D box, after the case match. */
  function PatternAttributes(a: Attrs, pattern: bool): Attrs {
    if pattern then a.Set("shape", "box3d").Set("penwidth", "0.8") else a
  }

  /** The attributes of a node with lowercased type `t` and name `n`, as written. */
  function ClassifiedAttributes(t: string, n: string): Attrs {
    PatternAttributes(KindAttributes(KindOf(t, n), ContainsAnyOf(n, ["locked"])), ContainsAnyOf(t, ["pattern"]))
  }

  /** The same with the specific manager cases tried first. */
  function IntendedClassifiedAttributes(t: string, n: string): Attrs {
    PatternAttributes(KindAttributes(IntendedKindOf(t, n), ContainsAnyOf(n, ["locked"])), ContainsAnyOf(t, ["pattern"]))
  }

  /** `compute_node_attributes` as written. */
  function NodeAttributes(v: VertexView): Attrs {
    ClassifiedAttributes(Lower(v.vertexType), Lower(v.name))
  }

  /** `compute_node_attributes` with the specific manager cases tried first. */
  function IntendedNodeAttributes(v: VertexView): Attrs {
    IntendedClassifiedAttributes(Lower(v.vertexType), Lower(v.name))
  }

  /** The pattern rule sets the shape and pen width and leaves every other attribute alone. */
  lemma PatternLookup(a: Attrs, pattern: bool, k: string)
    ensures Lookup(PatternAttributes(a, pattern), k)
            == if pattern && k == "shape" then Some("box3d")
               else if pattern && k == "penwidth" then Some("0.8")
               else Lookup(a, k)
  {
  }

  /** An unclassified node keeps the defaults exactly. */
  lemma UnclassifiedDefaults(locked: bool)
    ensures KindAttributes(Unclassified, locked) == NodeDefaults
  {
    assert NodeDefaults.m["fillcolor" := "9"] == NodeDefaults.m;
  }

  lemma NotADefault()
    ensures "shape" !in NodeDefaults.m && "fontcolor" !in NodeDefaults.m
  {
  }

  /** The entries `KindAttributes` ends with, on each branch. */
  lemma KindMap(kind: NodeKind, locked: bool)
    ensures KindAttributes(kind, locked).m
            == if kind == AccountManager
               then NodeDefaults.m["fillcolor" := FillColour(kind)]["fontcolor" := "white"]["fontname" := "Source Sans 3 SemiBold"]["fontsize" := "10"]
               else if kind == Device && locked
               then NodeDefaults.m["fillcolor" := FillColour(kind)]["penwidth" := "1"]["style" := "filled, diagonals"]
               else NodeDefaults.m["fillcolor" := FillColour(kind)]
  {
  }

  /** Every case sets its own fill colour. */
  lemma KindFillColour(kind: NodeKind, locked: bool)
    ensures Lookup(KindAttributes(kind, locked), "fillcolor") == Some(FillColour(kind))
  {
    KindMap(kind, locked);
  }

  /** No case sets a shape. */
  lemma KindNoShape(kind: NodeKind, locked: bool)
    ensures Lookup(KindAttributes(kind, locked), "shape") == None
  {
    KindMap(kind, locked);
    NotADefault();
  }

  /** A locked device is drawn with diagonals and a visible border. */
  lemma LockedDeviceLookup()
    ensures Lookup(KindAttributes(Device, true), "penwidth") == Some("1")
    ensures Lookup(KindAttributes(Device, true), "style") == Some("filled, diagonals")
  {
  }

  /** Only account managers get the CyberGuard fonts. */
  lemma KindFonts(kind: NodeKind, locked: bool)
    ensures Lookup(KindAttributes(kind, locked), "fontcolor") == if kind == AccountManager then Some("white") else None
  {
    KindMap(kind, locked);
    NotADefault();
  }

  /**
    The first matching case decides the fill colour, and exactly the types
    that mention `pattern` are drawn as 3D boxes.
   */
  lemma ClassifiedLookup(t: string, n: string)
    ensures Lookup(ClassifiedAttributes(t, n), "fillcolor") == Some(FillColour(KindOf(t, n)))
    ensures Lookup(ClassifiedAttributes(t, n), "shape") == if ContainsAnyOf(t, ["pattern"]) then Some("box3d") else None
  {
    var kind, locked, pattern := KindOf(t, n), ContainsAnyOf(n, ["locked"]), ContainsAnyOf(t, ["pattern"]);
    KindFillColour(kind, locked);
    KindNoShape(kind, locked);
    PatternLookup(KindAttributes(kind, locked), pattern, "fillcolor");
    PatternLookup(KindAttributes(kind, locked), pattern, "shape");
  }

  /** The same with the corrected order. */
  lemma IntendedClassifiedLookup(t: string, n: string)
    ensures Lookup(IntendedClassifiedAttributes(t, n), "fillcolor") == Some(FillColour(IntendedKindOf(t, n)))
  {
    var kind, locked, pattern := IntendedKindOf(t, n), ContainsAnyOf(n, ["locked"]), ContainsAnyOf(t, ["pattern"]);
    KindFillColour(kind, locked);
    PatternLookup(KindAttributes(kind, locked), pattern, "fillcolor");
  }

  lemma ContainsAnyOfPrefix(t: string, needle: string, p: string, ps: seq<string>)
    requires ContainsAnyOf(t, [needle]) && p <= needle && p in ps
    ensures ContainsAnyOf(t, ps)
  {
    ContainsPrefix(t, needle, p);
    var i :| 0 <= i < |ps| && ps[i] == p;
  }

  /** As written, the Password Manager case never applies: its needle contains `password`. */
  lemma PasswordManagerUnreachable(t: string, n: string)
    ensures KindOf(t, n) != PasswordManager
  {
    if ContainsAnyOf(t, ["password manager"]) {
      ContainsAnyOfPrefix(t, "password manager", "password", ["pw", "pwd", "password"]);
    }
  }

  /** As written, an `account manager` type is classified as an Account. */
  lemma AccountManagerShadowed(t: string, n: string)
    requires ContainsAnyOf(t, ["account manager"])
    ensures KindOf(t, n) in {Password, Account}
  {
    ContainsAnyOfPrefix(t, "account manager", "account", ["account", "mail"]);
  }

  lemma KindNeverFour(t: string, n: string)
    ensures FillColour(KindOf(t, n)) != "4"
  {
    PasswordManagerUnreachable(t, n);
  }

  /** So no node is ever given fill colour 4. */
  lemma NoNodeGetsColourFour(v: VertexView)
    ensures Lookup(NodeAttributes(v), "fillcolor") != Some("4")
  {
    KindNeverFour(Lower(v.vertexType), Lower(v.name));
    ClassifiedLookup(Lower(v.vertexType), Lower(v.name));
  }

  /** With the intended order, password managers get colour 4 ... */
  lemma IntendedPasswordManager(t: string, n: string)
    requires ContainsAnyOf(t, ["password manager"])
    ensures Lookup(IntendedClassifiedAttributes(t, n), "fillcolor") == Some("4")
  {
    IntendedClassifiedLookup(t, n);
  }

  lemma IntendedKindAccountManager(t: string, n: string)
    requires !ContainsAnyOf(t, ["password manager"]) && ContainsAnyOf(t, ["account manager"])
    ensures IntendedKindOf(t, n) == AccountManager
  {
    assert Contains(t, ["account manager", "cyberguard"][0]);
  }

  /** ... and account managers the CyberGuard colour. */
  lemma IntendedAccountManager(t: string, n: string)
    requires !ContainsAnyOf(t, ["password manager"]) && ContainsAnyOf(t, ["account manager"])
    ensures Lookup(IntendedClassifiedAttributes(t, n), "fillcolor") == Some("#8E61F0")
  {
    IntendedKindAccountManager(t, n);
    IntendedClassifiedLookup(t, n);
  }

  /** The two orders agree on every node that mentions neither manager. */
  lemma IntendedAgreesElsewhere(t: string, n: string)
    requires !ContainsAnyOf(t, ["password manager"]) && !ContainsAnyOf(t, ["account manager"])
    requires !ContainsAnyOf(t, ["cyberguard"]) && !ContainsAnyOf(n, ["cyberguard"])
    ensures IntendedKindOf(t, n) == KindOf(t, n)
  {
    assert !Contains(t, "account manager") by { assert ["account manager"][0] == "account manager"; }
    assert !Contains(t, "cyberguard") by { assert ["cyberguard"][0] == "cyberguard"; }
  }

  // ----- edges -----

  /** The counter an edge draws from: conjunction or lone, recovery or normal. */
  datatype Category = Category(conjunction: bool, recovery: bool)

  function CategoryOf(e: EdgeView): Category {
    Category(e.isConjunction, e.IsRecovery())
  }

  const NormalArrow: Attrs := Dict(["arrowhead"], map["arrowhead" := "normal"])

  /**
    The style of an edge: recovery edges are dashed, lone edges get an empty
    arrowhead and black, hidden edges white.
   */
  function StyleAttributes(c: Category, hidden: bool): Attrs {
    var a := NormalArrow;
    var a := if c.recovery then a.Set("style", "dashed") else a;
    var a := if !c.conjunction then a.Set("arrowhead", "empty").Set("color", "black") else a;
    if hidden then a.Set("color", "white") else a
  }

  /** `compute_edge_attributes` of the basic theme up to the colour. */
  function EdgeStyle(e: EdgeView): Attrs {
    StyleAttributes(CategoryOf(e), e.IsHidden())
  }

  /** The arrowhead tells lone edges from conjunctions, and only recovery edges are dashed. */
  lemma StyleArrowAndDashes(c: Category, hidden: bool)
    ensures Lookup(StyleAttributes(c, hidden), "arrowhead") == Some(if c.conjunction then "normal" else "empty")
    ensures Lookup(StyleAttributes(c, hidden), "style") == if c.recovery then Some("dashed") else None
  {
  }

  /** White overrides black: only a visible conjunction edge is left without a colour. */
  lemma StyleColour(c: Category, hidden: bool)
    ensures Lookup(StyleAttributes(c, hidden), "color")
            == if hidden then Some("white") else if !c.conjunction then Some("black") else None
  {
  }

  /** The colour counter of each category. */
  datatype Counters = Counters(loneNormal: int, loneRecovery: int, conjunctionNormal: int, conjunctionRecovery: int) {
    function Get(c: Category): int {
      if c.conjunction then (if c.recovery then conjunctionRecovery else conjunctionNormal)
      else (if c.recovery then loneRecovery else loneNormal)
    }

    function Put(c: Category, v: int): (r: Counters)
      ensures r.Get(c) == v
      ensures forall d: Category :: d != c ==> r.Get(d) == Get(d)
    {
      if c.conjunction then (if c.recovery then this.(conjunctionRecovery := v) else this.(conjunctionNormal := v))
      else (if c.recovery then this.(loneRecovery := v) else this.(loneNormal := v))
    }
  }

  /** The theme's mutable state: the counters and the memo from edge id to colour. */
  datatype ColourState = ColourState(counters: Counters, memo: map<Option<int>, string>)

  const InitialState := ColourState(Counters(0, 0, 0, 0), map[])

  /**
    The arguments of one `compute_edge_color_by_id` call. Of the edge the call
    only reads its category.
   */
  datatype Request = Request(attributes: Option<Attrs>, category: Category, id: Option<int>, memoize: bool)

  predicate HasColour(r: Request) {
    r.attributes.Some? && "color" in r.attributes.value.m
  }

  /** The call draws a new colour from its category's counter. */
  predicate IsFresh(st: ColourState, r: Request) {
    !HasColour(r) && !(r.id in st.memo && r.memoize)
  }

  /** The palette index a counter selects. */
  function Slot(counter: int): (i: int)
    ensures 0 <= i < |Scheme|
  {
    counter % |Scheme|
  }

  /**
    The state after a `compute_edge_color_by_id` call, and the colour it adds
    (none when the attributes already have one).
   */
  function NextColour(st: ColourState, r: Request): (ColourState, Option<string>) {
    if HasColour(r) then (st, None)
    else if r.id in st.memo && r.memoize then (st, Some(st.memo[r.id]))
    else
      var counter := Slot(st.counters.Get(r.category));
      var memo := if r.memoize then st.memo[r.id := Scheme[counter]] else st.memo;
      (ColourState(st.counters.Put(r.category, counter + 1), memo), Some(Scheme[counter]))
  }

  /** `compute_edge_color_by_id`: missing attributes become `{}`, then the colour is added. */
  function ColourById(st: ColourState, r: Request): (ColourState, Attrs) {
    var a := r.attributes.GetOr(Empty());
    var (next, colour) := NextColour(st, r);
    (next, if colour.Some? then a.Set("color", colour.value) else a)
  }

  function ColourOf(a: Attrs): Option<string> {
    Lookup(a, "color")
  }

  /** Without a colour of its own, the call's result has exactly the colour `NextColour` picks. */
  lemma ColourAdded(st: ColourState, r: Request)
    requires !HasColour(r)
    ensures ColourOf(ColourById(st, r).1) == NextColour(st, r).1
  {
  }

  /** A colour that is already there is never replaced, and nothing changes. */
  lemma ColourKept(st: ColourState, r: Request)
    requires HasColour(r)
    ensures ColourById(st, r) == (st, r.attributes.value)
  {
  }

  /** Only the colour is added: every other attribute passes through. */
  lemma OtherAttributesKept(st: ColourState, r: Request, k: string)
    requires k != "color"
    ensures Lookup(ColourById(st, r).1, k) == Lookup(r.attributes.GetOr(Empty()), k)
  {
  }

  /** A memoised id gets its memoised colour, and nothing changes. */
  lemma MemoHit(st: ColourState, r: Request)
    requires !HasColour(r) && r.memoize && r.id in st.memo
    ensures NextColour(st, r) == (st, Some(st.memo[r.id]))
  {
  }

  /**
    A fresh draw takes `Scheme[c mod 18]` for its category's counter `c`,
    stores `c mod 18 + 1` back, leaves the other counters alone, and
    memoises the colour when asked to.
   */
  lemma FreshDraw(st: ColourState, r: Request)
    requires IsFresh(st, r)
    ensures var c := st.counters.Get(r.category);
      && NextColour(st, r).1 == Some(Scheme[c % |Scheme|])
      && NextColour(st, r).0.counters.Get(r.category) == c % |Scheme| + 1
      && (forall d: Category :: d != r.category ==> NextColour(st, r).0.counters.Get(d) == st.counters.Get(d))
      && NextColour(st, r).0.memo == if r.memoize then st.memo[r.id := Scheme[c % |Scheme|]] else st.memo
  {
  }

  // ----- runs of colour requests -----

  /** The state after the calls `rs`, in order. */
  function StateAfter(st: ColourState, rs: seq<Request>): ColourState
    decreases |rs|
  {
    if rs == [] then st else NextColour(StateAfter(st, rs[..|rs| - 1]), rs[|rs| - 1]).0
  }

  /** The colour the `i`-th call adds (see `ColourAdded`). */
  function ColourAt(st: ColourState, rs: seq<Request>, i: int): Option<string>
    requires 0 <= i < |rs|
  {
    NextColour(StateAfter(st, rs[..i]), rs[i]).1
  }

  /** The number of fresh draws in category `c` among the calls `rs`. */
  function FreshCount(st: ColourState, rs: seq<Request>, c: Category): nat
    decreases |rs|
  {
    if rs == [] then 0
    else
      var last := rs[|rs| - 1];
      var drawn := IsFresh(StateAfter(st, rs[..|rs| - 1]), last) && last.category == c;
      FreshCount(st, rs[..|rs| - 1], c) + (if drawn then 1 else 0)
  }

  /** Counters equal modulo the palette size stay so when both advance. */
  lemma SlotSuccessor(x: int, y: int)
    requires Slot(x) == Slot(y)
    ensures Slot(Slot(x) + 1) == Slot(y + 1)
  {
    assert |Scheme| == 18;
  }

  /** One call advances its own category's counter on a fresh draw, and no other counter. */
  lemma NextCounter(st: ColourState, r: Request, c: Category)
    ensures NextColour(st, r).0.counters.Get(c)
            == if IsFresh(st, r) && r.category == c then Slot(st.counters.Get(c)) + 1 else st.counters.Get(c)
  {
  }

  /** Each counter advances by one, modulo the palette size, per fresh draw in its category. */
  lemma {:induction false} CounterTracksFresh(st: ColourState, rs: seq<Request>, c: Category)
    ensures Slot(StateAfter(st, rs).counters.Get(c)) == Slot(st.counters.Get(c) + FreshCount(st, rs, c))
    decreases |rs|
  {
    if rs != [] {
      var init := rs[..|rs| - 1];
      var last := rs[|rs| - 1];
      var before := StateAfter(st, init);
      CounterTracksFresh(st, init, c);
      NextCounter(before, last, c);
      assert StateAfter(st, rs) == NextColour(before, last).0;
      if IsFresh(before, last) && last.category == c {
        assert FreshCount(st, rs, c) == FreshCount(st, init, c) + 1;
        SlotSuccessor(before.counters.Get(c), st.counters.Get(c) + FreshCount(st, init, c));
      } else {
        assert FreshCount(st, rs, c) == FreshCount(st, init, c);
      }
    }
  }

  /**
    After the calls `rs`, a fresh draw takes the palette entry `(c0 + k) mod 18`,
    where `c0` is its category's starting counter and `k` the number of fresh
    draws the category has had so far.
   */
  lemma FreshColourAfter(st: ColourState, rs: seq<Request>, r: Request)
    requires IsFresh(StateAfter(st, rs), r)
    ensures NextColour(StateAfter(st, rs), r).1 == Some(Scheme[Slot(st.counters.Get(r.category) + FreshCount(st, rs, r.category))])
  {
    CounterTracksFresh(st, rs, r.category);
  }

  /** From the theme's initial state the `k`-th fresh colour of every category is `Scheme[k mod 18]`. */
  lemma InitialFreshColour(rs: seq<Request>, r: Request)
    requires IsFresh(StateAfter(InitialState, rs), r)
    ensures NextColour(StateAfter(InitialState, rs), r).1 == Some(Scheme[Slot(FreshCount(InitialState, rs, r.category))])
  {
    var k := FreshCount(InitialState, rs, r.category);
    assert InitialState.counters.Get(r.category) + k == k;
    FreshColourAfter(InitialState, rs, r);
  }

  lemma {:induction false} StateAfterAppend(st: ColourState, a: seq<Request>, b: seq<Request>)
    ensures StateAfter(st, a + b) == StateAfter(StateAfter(st, a), b)
    decreases |b|
  {
    if b == [] {
      assert a + b == a;
    } else {
      assert (a + b)[..|a + b| - 1] == a + b[..|b| - 1];
      StateAfterAppend(st, a, b[..|b| - 1]);
    }
  }

  /** A memoised colour is never changed or forgotten. */
  lemma {:induction false} MemoStable(st: ColourState, rs: seq<Request>, id: Option<int>)
    requires id in st.memo
    ensures id in StateAfter(st, rs).memo && StateAfter(st, rs).memo[id] == st.memo[id]
    decreases |rs|
  {
    if rs != [] {
      MemoStable(st, rs[..|rs| - 1], id);
    }
  }

  /** After a memoising call without a colour, the memo holds the colour it added. */
  lemma MemoRecordsResult(st: ColourState, r: Request)
    requires !HasColour(r) && r.memoize
    ensures r.id in NextColour(st, r).0.memo
    ensures NextColour(st, r).1 == Some(NextColour(st, r).0.memo[r.id])
  {
  }

  /** Memoising calls for the same id that find no colour add the same colour. */
  lemma SameIdSameColour(st: ColourState, rs: seq<Request>, i: int, j: int)
    requires 0 <= i < j < |rs| && rs[i].id == rs[j].id
    requires rs[i].memoize && rs[j].memoize && !HasColour(rs[i]) && !HasColour(rs[j])
    ensures ColourAt(st, rs, i) == ColourAt(st, rs, j)
  {
    var id := rs[i].id;
    var after := NextColour(StateAfter(st, rs[..i]), rs[i]).0;
    MemoRecordsResult(StateAfter(st, rs[..i]), rs[i]);
    assert rs[..i + 1] == rs[..i] + [rs[i]];
    assert StateAfter(st, rs[..i + 1]) == after;
    assert rs[..j] == rs[..i + 1] + rs[i + 1..j];
    StateAfterAppend(st, rs[..i + 1], rs[i + 1..j]);
    MemoStable(after, rs[i + 1..j], id);
  }

  /** Every memoised colour is one of the palette's. */
  ghost predicate MemoInScheme(st: ColourState) {
    forall id :: id in st.memo ==> st.memo[id] in Scheme
  }

  /** A colour drawn or remembered comes from the palette, and the memo stays within it. */
  lemma ColourInScheme(st: ColourState, r: Request)
    requires MemoInScheme(st)
    ensures MemoInScheme(NextColour(st, r).0)
    ensures NextColour(st, r).1.Some? ==> NextColour(st, r).1.value in Scheme
    ensures NextColour(st, r).1.None? <==> HasColour(r)
  {
  }

  lemma {:induction false} MemoInSchemeAfter(rs: seq<Request>)
    ensures MemoInScheme(StateAfter(InitialState, rs))
    decreases |rs|
  {
    if rs != [] {
      MemoInSchemeAfter(rs[..|rs| - 1]);
      ColourInScheme(StateAfter(InitialState, rs[..|rs| - 1]), rs[|rs| - 1]);
    }
  }

  /** From the initial state every colour the theme adds is one of the palette's. */
  lemma ColoursFromPalette(rs: seq<Request>, i: int)
    requires 0 <= i < |rs|
    ensures ColourAt(InitialState, rs, i).Some? ==> ColourAt(InitialState, rs, i).value in Scheme
  {
    MemoInSchemeAfter(rs[..i]);
    ColourInScheme(StateAfter(InitialState, rs[..i]), rs[i]);
  }

  /** Calls that bring their own colour never move a counter: lone-edge counters stay put. */
  lemma {:induction false} ColouredCallsKeepCounter(st: ColourState, rs: seq<Request>, c: Category)
    requires forall i :: 0 <= i < |rs| && rs[i].category == c ==> HasColour(rs[i])
    ensures StateAfter(st, rs).counters.Get(c) == st.counters.Get(c)
    decreases |rs|
  {
    if rs != [] {
      var init := rs[..|rs| - 1];
      assert forall i :: 0 <= i < |init| ==> init[i] == rs[i];
      ColouredCallsKeepCounter(st, init, c);
      NextCounter(StateAfter(st, init), rs[|rs| - 1], c);
    }
  }

  // ----- the basic and minimal hooks -----

  /** The call `compute_edge_attributes` of the basic theme makes for edge `e`. */
  function BasicRequest(e: EdgeView): Request {
    Request(Some(EdgeStyle(e)), CategoryOf(e), e.uniqueGroupId, true)
  }

  /** `AGGraphvizThemeBasic.compute_edge_attributes` */
  function BasicEdgeAttributes(st: ColourState, e: EdgeView, skipColourComputation: bool): (ColourState, Attrs) {
    if skipColourComputation then (st, EdgeStyle(e)) else ColourById(st, BasicRequest(e))
  }

  /** Lone and hidden edges keep their black or white, and the state does not change. */
  lemma BasicLoneOrHidden(st: ColourState, e: EdgeView, skipColourComputation: bool)
    requires !e.isConjunction || e.IsHidden()
    ensures BasicEdgeAttributes(st, e, skipColourComputation) == (st, EdgeStyle(e))
    ensures ColourOf(EdgeStyle(e)) == Some(if e.IsHidden() then "white" else "black")
  {
    StyleColour(CategoryOf(e), e.IsHidden());
  }

  /** A visible conjunction edge gets the colour the allocator picks for its unique group id. */
  lemma BasicConjunction(st: ColourState, e: EdgeView)
    requires e.isConjunction && !e.IsHidden()
    ensures !HasColour(BasicRequest(e))
    ensures BasicEdgeAttributes(st, e, false).0 == NextColour(st, BasicRequest(e)).0
    ensures ColourOf(BasicEdgeAttributes(st, e, false).1) == NextColour(st, BasicRequest(e)).1
  {
    StyleColour(CategoryOf(e), e.IsHidden());
    ColourAdded(st, BasicRequest(e));
  }

  /** Over any run of basic-theme edges the lone-edge counters never move. */
  lemma BasicLoneCountersStay(st: ColourState, es: seq<EdgeView>, recovery: bool)
    ensures StateAfter(st, seq(|es|, i requires 0 <= i < |es| => BasicRequest(es[i]))).counters.Get(Category(false, recovery))
            == st.counters.Get(Category(false, recovery))
  {
    var rs := seq(|es|, i requires 0 <= i < |es| => BasicRequest(es[i]));
    forall i | 0 <= i < |rs| && rs[i].category == Category(false, recovery) ensures HasColour(rs[i]) {
      StyleColour(CategoryOf(es[i]), es[i].IsHidden());
    }
    ColouredCallsKeepCounter(st, rs, Category(false, recovery));
  }

  /** The minimal theme's label rule: `comp` dashes the edge, otherwise `gen` dots it. */
  function LabelStyle(a: Attrs, e: EdgeView): Attrs {
    if e.edgeLabel.Some? && e.edgeLabel.value != "" then
      if Contains(e.edgeLabel.value, "comp") then a.Set("style", "dashed")
      else if Contains(e.edgeLabel.value, "gen") then a.Set("style", "dotted")
      else a
    else a
  }

  /** The call the minimal theme makes: the label-styled attributes, coloured by the per-vertex group id. */
  function MinimalRequest(e: EdgeView): Request {
    Request(Some(LabelStyle(EdgeStyle(e), e)), CategoryOf(e), e.groupId, true)
  }

  /**
    `AGGraphvizThemeMinimal.compute_edge_attributes`: the basic computation with
    colouring skipped, the label rule, then a colour by group id.
   */
  function MinimalEdgeAttributes(st: ColourState, e: EdgeView): (ColourState, Attrs) {
    var (st1, a) := BasicEdgeAttributes(st, e, true);
    ColourById(st1, Request(Some(LabelStyle(a, e)), CategoryOf(e), e.groupId, true))
  }

  /** The label rule only ever changes the style. */
  lemma LabelStyleLookup(a: Attrs, e: EdgeView, k: string)
    ensures Lookup(LabelStyle(a, e), k)
            == if k == "style" && e.edgeLabel.Some? && Contains(e.edgeLabel.value, "comp") then Some("dashed")
               else if k == "style" && e.edgeLabel.Some? && Contains(e.edgeLabel.value, "gen") then Some("dotted")
               else Lookup(a, k)
  {
  }

  /** The minimal theme is the allocator applied to its own request, coloured by group id. */
  lemma MinimalIsColourById(st: ColourState, e: EdgeView)
    ensures MinimalEdgeAttributes(st, e) == ColourById(st, MinimalRequest(e))
    ensures MinimalRequest(e).id == e.groupId && MinimalRequest(e).category == CategoryOf(e)
    ensures HasColour(MinimalRequest(e)) <==> !e.isConjunction || e.IsHidden()
  {
    StyleColour(CategoryOf(e), e.IsHidden());
    LabelStyleLookup(EdgeStyle(e), e, "color");
  }

  // ----- the themes as the writer sees them -----

  /** The basic theme; its node override also takes a `label` parameter. */
  const BasicTheme: Theme<ColourState> := Theme("basic", true, None, None, ThreeParameterOverride,
    (st: ColourState, c: EdgeContext) => var r := BasicEdgeAttributes(st, c.edge, false); (r.0, Some(r.1)))

  /** The minimal theme, which inherits that override. */
  const MinimalTheme: Theme<ColourState> := Theme("minimal", true, None, None, ThreeParameterOverride,
    (st: ColourState, c: EdgeContext) => var r := MinimalEdgeAttributes(st, c.edge); (r.0, Some(r.1)))

  /** The basic theme object: its counters and memo are updated in place. */
  class Basic {
    var counters: Counters
    var memo: map<Option<int>, string>
    const skipColourComputation: bool

    constructor (skipColourComputation: bool)
      ensures State() == InitialState && this.skipColourComputation == skipColourComputation
    {
      counters := Counters(0, 0, 0, 0);
      memo := map[];
      this.skipColourComputation := skipColourComputation;
    }

    function State(): ColourState
      reads this
    {
      ColourState(counters, memo)
    }

    /** `compute_edge_color_by_id` */
    method ComputeEdgeColourById(attributes: Option<Attrs>, edge: EdgeView, edgeId: Option<int>, withMemoization: bool)
      returns (r: Attrs)
      modifies this
      ensures (State(), r) == ColourById(old(State()), Request(attributes, CategoryOf(edge), edgeId, withMemoization))
    {
      r := attributes.GetOr(Empty());
      if "color" !in r.m {
        if edgeId in memo && withMemoization {
          r := r.Set("color", memo[edgeId]);
        } else {
          var category := CategoryOf(edge);
          var counter := counters.Get(category) % |Scheme|;
          counters := counters.Put(category, counter + 1);
          if withMemoization {
            memo := memo[edgeId := Scheme[counter]];
          }
          r := r.Set("color", Scheme[counter]);
        }
      }
    }

    /** `compute_edge_attributes` */
    method ComputeEdgeAttributes(context: EdgeContext) returns (r: Attrs)
      modifies this
      ensures (State(), r) == BasicEdgeAttributes(old(State()), context.edge, skipColourComputation)
    {
      var edge := context.edge;
      r := NormalArrow;
      if edge.IsRecovery() {
        r := r.Set("style", "dashed");
      }
      if !edge.isConjunction {
        r := r.Set("arrowhead", "empty").Set("color", "black");
      }
      if edge.IsHidden() {
        r := r.Set("color", "white");
      }
      if !skipColourComputation {
        r := ComputeEdgeColourById(Some(r), edge, edge.uniqueGroupId, true);
      }
    }
  }

  /** The minimal theme object: a basic theme with colouring skipped, which it then colours itself. */
  class Minimal {
    const base: Basic

    /** The base object never colours edges itself. */
    predicate Valid()
      reads this
    {
      base.skipColourComputation
    }

    constructor ()
      ensures Valid() && fresh(base) && base.State() == InitialState
    {
      base := new Basic(true);
    }

    /** `compute_edge_attributes` */
    method ComputeEdgeAttributes(context: EdgeContext) returns (r: Attrs)
      requires Valid()
      modifies base
      ensures (base.State(), r) == MinimalEdgeAttributes(old(base.State()), context.edge)
    {
      var edge := context.edge;
      r := base.ComputeEdgeAttributes(context);
      assert r == EdgeStyle(edge) && base.State() == old(base.State());
      if edge.edgeLabel.Some? && edge.edgeLabel.value != "" {
        if Contains(edge.edgeLabel.value, "comp") {
          r := r.Set("style", "dashed");
        } else if Contains(edge.edgeLabel.value, "gen") {
          r := r.Set("style", "dotted");
        }
      }
      assert r == LabelStyle(EdgeStyle(edge), edge);
      r := base.ComputeEdgeColourById(Some(r), edge, edge.groupId, true);
    }
  }
}
