/**
  The older `basic` theme: the same node classification, its node hook taking
  the two arguments the writer passes, and an edge colouring written inline
  with a palette that starts with black, which the counter arithmetic skips.
 */
module ThemeBasicOld {
  import opened Wrappers
  import opened Dicts
  import opened GraphvizWriter
  import opened Strings
  import opened ThemeBasic

  const OldScheme: seq<string> := [
    "black", "blue", "red", "green", "forestgreen", "deeppink", "gold", "brown", "purple", "cyan2",
    "yellow", "darkorange", "aquamarine", "bisque", "darkolivegreen2", "turquoise",
    "cornflowerblue", "cadetblue", "grey"]

  /** The older palette is black followed by the newer one. */
  lemma OldSchemeShifted()
    ensures OldScheme == ["black"] + Scheme
  {
  }

  /** The palette index a counter selects: `counter mod 18 + 1`, never 0. */
  function OldSlot(counter: int): (i: int)
    ensures 1 <= i < |OldScheme|
  {
    counter % (|OldScheme| - 1) + 1
  }

  /**
    The state after one `compute_edge_attributes` call on attributes `a` for an
    edge of category `c` with unique group id `id`, and the colour it adds.
    Every drawn colour is memoised.
   */
  function OldNextColour(st: ColourState, a: Attrs, c: Category, id: Option<int>): (ColourState, Option<string>) {
    if "color" in a.m then (st, None)
    else if id in st.memo then (st, Some(st.memo[id]))
    else
      var counter := OldSlot(st.counters.Get(c));
      (ColourState(st.counters.Put(c, counter), st.memo[id := OldScheme[counter]]), Some(OldScheme[counter]))
  }

  /** `compute_edge_attributes` of the older theme. */
  function OldEdgeAttributes(st: ColourState, e: EdgeView): (ColourState, Attrs) {
    var a := EdgeStyle(e);
    var (next, colour) := OldNextColour(st, a, CategoryOf(e), e.uniqueGroupId);
    (next, if colour.Some? then a.Set("color", colour.value) else a)
  }

  /** Index `k + 1` of the older palette is index `k` of the newer one. */
  lemma OldSchemeIndex(k: int)
    requires 0 <= k < |Scheme|
    ensures OldScheme[k + 1] == Scheme[k]
  {
    OldSchemeShifted();
  }

  /** The older allocator takes the same steps as the newer one with memoisation on. */
  lemma OldNextAgrees(st: ColourState, a: Attrs, c: Category, id: Option<int>)
    ensures OldNextColour(st, a, c, id) == NextColour(st, Request(Some(a), c, id, true))
  {
    var r := Request(Some(a), c, id, true);
    assert HasColour(r) <==> "color" in a.m;
    if "color" !in a.m && id !in st.memo {
      var k := Slot(st.counters.Get(c));
      assert OldSlot(st.counters.Get(c)) == k + 1;
      OldSchemeIndex(k);
    }
  }

  /**
    So the older theme colours every edge exactly as the newer one does when
    it does not skip colouring: same attributes, same new state.
   */
  lemma OldAgreesWithBasic(st: ColourState, e: EdgeView)
    ensures OldEdgeAttributes(st, e) == BasicEdgeAttributes(st, e, false)
  {
    OldNextAgrees(st, EdgeStyle(e), CategoryOf(e), e.uniqueGroupId);
  }

  /** Black, the colour of lone edges, is never drawn for a conjunction. */
  lemma OldNeverDrawsBlack(st: ColourState, a: Attrs, c: Category, id: Option<int>)
    requires "color" !in a.m && id !in st.memo
    ensures OldNextColour(st, a, c, id).1 != Some("black")
  {
    var k := OldSlot(st.counters.Get(c));
    OldSchemeIndex(k - 1);
    assert "black" !in Scheme;
  }

  /**
    The older theme, whose node hook the writer can call. Its classification
    is the one `basic` has, with the same case order.
   */
  const OldBasicTheme: Theme<ColourState> := Theme("basic", true, None, None,
    NodeHook((v: VertexView, name: string) => Some(NodeAttributes(v))),
    (st: ColourState, c: EdgeContext) => var r := OldEdgeAttributes(st, c.edge); (r.0, Some(r.1)))

  /** The same theme with the manager cases tried before the cases they contain. */
  const IntendedOldBasicTheme: Theme<ColourState> := Theme("basic", true, None, None,
    NodeHook((v: VertexView, name: string) => Some(IntendedNodeAttributes(v))),
    OldBasicTheme.edgeHook)

  /** The fill colour the older theme's node hook gives a vertex. */
  function OldNodeFill(theme: Theme<ColourState>, v: VertexView): Option<string>
    requires theme.nodeHook.NodeHook?
  {
    var a := theme.nodeHook.attributes(v, v.name);
    if a.Some? then Lookup(a.value, "fillcolor") else None
  }

  /** As written, the older hook fills a password manager with the password colour 1. */
  lemma OldPasswordManagerIsPassword(v: VertexView)
    requires ContainsAnyOf(Lower(v.vertexType), ["password manager"])
    ensures OldNodeFill(OldBasicTheme, v) == Some("1")
  {
    var t, n := Lower(v.vertexType), Lower(v.name);
    ContainsAnyOfPrefix(t, "password manager", "password", ["pw", "pwd", "password"]);
    ClassifiedLookup(t, n);
  }

  /**
    As written, the older hook fills an account manager whose type and name
    mention no password with the account colour 2.
   */
  lemma OldAccountManagerIsAccount(v: VertexView)
    requires ContainsAnyOf(Lower(v.vertexType), ["account manager"])
    requires !ContainsAnyOf(Lower(v.vertexType), ["pw", "pwd", "password"])
    requires !ContainsAnyOf(Lower(v.name), ["pw", "pwd", "password"])
    ensures OldNodeFill(OldBasicTheme, v) == Some("2")
  {
    var t, n := Lower(v.vertexType), Lower(v.name);
    ContainsAnyOfPrefix(t, "account manager", "account", ["account", "mail"]);
    ClassifiedLookup(t, n);
  }

  /** As intended, the older hook fills password managers with 4 ... */
  lemma IntendedOldPasswordManager(v: VertexView)
    requires ContainsAnyOf(Lower(v.vertexType), ["password manager"])
    ensures OldNodeFill(IntendedOldBasicTheme, v) == Some("4")
  {
    IntendedPasswordManager(Lower(v.vertexType), Lower(v.name));
  }

  /** ... and account managers with the CyberGuard colour. */
  lemma IntendedOldAccountManager(v: VertexView)
    requires !ContainsAnyOf(Lower(v.vertexType), ["password manager"])
    requires ContainsAnyOf(Lower(v.vertexType), ["account manager"])
    ensures OldNodeFill(IntendedOldBasicTheme, v) == Some("#8E61F0")
  {
    IntendedAccountManager(Lower(v.vertexType), Lower(v.name));
  }

  /** The older theme object: its counters and memo are updated in place. */
  class OldBasic {
    var counters: Counters
    var memo: map<Option<int>, string>

    constructor ()
      ensures State() == InitialState
    {
      counters := Counters(0, 0, 0, 0);
      memo := map[];
    }

    function State(): ColourState
      reads this
    {
      ColourState(counters, memo)
    }

    /** `compute_edge_attributes` */
    method ComputeEdgeAttributes(context: EdgeContext) returns (r: Attrs)
      modifies this
      ensures (State(), r) == OldEdgeAttributes(old(State()), context.edge)
    {
      var edge := context.edge;
      r := NormalArrow;
      if edge.IsRecovery() {
        r := r.Set("style", "dashed");
      }
      if !edge.isConjunction {
        r := r.Set("arrowhead", "empty").Set("color", "black");
      }
      if edge.IsHidden() {
        r := r.Set("color", "white");
      }
      assert r == EdgeStyle(edge);
      if "color" !in r.m {
        var colour;
        if edge.uniqueGroupId in memo {
          colour := memo[edge.uniqueGroupId];
        } else {
          var category := CategoryOf(edge);
          var counter := counters.Get(category) % (|OldScheme| - 1) + 1;
          counters := counters.Put(category, counter);
          colour := OldScheme[counter];
          memo := memo[edge.uniqueGroupId := colour];
        }
        assert OldNextColour(old(State()), r, CategoryOf(edge), edge.uniqueGroupId) == (State(), Some(colour));
        r := r.Set("color", colour);
      } else {
        assert OldNextColour(old(State()), r, CategoryOf(edge), edge.uniqueGroupId) == (State(), None);
      }
    }
  }
}
