/**
  The Graphviz DOT writer: attribute dictionaries serialised as DOT attribute
  lists, the writer's default attributes merged with a theme's, one node line
  per vertex, one edge line per edge with per-vertex edge counters updated as
  the edges are emitted, and the check of a theme's feature settings.

  A theme is a record of hooks. Its edge hook threads a state of the theme's
  own choosing, so stateful themes (the colour allocators) plug in as pure
  state-passing functions.
 */
module GraphvizWriter {
  import opened Wrappers
  import opened Dicts
  import opened Strings
  import opened Graphs

  /** A Graphviz attribute dictionary. */
  type Attrs = d: Dict<string, string> | d.Valid() witness Dict([], map[])

  function Lookup(d: Attrs, k: string): Option<string> {
    if k in d.m then Some(d.m[k]) else None
  }

  /** What a theme sees of a vertex. */
  datatype VertexView = VertexView(name: string, vertexType: string)

  /** What a theme sees of an edge. */
  datatype EdgeView = EdgeView(dependencyName: string, edgeLabel: Option<string>, groupId: Option<int>,
                               uniqueGroupId: Option<int>, isConjunction: bool)
  {
    predicate IsRecovery() {
      edgeLabel.Some? && Contains(edgeLabel.value, "rec")
    }

    predicate IsHidden() {
      edgeLabel.Some? && Contains(edgeLabel.value, "invis")
    }
  }

  /** A vertex's edge counters as they stand when the theme is asked about an edge. */
  datatype Counts = Counts(incoming: int, outgoing: int)

  datatype EdgeContext = EdgeContext(from: VertexView, fromStatistics: Counts, edge: EdgeView,
                                     to: VertexView, toStatistics: Counts)

  /**
    A theme's node hook as the writer calls it, with the vertex and its name.
    An override that declares a third parameter cannot be called that way.
   */
  datatype NodeHook = NodeHook(attributes: (VertexView, string) -> Option<Attrs>) | ThreeParameterOverride

  /** The parts of a theme the writer consults. */
  datatype Theme<!S> = Theme(
    name: string,
    retainDefaults: bool,
    supportedFeatures: Option<Dict<string, set<string>>>,
    graphAttributes: Option<Attrs>,
    nodeHook: NodeHook,
    edgeHook: (S, EdgeContext) -> (S, Option<Attrs>))

  datatype WriterError =
    | NodeHookTypeError                                        // the writer's two-argument call fails
    | InvalidFeatureValue(feature: string, value: string)      // a `theme.<feature>` setting outside its allowed set

  function VertexViewOf(v: Vertex): VertexView {
    VertexView(v.name, v.vertexType)
  }

  const DefaultGraphAttributes: Attrs := Of([
    ("rankdir", "BT"), ("splines", "ortho"), ("ranksep", ".75"), ("nodesep", ".5"), ("ordering", "in"),
    ("newrank", "true"), ("overlap", "prism1000"), ("overlap_scaling", "-1.1"), ("model", "circuit")])

  const DefaultNodeAttributes: Attrs := Of([("shape", "box")])

  const DefaultEdgeAttributes: Attrs := Empty()

  // ----- serialising attributes -----

  /** A value with every `"` written as `\"`. */
  function Escape(value: string): string {
    if '"' in value then ReplaceChar(value, '"', "\\\"") else value
  }

  /** Reads `\"` back as `"`. */
  function Unescape(s: string): string
    decreases |s|
  {
    if |s| >= 2 && s[0] == '\\' && s[1] == '"' then "\"" + Unescape(s[2..])
    else if s == [] then ""
    else [s[0]] + Unescape(s[1..])
  }

  lemma EscapedStart(value: string)
    requires ReplaceChar(value, '"', "\\\"") != []
    ensures ReplaceChar(value, '"', "\\\"")[0] != '"'
  {
  }

  lemma {:induction false} ReplaceQuotesRoundTrip(value: string)
    ensures Unescape(ReplaceChar(value, '"', "\\\"")) == value
    decreases |value|
  {
    if value != [] {
      var rest := ReplaceChar(value[1..], '"', "\\\"");
      ReplaceQuotesRoundTrip(value[1..]);
      if value[0] == '"' {
        assert ReplaceChar(value, '"', "\\\"")[2..] == rest;
      } else {
        if rest != [] {
          EscapedStart(value[1..]);
        }
        assert ReplaceChar(value, '"', "\\\"")[1..] == rest;
      }
    }
  }

  /** Escaping loses nothing: unescaping gives the value back. */
  lemma EscapeRoundTrip(value: string)
    ensures Unescape(Escape(value)) == value
  {
    ReplaceQuotesRoundTrip(value);
  }

  /** Every `"` of an escaped value is preceded by a backslash. */
  lemma {:induction false} EscapeNoBareQuote(value: string)
    ensures forall i :: 0 <= i < |Escape(value)| && Escape(value)[i] == '"' ==> i > 0 && Escape(value)[i - 1] == '\\'
    decreases |value|
  {
    if value != [] && '"' in value {
      var e := Escape(value);
      var rest := ReplaceChar(value[1..], '"', "\\\"");
      EscapeNoBareQuote(value[1..]);
      assert Escape(value[1..]) == rest;
      var h := if value[0] == '"' then 2 else 1;
      assert e == e[..h] + rest;
      forall i | 0 <= i < |e| && e[i] == '"' ensures i > 0 && e[i - 1] == '\\' {
        if i >= h {
          assert e[i] == rest[i - h];
          assert e[i - 1] == rest[i - h - 1];
        }
      }
    }
  }

  function JoinSeparator(statements: bool): string {
    if statements then "\n    " else ", "
  }

  /** `key="value"`, and in statement mode `;` and a link to the attribute's documentation. */
  function AttributeEntry(key: string, value: string, statements: bool): string {
    var comment := if statements then " // https://graphviz.org/docs/attrs/" + key + "/" else "";
    key + "=\"" + Escape(value) + "\"" + (if statements then ";" else "") + comment
  }

  function AttributeEntries(attrs: Attrs, statements: bool): (r: seq<string>)
    ensures |r| == |attrs.keys|
  {
    seq(|attrs.keys|, i requires 0 <= i < |attrs.keys| => AttributeEntry(attrs.keys[i], attrs.m[attrs.keys[i]], statements))
  }

  function AttributesText(attrs: Attrs, statements: bool): string {
    Join(JoinSeparator(statements), AttributeEntries(attrs, statements))
  }

  /** `_dict_to_graphviz_attributes` */
  method DictToAttributes(attrs: Attrs, statements: bool) returns (r: string)
    ensures r == AttributesText(attrs, statements)
  {
    var joinChar := if statements then "\n    " else ", ";
    var output: seq<string> := [];
    for i := 0 to |attrs.keys|
      invariant output == AttributeEntries(attrs, statements)[..i]
    {
      var key := attrs.keys[i];
      var value := attrs.m[key];
      var comment := if statements then " // https://graphviz.org/docs/attrs/" + key + "/" else "";
      if '"' in value {
        value := ReplaceChar(value, '"', "\\\"");
      }
      output := output + [key + "=\"" + value + "\"" + (if statements then ";" else "") + comment];
    }
    assert output == AttributeEntries(attrs, statements);
    r := Join(joinChar, output);
  }

  /** An empty dictionary serialises to the empty string; one entry serialises to that entry alone. */
  lemma AttributesTextSmall(attrs: Attrs, statements: bool)
    ensures |attrs.keys| == 0 ==> AttributesText(attrs, statements) == ""
    ensures |attrs.keys| == 1 ==>
              AttributesText(attrs, statements) == AttributeEntry(attrs.keys[0], attrs.m[attrs.keys[0]], statements)
  {
  }

  /**
    An entry starts with the key and `="`, and the quoted part that follows
    reads back as the value.
   */
  lemma AttributeEntryDecodes(key: string, value: string, statements: bool)
    ensures key + "=\"" <= AttributeEntry(key, value, statements)
    ensures Unescape(AttributeEntry(key, value, statements)[|key| + 2..|key| + 2 + |Escape(value)|]) == value
    ensures AttributeEntry(key, value, statements)[|key| + 2 + |Escape(value)|] == '"'
  {
    var e := AttributeEntry(key, value, statements);
    assert e[|key| + 2..|key| + 2 + |Escape(value)|] == Escape(value);
    EscapeRoundTrip(value);
  }

  lemma {:induction false} ReplaceQuotesKeepsLast(value: string)
    requires value != [] && value[|value| - 1] != '"'
    ensures ReplaceChar(value, '"', "\\\"") != []
    ensures ReplaceChar(value, '"', "\\\"")[|ReplaceChar(value, '"', "\\\"")| - 1] == value[|value| - 1]
    decreases |value|
  {
    if |value| > 1 {
      ReplaceQuotesKeepsLast(value[1..]);
    }
  }

  /**
    Only `"` is escaped, so a value ending in a backslash leaves the closing
    quote of its entry directly after that backslash: the entry ends in `\"`,
    which DOT's lexical rules read as an escaped quote rather than the end of
    the string.
   */
  lemma TrailingBackslashBeforeClosingQuote(key: string, value: string, statements: bool)
    requires value != [] && value[|value| - 1] == '\\'
    ensures AttributeEntry(key, value, statements)[|key| + 2 + |Escape(value)| - 1] == '\\'
    ensures AttributeEntry(key, value, statements)[|key| + 2 + |Escape(value)|] == '"'
  {
    var esc := Escape(value);
    assert esc != [] && esc[|esc| - 1] == '\\' by {
      if '"' in value {
        ReplaceQuotesKeepsLast(value);
      }
    }
    var comment := if statements then " // https://graphviz.org/docs/attrs/" + key + "/" else "";
    var rest := "\"" + (if statements then ";" else "") + comment;
    assert AttributeEntry(key, value, statements) == (key + "=\"") + esc + rest;
  }

  // ----- merging the writer's defaults with a theme's attributes -----

  /**
    The writer's defaults when there is no theme or the theme retains them,
    overlaid by what the theme computed (nothing counting as `{}`).
   */
  function MergeAttributes<S>(defaults: Attrs, theme: Option<Theme<S>>, computed: Option<Attrs>): Attrs {
    var base: Attrs := if theme.None? || theme.value.retainDefaults then defaults else Empty();
    var overlay: Attrs := if theme.None? then Empty() else computed.GetOr(Empty());
    base.Union(overlay)
  }

  lemma MergeLookup<S>(defaults: Attrs, theme: Option<Theme<S>>, computed: Option<Attrs>, k: string)
    ensures theme.None? ==> Lookup(MergeAttributes(defaults, theme, computed), k) == Lookup(defaults, k)
    ensures theme.Some? && computed.Some? && k in computed.value.m ==>
              Lookup(MergeAttributes(defaults, theme, computed), k) == Some(computed.value.m[k])
    ensures theme.Some? && (computed.None? || k !in computed.value.m) ==>
              Lookup(MergeAttributes(defaults, theme, computed), k)
              == if theme.value.retainDefaults then Lookup(defaults, k) else None
  {
  }

  /** `_compute_graph_attributes` */
  method ComputeGraphAttributes<S>(theme: Option<Theme<S>>) returns (r: string)
    ensures r == AttributesText(MergeAttributes(DefaultGraphAttributes, theme,
                                                if theme.Some? then theme.value.graphAttributes else None), true)
  {
    var graphAttributes: Attrs := if theme.None? || theme.value.retainDefaults then DefaultGraphAttributes else Empty();
    var overlay: Attrs := if theme.None? then Empty() else theme.value.graphAttributes.GetOr(Empty());
    graphAttributes := graphAttributes.Union(overlay);
    r := DictToAttributes(graphAttributes, true);
  }

  // ----- nodes -----

  const NoNodesComment := "    // (!) No nodes in graph."

  /** The node line of vertex `v` stored under `name`, or the error of calling the theme's hook. */
  function NodeLine<S>(name: string, v: VertexView, theme: Option<Theme<S>>): Result<string, WriterError> {
    if theme.Some? && theme.value.nodeHook.ThreeParameterOverride? then Failure(NodeHookTypeError)
    else
      var computed := if theme.Some? then theme.value.nodeHook.attributes(v, name) else None;
      Success("    " + name + " [" + AttributesText(MergeAttributes(DefaultNodeAttributes, theme, computed), false) + "];")
  }

  /** One line per vertex, in the graph's order; the first failing hook call aborts. */
  function NodeLines<S>(names: seq<string>, vs: seq<VertexView>, theme: Option<Theme<S>>): Result<seq<string>, WriterError>
    requires |names| == |vs|
    decreases |names|
  {
    if names == [] then Success([])
    else
      match NodeLines(names[..|names| - 1], vs[..|vs| - 1], theme)
      case Failure(e) => Failure(e)
      case Success(lines) =>
        match NodeLine(names[|names| - 1], vs[|vs| - 1], theme)
        case Failure(e) => Failure(e)
        case Success(line) => Success(lines + [line])
  }

  /** The views of the vertices of `d`, in its key order. */
  function ViewsOf(d: Dict<string, Vertex>): (r: seq<VertexView>)
    requires d.Valid()
    ensures |r| == |d.keys|
  {
    seq(|d.keys|, i requires 0 <= i < |d.keys| => VertexViewOf(d.m[d.keys[i]]))
  }

  ghost function DotNodes<S>(g: Graph?, theme: Option<Theme<S>>): Result<string, WriterError>
    reads g
    requires g != null ==> g.Valid()
  {
    if g == null || !g.HasVertices() then Success(NoNodesComment)
    else
      match NodeLines(g.vertices.keys, ViewsOf(g.vertices), theme)
      case Failure(e) => Failure(e)
      case Success(lines) => Success(Join("\n", lines))
  }

  /**
    `_compute_dot_nodes`: a comment when there is no graph or it has no
    vertices, otherwise the node lines joined by newlines.
   */
  method ComputeDotNodes<S>(g: Graph?, theme: Option<Theme<S>>) returns (r: Result<string, WriterError>)
    requires g != null ==> g.Valid()
    ensures r == DotNodes(g, theme)
  {
    if g == null || !g.HasVertices() {
      return Success(NoNodesComment);
    }
    var nodes := FormatNodes(g.vertices.keys, ViewsOf(g.vertices), theme);
    if nodes.Failure? {
      return Failure(nodes.error);
    }
    r := Success(Join("\n", nodes.value));
  }

  /** The loop of `_compute_dot_nodes` over the vertices. */
  method FormatNodes<S>(names: seq<string>, vs: seq<VertexView>, theme: Option<Theme<S>>) returns (r: Result<seq<string>, WriterError>)
    requires |names| == |vs|
    ensures r == NodeLines(names, vs, theme)
  {
    var nodes: seq<string> := [];
    for i := 0 to |names|
      invariant NodeLines(names[..i], vs[..i], theme) == Success(nodes)
    {
      assert names[..i + 1][..i] == names[..i] && vs[..i + 1][..i] == vs[..i];
      if theme.Some? && theme.value.nodeHook.ThreeParameterOverride? {
        NodeLinesStopAtFailure(names, vs, theme, i + 1);
        return Failure(NodeHookTypeError);
      }
      var line := FormatNode(names[i], vs[i], theme);
      nodes := nodes + [line];
    }
    assert names[..|names|] == names && vs[..|vs|] == vs;
    r := Success(nodes);
  }

  /** The loop body of `_compute_dot_nodes` for one vertex. */
  method FormatNode<S>(name: string, v: VertexView, theme: Option<Theme<S>>) returns (line: string)
    requires theme.Some? ==> theme.value.nodeHook.NodeHook?
    ensures NodeLine(name, v, theme) == Success(line)
  {
    var nodeAttributes: Attrs := if theme.None? || theme.value.retainDefaults then DefaultNodeAttributes else Empty();
    var overlay: Attrs := if theme.None? then Empty() else theme.value.nodeHook.attributes(v, name).GetOr(Empty());
    nodeAttributes := nodeAttributes.Union(overlay);
    var attributes := DictToAttributes(nodeAttributes, false);
    line := "    " + name + " [" + attributes + "];";
  }

  lemma {:induction false} NodeLinesStopAtFailure<S>(names: seq<string>, vs: seq<VertexView>, theme: Option<Theme<S>>, k: nat)
    requires |names| == |vs| && k <= |names|
    requires NodeLines(names[..k], vs[..k], theme).Failure?
    ensures NodeLines(names, vs, theme) == NodeLines(names[..k], vs[..k], theme)
    decreases |names|
  {
    if k < |names| {
      var n, w := names[..|names| - 1], vs[..|vs| - 1];
      assert n[..k] == names[..k] && w[..k] == vs[..k];
      NodeLinesStopAtFailure(n, w, theme, k);
    } else {
      assert names[..k] == names && vs[..k] == vs;
    }
  }

  /** Without a theme every vertex `n` becomes the line `    n [shape="box"];`, in vertex order. */
  lemma {:induction false} NodeLinesUnthemed<S>(names: seq<string>, vs: seq<VertexView>)
    requires |names| == |vs|
    ensures NodeLines<S>(names, vs, None).Success?
    ensures |NodeLines<S>(names, vs, None).value| == |names|
    ensures forall i :: 0 <= i < |names| ==> NodeLines<S>(names, vs, None).value[i] == "    " + names[i] + " [shape=\"box\"];"
    decreases |names|
  {
    if names != [] {
      var n := |names| - 1;
      NodeLinesUnthemed<S>(names[..n], vs[..n]);
      DefaultNodeText();
      assert MergeAttributes<S>(DefaultNodeAttributes, None, None) == DefaultNodeAttributes;
      assert "    " + names[n] + " [" + "shape=\"box\"" + "];" == "    " + names[n] + " [shape=\"box\"];";
      assert NodeLine<S>(names[n], vs[n], None) == Success("    " + names[n] + " [shape=\"box\"];");
    }
  }

  lemma DefaultNodeText()
    ensures AttributesText(DefaultNodeAttributes, false) == "shape=\"box\""
  {
    assert DefaultNodeAttributes.keys == ["shape"];
  }

  /** A hook declared with three parameters fails the call exactly when there is a vertex to style. */
  lemma NodeHookFails<S>(g: Graph, theme: Theme<S>)
    requires g.Valid() && theme.nodeHook.ThreeParameterOverride?
    ensures DotNodes(g, Some(theme)).Failure? <==> g.HasVertices()
  {
    if g.HasVertices() {
      NodeLinesFirstFails(g.vertices.keys, ViewsOf(g.vertices), theme);
    }
  }

  lemma {:induction false} NodeLinesFirstFails<S>(names: seq<string>, vs: seq<VertexView>, theme: Theme<S>)
    requires |names| == |vs| && names != [] && theme.nodeHook.ThreeParameterOverride?
    ensures NodeLines(names, vs, Some(theme)) == Failure(NodeHookTypeError)
    decreases |names|
  {
    if |names| > 1 {
      NodeLinesFirstFails(names[..|names| - 1], vs[..|vs| - 1], theme);
    }
  }

  // ----- edges -----

  const NoNodesNoEdgesComment := "    // (!) No nodes in graph (and thus no edges!)."
  const NoEdgesComment := "    // (!) No edges in graph."

  /** The per-vertex edge counters the writer keeps while it emits edges. */
  class VertexStatistics {
    const vertex: Vertex
    /** The index of the next edge into the vertex. */
    var incomingEdgeIndex: int
    /** The index of the next edge out of the vertex. */
    var outgoingEdgeIndex: int

    constructor (vertex: Vertex)
      ensures this.vertex == vertex && incomingEdgeIndex == 0 && outgoingEdgeIndex == 0
    {
      this.vertex := vertex;
      incomingEdgeIndex := 0;
      outgoingEdgeIndex := 0;
    }
  }

  /** No two names share a statistics object. */
  ghost predicate DistinctStatistics(stats: map<string, VertexStatistics>) {
    forall a, b :: a in stats && b in stats && a != b ==> stats[a] != stats[b]
  }

  ghost function CountsOf(stats: map<string, VertexStatistics>): map<string, Counts>
    reads stats.Values
  {
    map k | k in stats :: Counts(stats[k].incomingEdgeIndex, stats[k].outgoingEdgeIndex)
  }

  /** The statistics of `write_graph`: one fresh object per vertex, both counters at 0. */
  method InitialStatistics(g: Graph) returns (stats: map<string, VertexStatistics>)
    requires g.Valid()
    ensures stats.Keys == g.vertices.m.Keys
    ensures forall k :: k in stats ==> fresh(stats[k]) && stats[k].vertex == g.vertices.m[k]
    ensures DistinctStatistics(stats)
    ensures forall k :: k in stats ==> CountsOf(stats)[k] == Counts(0, 0)
  {
    stats := map[];
    var names := g.vertices.keys;
    for i := 0 to |names|
      invariant stats.Keys == set j | 0 <= j < i :: names[j]
      invariant forall k :: k in stats ==> fresh(stats[k]) && stats[k].vertex == g.vertices.m[k]
      invariant forall k :: k in stats ==> stats[k].incomingEdgeIndex == 0 && stats[k].outgoingEdgeIndex == 0
      invariant DistinctStatistics(stats)
    {
      var s := new VertexStatistics(g.vertices.m[names[i]]);
      stats := stats[names[i] := s];
    }
  }

  /** Every edge of `d` is hydrated. */
  ghost predicate AllHydrated(d: Dict<string, Vertex>)
    reads EdgeObjects(d)
  {
    forall k, j :: k in d.m && 0 <= j < |d.m[k].edges| ==> d.m[k].edges[j].dependency.Resolved?
  }

  /** Every edge of `d` is hydrated, and its dependency's name is one of `names`. */
  ghost predicate EdgesWithin(d: Dict<string, Vertex>, names: set<string>)
    reads EdgeObjects(d)
  {
    AllHydrated(d)
    && forall k, j :: k in d.m && 0 <= j < |d.m[k].edges| ==> d.m[k].edges[j].dependency.vertex.name in names
  }

  ghost function EdgeObjects(d: Dict<string, Vertex>): set<VertexEdge> {
    set k, j | k in d.m && 0 <= j < |d.m[k].edges| :: d.m[k].edges[j]
  }

  function EdgeViewOf(e: VertexEdge): EdgeView
    reads e
    requires e.dependency.Resolved?
  {
    EdgeView(e.dependency.vertex.name, e.edgeLabel, e.groupId, e.uniqueGroupId, e.isConjunction)
  }

  /** One edge as the writer sees it: its dependency, the edge, and the sink it points into. */
  datatype EdgeRecord = EdgeRecord(from: VertexView, edge: EdgeView, toName: string, to: VertexView)

  function RecordOf(e: VertexEdge, toName: string, to: VertexView): EdgeRecord
    reads e
    requires e.dependency.Resolved?
  {
    EdgeRecord(VertexViewOf(e.dependency.vertex), EdgeViewOf(e), toName, to)
  }

  /** The records of the edges into one sink, in edge order. */
  ghost function SinkRecords(es: seq<VertexEdge>, toName: string, to: VertexView): (r: seq<EdgeRecord>)
    reads es
    requires Vertex.AllResolved(es)
    ensures |r| == |es|
    ensures forall j :: 0 <= j < |es| ==> r[j] == RecordOf(es[j], toName, to)
  {
    seq(|es|, j reads es requires 0 <= j < |es| && es[j].dependency.Resolved? => RecordOf(es[j], toName, to))
  }

  /** The records of all edges, sink by sink in the order of `keys`. */
  ghost function GraphRecords(keys: seq<string>, d: Dict<string, Vertex>): seq<EdgeRecord>
    reads EdgeObjects(d)
    requires AllHydrated(d)
    decreases |keys|
  {
    if keys == [] then []
    else
      var k := keys[|keys| - 1];
      GraphRecords(keys[..|keys| - 1], d) + if k in d.m then SinkRecords(d.m[k].edges, k, VertexViewOf(d.m[k])) else []
  }

  function CountOf(c: map<string, Counts>, k: string): Counts {
    if k in c then c[k] else Counts(0, 0)
  }

  /** The counters after one edge from `from` into `to`: first the out-edge index, then the in-edge index. */
  function Advance(c: map<string, Counts>, from: string, to: string): map<string, Counts> {
    var c1 := c[from := Counts(CountOf(c, from).incoming, CountOf(c, from).outgoing + 1)];
    c1[to := Counts(CountOf(c1, to).incoming + 1, CountOf(c1, to).outgoing)]
  }

  /** The state of the edge pass: lines so far, counters, the theme's state, and what the theme was shown. */
  datatype Pass<S> = Pass(lines: seq<string>, counts: map<string, Counts>, themeState: S, contexts: seq<EdgeContext>)

  /** What the theme is shown about edge `r` when the counters stand at `c`. */
  function ContextAt(c: map<string, Counts>, r: EdgeRecord): EdgeContext {
    EdgeContext(r.from, CountOf(c, r.edge.dependencyName), r.edge, r.to, CountOf(c, r.toName))
  }

  function EdgeLine(r: EdgeRecord, attrs: Attrs): string {
    "    " + r.edge.dependencyName + " -> " + r.toName + " [" + AttributesText(attrs, false) + "];"
  }

  /** One edge: ask the theme, emit the line, advance the counters. */
  function StepEdge<S>(p: Pass<S>, r: EdgeRecord, theme: Option<Theme<S>>): Pass<S> {
    var ctx := ContextAt(p.counts, r);
    var hooked := if theme.Some? then theme.value.edgeHook(p.themeState, ctx) else (p.themeState, None);
    Pass(p.lines + [EdgeLine(r, MergeAttributes(DefaultEdgeAttributes, theme, hooked.1))],
         Advance(p.counts, r.edge.dependencyName, r.toName), hooked.0, p.contexts + [ctx])
  }

  function PassFrom<S>(p: Pass<S>, rs: seq<EdgeRecord>, theme: Option<Theme<S>>): Pass<S>
    decreases |rs|
  {
    if rs == [] then p else StepEdge(PassFrom(p, rs[..|rs| - 1], theme), rs[|rs| - 1], theme)
  }

  ghost function EdgePass<S>(g: Graph, counts: map<string, Counts>, theme: Option<Theme<S>>, s0: S): Pass<S>
    reads g, EdgeObjects(g.vertices)
    requires g.Valid() && EdgesWithin(g.vertices, g.vertices.m.Keys)
  {
    PassFrom(Pass([], counts, s0, []), GraphRecords(g.Mappings().keys, g.vertices), theme)
  }

  /** The edge loop for one edge. */
  method EmitEdge<S>(e: VertexEdge, sinkName: string, to: Vertex, stats: map<string, VertexStatistics>,
                     theme: Option<Theme<S>>, edges: seq<string>, s: S, ghost p: Pass<S>)
    returns (edges': seq<string>, s': S, ghost p': Pass<S>)
    requires e.dependency.Resolved? && e.dependency.vertex.name in stats && sinkName in stats
    requires DistinctStatistics(stats) && CountsOf(stats) == p.counts
    requires edges == p.lines && s == p.themeState
    modifies stats.Values
    ensures p' == StepEdge(p, RecordOf(e, sinkName, VertexViewOf(to)), theme)
    ensures edges' == p'.lines && s' == p'.themeState && CountsOf(stats) == p'.counts
  {
    var fromName := e.dependency.vertex.name;
    var fromStatistics := stats[fromName];
    var toStatistics := stats[sinkName];
    var ctx := EdgeContext(VertexViewOf(e.dependency.vertex), Counts(fromStatistics.incomingEdgeIndex, fromStatistics.outgoingEdgeIndex),
                           EdgeViewOf(e), VertexViewOf(to), Counts(toStatistics.incomingEdgeIndex, toStatistics.outgoingEdgeIndex));
    var r := RecordOf(e, sinkName, VertexViewOf(to));
    assert ctx == ContextAt(p.counts, r);
    var line;
    line, s' := FormatEdge(r, ctx, theme, s);
    edges' := edges + [line];
    CountEdge(stats, fromName, sinkName);
    p' := StepEdge(p, r, theme);
  }

  /** The theme's hook and the line for one edge. */
  method FormatEdge<S>(r: EdgeRecord, ctx: EdgeContext, theme: Option<Theme<S>>, s: S) returns (line: string, s': S)
    ensures var hooked := if theme.Some? then theme.value.edgeHook(s, ctx) else (s, None);
            s' == hooked.0 && line == EdgeLine(r, MergeAttributes(DefaultEdgeAttributes, theme, hooked.1))
  {
    var computed: Option<Attrs> := None;
    s' := s;
    if theme.Some? {
      var hooked := theme.value.edgeHook(s, ctx);
      s', computed := hooked.0, hooked.1;
    }
    var edgeAttributes: Attrs := if theme.None? || theme.value.retainDefaults then DefaultEdgeAttributes else Empty();
    var overlay: Attrs := if theme.None? then Empty() else computed.GetOr(Empty());
    edgeAttributes := edgeAttributes.Union(overlay);
    var attributes := DictToAttributes(edgeAttributes, false);
    line := "    " + r.edge.dependencyName + " -> " + r.toName + " [" + attributes + "];";
  }

  /** The two counter increments after an edge from `fromName` into `sinkName`. */
  method CountEdge(stats: map<string, VertexStatistics>, fromName: string, sinkName: string)
    requires fromName in stats && sinkName in stats && DistinctStatistics(stats)
    modifies stats[fromName], stats[sinkName]
    ensures CountsOf(stats) == Advance(old(CountsOf(stats)), fromName, sinkName)
  {
    stats[fromName].outgoingEdgeIndex := stats[fromName].outgoingEdgeIndex + 1;
    stats[sinkName].incomingEdgeIndex := stats[sinkName].incomingEdgeIndex + 1;
  }

  /** The edge loop for the edges into one sink. */
  method EmitSink<S>(es: seq<VertexEdge>, sinkName: string, to: Vertex, stats: map<string, VertexStatistics>,
                     theme: Option<Theme<S>>, edges: seq<string>, s: S, ghost p: Pass<S>)
    returns (edges': seq<string>, s': S, ghost p': Pass<S>)
    requires forall j :: 0 <= j < |es| ==> es[j].dependency.Resolved? && es[j].dependency.vertex.name in stats
    requires sinkName in stats
    requires DistinctStatistics(stats) && CountsOf(stats) == p.counts
    requires edges == p.lines && s == p.themeState
    modifies stats.Values
    ensures p' == PassFrom(p, old(SinkRecords(es, sinkName, VertexViewOf(to))), theme)
    ensures edges' == p'.lines && s' == p'.themeState && CountsOf(stats) == p'.counts
  {
    ghost var rs := SinkRecords(es, sinkName, VertexViewOf(to));
    edges', s', p' := edges, s, p;
    for j := 0 to |es|
      invariant p' == PassFrom(p, rs[..j], theme)
      invariant edges' == p'.lines && s' == p'.themeState && CountsOf(stats) == p'.counts
    {
      assert rs[..j + 1][..j] == rs[..j];
      edges', s', p' := EmitEdge(es[j], sinkName, to, stats, theme, edges', s', p');
    }
    assert rs[..|es|] == rs;
  }

  /**
    `_compute_dot_edges`: comments when there are no vertices or no edges;
    otherwise, sink by sink in mappings order and edge by edge, one line per
    edge, with the dependency's out-edge counter and the sink's in-edge
    counter advanced after each.
   */
  method ComputeDotEdges<S>(g: Graph?, stats: map<string, VertexStatistics>, theme: Option<Theme<S>>, s0: S)
    returns (r: string, s: S)
    requires g != null ==> g.Valid() && WellKeyed(g.vertices) && EdgesWithin(g.vertices, g.vertices.m.Keys)
    requires g != null ==> g.vertices.m.Keys <= stats.Keys
    requires DistinctStatistics(stats)
    modifies stats.Values
    ensures g == null || !g.HasVertices() ==> r == NoNodesNoEdgesComment && s == s0 && CountsOf(stats) == old(CountsOf(stats))
    ensures g != null && g.HasVertices() && !g.HasEdges() ==> r == NoEdgesComment && s == s0 && CountsOf(stats) == old(CountsOf(stats))
    ensures g != null && g.HasVertices() && g.HasEdges() ==>
              var p := old(EdgePass(g, CountsOf(stats), theme, s0));
              r == Join("\n", p.lines) && s == p.themeState && CountsOf(stats) == p.counts
  {
    if g == null || !g.HasVertices() {
      return NoNodesNoEdgesComment, s0;
    }
    if !g.HasEdges() {
      return NoEdgesComment, s0;
    }
    var mappings := g.Mappings();
    MappingsWellKeyed(g);
    r, s := EmitSinks(mappings, g.vertices, stats, theme, s0);
  }

  /** The loop of `_compute_dot_edges` over the sinks of the mappings. */
  method EmitSinks<S>(mappings: Dict<string, seq<VertexEdge>>, d: Dict<string, Vertex>, stats: map<string, VertexStatistics>,
                      theme: Option<Theme<S>>, s0: S)
    returns (r: string, s: S)
    requires mappings.Valid() && forall k :: k in mappings.m ==> k in d.m && mappings.m[k] == d.m[k].edges
    requires EdgesWithin(d, stats.Keys) && d.m.Keys <= stats.Keys
    requires DistinctStatistics(stats)
    modifies stats.Values
    ensures var p := old(PassFrom(Pass([], CountsOf(stats), s0, []), GraphRecords(mappings.keys, d), theme));
            r == Join("\n", p.lines) && s == p.themeState && CountsOf(stats) == p.counts
  {
    ghost var p0 := Pass([], CountsOf(stats), s0, []);
    ghost var p := p0;
    var edges: seq<string> := [];
    s := s0;
    GraphRecordsSnoc(mappings.keys, d);
    for i := 0 to |mappings.keys|
      invariant p == PassFrom(p0, old(GraphRecords(mappings.keys[..i], d)), theme)
      invariant edges == p.lines && s == p.themeState && CountsOf(stats) == p.counts
      invariant unchanged(EdgeObjects(d))
    {
      assert EdgesWithin(d, stats.Keys);
      var sinkName := mappings.keys[i];
      var sinkEdges := mappings.m[sinkName];
      var to := d.m[sinkName];
      ghost var before := old(GraphRecords(mappings.keys[..i], d));
      ghost var here := old(SinkRecords(sinkEdges, sinkName, VertexViewOf(to)));
      assert SinkRecords(sinkEdges, sinkName, VertexViewOf(to)) == here;
      HydratedSink(d, stats.Keys, sinkName);
      edges, s, p := EmitSink(sinkEdges, sinkName, to, stats, theme, edges, s, p);
      PassAppend(p0, before, here, theme);
    }
    assert mappings.keys[..|mappings.keys|] == mappings.keys;
    r := Join("\n", edges);
  }

  lemma GraphRecordsSnoc(keys: seq<string>, d: Dict<string, Vertex>)
    requires AllHydrated(d)
    ensures forall i :: 0 <= i < |keys| ==>
              GraphRecords(keys[..i + 1], d)
              == GraphRecords(keys[..i], d) + if keys[i] in d.m then SinkRecords(d.m[keys[i]].edges, keys[i], VertexViewOf(d.m[keys[i]])) else []
  {
    forall i | 0 <= i < |keys|
      ensures GraphRecords(keys[..i + 1], d)
              == GraphRecords(keys[..i], d) + if keys[i] in d.m then SinkRecords(d.m[keys[i]].edges, keys[i], VertexViewOf(d.m[keys[i]])) else []
    {
      assert keys[..i + 1][..i] == keys[..i];
    }
  }

  lemma HydratedSink(d: Dict<string, Vertex>, names: set<string>, k: string)
    requires EdgesWithin(d, names) && k in d.m
    ensures forall j :: 0 <= j < |d.m[k].edges| ==> d.m[k].edges[j].dependency.Resolved? && d.m[k].edges[j].dependency.vertex.name in names
  {
  }

  lemma {:induction false} PassAppend<S>(p: Pass<S>, a: seq<EdgeRecord>, b: seq<EdgeRecord>, theme: Option<Theme<S>>)
    ensures PassFrom(p, a + b, theme) == PassFrom(PassFrom(p, a, theme), b, theme)
    decreases |b|
  {
    if b == [] {
      assert a + b == a;
    } else {
      var init, last := b[..|b| - 1], b[|b| - 1];
      assert (a + b)[..|a + b| - 1] == a + init;
      assert (a + b)[|a + b| - 1] == last;
      PassAppend(p, a, init, theme);
      assert PassFrom(p, a + b, theme) == StepEdge(PassFrom(p, a + init, theme), last, theme);
      assert PassFrom(PassFrom(p, a, theme), b, theme) == StepEdge(PassFrom(PassFrom(p, a, theme), init, theme), last, theme);
    }
  }

  /** The number of records of edges into `k`. */
  function InCount(rs: seq<EdgeRecord>, k: string): nat
    decreases |rs|
  {
    if rs == [] then 0 else InCount(rs[..|rs| - 1], k) + if rs[|rs| - 1].toName == k then 1 else 0
  }

  /** The number of records of edges out of `k`. */
  function OutCount(rs: seq<EdgeRecord>, k: string): nat
    decreases |rs|
  {
    if rs == [] then 0 else OutCount(rs[..|rs| - 1], k) + if rs[|rs| - 1].edge.dependencyName == k then 1 else 0
  }

  /** One edge advances the out-edge counter of its dependency and the in-edge counter of its sink, and no other. */
  lemma AdvanceCounts(c: map<string, Counts>, from: string, to: string, k: string)
    ensures CountOf(Advance(c, from, to), k)
            == Counts(CountOf(c, k).incoming + (if k == to then 1 else 0), CountOf(c, k).outgoing + (if k == from then 1 else 0))
  {
  }

  /** The counters after a run of edges, whatever the theme does. */
  function CountsAfter(c: map<string, Counts>, rs: seq<EdgeRecord>): map<string, Counts>
    decreases |rs|
  {
    if rs == [] then c else Advance(CountsAfter(c, rs[..|rs| - 1]), rs[|rs| - 1].edge.dependencyName, rs[|rs| - 1].toName)
  }

  /** What the theme is shown about each edge of a run, whatever it answers. */
  function ContextsOf(c: map<string, Counts>, rs: seq<EdgeRecord>): (r: seq<EdgeContext>)
    ensures |r| == |rs|
    decreases |rs|
  {
    if rs == [] then [] else ContextsOf(c, rs[..|rs| - 1]) + [ContextAt(CountsAfter(c, rs[..|rs| - 1]), rs[|rs| - 1])]
  }

  /** The theme changes neither the counters nor what it is shown. */
  lemma {:induction false} PassCountsAndContexts<S>(p: Pass<S>, rs: seq<EdgeRecord>, theme: Option<Theme<S>>)
    ensures PassFrom(p, rs, theme).counts == CountsAfter(p.counts, rs)
    ensures PassFrom(p, rs, theme).contexts == p.contexts + ContextsOf(p.counts, rs)
    decreases |rs|
  {
    if rs != [] {
      PassCountsAndContexts(p, rs[..|rs| - 1], theme);
    }
  }

  /** After a run of edges, every counter has grown by the number of its edges in the run. */
  lemma {:induction false} CountsAfterCounts(c: map<string, Counts>, rs: seq<EdgeRecord>, k: string)
    ensures CountOf(CountsAfter(c, rs), k) == Counts(CountOf(c, k).incoming + InCount(rs, k), CountOf(c, k).outgoing + OutCount(rs, k))
    decreases |rs|
  {
    if rs != [] {
      var last := rs[|rs| - 1];
      CountsAfterCounts(c, rs[..|rs| - 1], k);
      AdvanceCounts(CountsAfter(c, rs[..|rs| - 1]), last.edge.dependencyName, last.toName, k);
    }
  }

  /** Edge `i` is shown the counters as the edges before it left them. */
  lemma {:induction false} ContextsOfAt(c: map<string, Counts>, rs: seq<EdgeRecord>, i: int)
    requires 0 <= i < |rs|
    ensures ContextsOf(c, rs)[i] == ContextAt(CountsAfter(c, rs[..i]), rs[i])
    decreases |rs|
  {
    if i < |rs| - 1 {
      var init := rs[..|rs| - 1];
      ContextsOfAt(c, init, i);
      assert init[..i] == rs[..i] && init[i] == rs[i];
    } else {
      assert rs[..|rs| - 1] == rs[..i];
    }
  }

  /**
    Edge `i` is shown its own dependency, sink and edge, with the counters of
    both as they started plus the number of earlier edges into and out of
    each: the `k`-th edge into a sink sees in-edge index `k`, and the `k`-th
    edge out of a dependency out-edge index `k`, when counting starts at 0.
   */
  lemma EdgeSeesEarlierCounts(c: map<string, Counts>, rs: seq<EdgeRecord>, i: int)
    requires 0 <= i < |rs|
    ensures ContextsOf(c, rs)[i].from == rs[i].from && ContextsOf(c, rs)[i].edge == rs[i].edge && ContextsOf(c, rs)[i].to == rs[i].to
    ensures var to := rs[i].toName;
            ContextsOf(c, rs)[i].toStatistics
            == Counts(CountOf(c, to).incoming + InCount(rs[..i], to), CountOf(c, to).outgoing + OutCount(rs[..i], to))
    ensures var from := rs[i].edge.dependencyName;
            ContextsOf(c, rs)[i].fromStatistics
            == Counts(CountOf(c, from).incoming + InCount(rs[..i], from), CountOf(c, from).outgoing + OutCount(rs[..i], from))
  {
    ContextsOfAt(c, rs, i);
    CountsAfterCounts(c, rs[..i], rs[i].toName);
    CountsAfterCounts(c, rs[..i], rs[i].edge.dependencyName);
  }

  /** Every edge adds one line, and the lines already there are kept. */
  lemma {:induction false} PassGrows<S>(p: Pass<S>, rs: seq<EdgeRecord>, theme: Option<Theme<S>>)
    ensures |PassFrom(p, rs, theme).lines| == |p.lines| + |rs| && p.lines <= PassFrom(p, rs, theme).lines
    decreases |rs|
  {
    if rs != [] {
      PassGrows(p, rs[..|rs| - 1], theme);
    }
  }

  /** Without a theme every edge line has an empty attribute list. */
  lemma {:induction false} PassUnthemed<S>(p: Pass<S>, rs: seq<EdgeRecord>, i: int)
    requires 0 <= i < |rs|
    ensures |PassFrom(p, rs, None).lines| == |p.lines| + |rs|
    ensures PassFrom(p, rs, None).lines[|p.lines| + i] == "    " + rs[i].edge.dependencyName + " -> " + rs[i].toName + " [];"
    ensures PassFrom(p, rs, None).themeState == p.themeState
    decreases |rs|
  {
    PassGrows(p, rs, None);
    var init := rs[..|rs| - 1];
    PassGrows(p, init, None);
    if i < |rs| - 1 {
      PassUnthemed(p, init, i);
      assert init[i] == rs[i];
    } else {
      assert MergeAttributes<S>(DefaultEdgeAttributes, None, None).keys == [];
      assert "    " + rs[i].edge.dependencyName + " -> " + rs[i].toName + " [" + "" + "];"
             == "    " + rs[i].edge.dependencyName + " -> " + rs[i].toName + " [];";
    }
    if |rs| > 1 {
      PassUnthemed(p, init, 0);
    }
  }

  /** The records of one sink all point into it. */
  lemma {:induction false} SinkInCount(rs: seq<EdgeRecord>, sink: string, k: string)
    requires forall j :: 0 <= j < |rs| ==> rs[j].toName == sink
    ensures InCount(rs, k) == if k == sink then |rs| else 0
    decreases |rs|
  {
    if rs != [] {
      SinkInCount(rs[..|rs| - 1], sink, k);
    }
  }

  lemma {:induction false} InCountAppend(a: seq<EdgeRecord>, b: seq<EdgeRecord>, k: string)
    ensures InCount(a + b, k) == InCount(a, k) + InCount(b, k)
    decreases |b|
  {
    if b == [] {
      assert a + b == a;
    } else {
      assert (a + b)[..|a + b| - 1] == a + b[..|b| - 1];
      InCountAppend(a, b[..|b| - 1], k);
    }
  }

  /** Over distinct sink names, the records into `k` are exactly `k`'s edges, once. */
  lemma {:induction false} GraphInCount(keys: seq<string>, d: Dict<string, Vertex>, k: string)
    requires AllHydrated(d)
    requires forall i, j :: 0 <= i < j < |keys| ==> keys[i] != keys[j]
    ensures InCount(GraphRecords(keys, d), k) == if k in keys && k in d.m then |d.m[k].edges| else 0
    decreases |keys|
  {
    if keys != [] {
      var last := keys[|keys| - 1];
      var init := keys[..|keys| - 1];
      GraphInCount(init, d, k);
      var here := if last in d.m then SinkRecords(d.m[last].edges, last, VertexViewOf(d.m[last])) else [];
      InCountAppend(GraphRecords(init, d), here, k);
      SinkInCount(here, last, k);
      assert k in keys <==> k in init || k == last;
      assert last !in init;
    }
  }

  /**
    However the theme styles them, once `_compute_dot_edges` has run over a
    graph, every vertex's in-edge counter has grown by exactly its number of
    incoming edges, and its out-edge counter by the number of edges whose
    dependency it is.
   */
  lemma EdgePassCounts<S>(g: Graph, counts: map<string, Counts>, theme: Option<Theme<S>>, s0: S, k: string)
    requires g.Valid() && WellKeyed(g.vertices) && EdgesWithin(g.vertices, g.vertices.m.Keys)
    requires k in g.vertices.m
    ensures CountOf(EdgePass(g, counts, theme, s0).counts, k).incoming == CountOf(counts, k).incoming + |g.vertices.m[k].edges|
    ensures CountOf(EdgePass(g, counts, theme, s0).counts, k).outgoing
            == CountOf(counts, k).outgoing + OutCount(GraphRecords(g.Mappings().keys, g.vertices), k)
  {
    var rs := GraphRecords(g.Mappings().keys, g.vertices);
    PassCountsAndContexts(Pass([], counts, s0, []), rs, theme);
    CountsAfterCounts(counts, rs, k);
    MappingsWellKeyed(g);
    GraphInCount(g.Mappings().keys, g.vertices, k);
  }

  // ----- theme feature settings -----

  /** The first feature, in the theme's order, whose `theme.<feature>` setting is not one of its allowed values. */
  function FirstInvalidFeature(features: seq<string>, allowed: map<string, set<string>>, settings: map<string, string>): (r: Option<string>)
    ensures r.Some? ==> FeatureInvalid(r.value, allowed, settings)
    decreases |features|
  {
    if features == [] then None
    else
      var f := features[0];
      if "theme." + f in settings && f in allowed && settings["theme." + f] !in allowed[f] then Some(f)
      else FirstInvalidFeature(features[1..], allowed, settings)
  }

  ghost predicate FeatureInvalid(f: string, allowed: map<string, set<string>>, settings: map<string, string>) {
    "theme." + f in settings && f in allowed && settings["theme." + f] !in allowed[f]
  }

  lemma {:induction false} FirstInvalidFeatureFacts(features: seq<string>, allowed: map<string, set<string>>, settings: map<string, string>)
    ensures FirstInvalidFeature(features, allowed, settings).None? <==>
              forall i :: 0 <= i < |features| ==> !FeatureInvalid(features[i], allowed, settings)
    ensures FirstInvalidFeature(features, allowed, settings).Some? ==>
              exists i :: 0 <= i < |features| && features[i] == FirstInvalidFeature(features, allowed, settings).value
                        && FeatureInvalid(features[i], allowed, settings)
                        && forall j :: 0 <= j < i ==> !FeatureInvalid(features[j], allowed, settings)
    decreases |features|
  {
    if features != [] {
      FirstInvalidFeatureFacts(features[1..], allowed, settings);
      if !FeatureInvalid(features[0], allowed, settings) {
        if FirstInvalidFeature(features, allowed, settings).Some? {
          var i :| 0 <= i < |features[1..]| && features[1..][i] == FirstInvalidFeature(features, allowed, settings).value
                   && FeatureInvalid(features[1..][i], allowed, settings)
                   && forall j :: 0 <= j < i ==> !FeatureInvalid(features[1..][j], allowed, settings);
          assert features[i + 1] == features[1..][i];
          forall j | 0 <= j < i + 1 ensures !FeatureInvalid(features[j], allowed, settings) {
            if j > 0 {
              assert features[j] == features[1..][j - 1];
            }
          }
        } else {
          forall i | 0 <= i < |features| ensures !FeatureInvalid(features[i], allowed, settings) {
            if i > 0 {
              assert features[i] == features[1..][i - 1];
            }
          }
        }
      }
    }
  }

  /**
    The settings check of `write_graph`: with a theme, every feature it
    supports that has a `theme.<feature>` setting must be set to one of the
    feature's allowed values; the first that is not raises.
   */
  method ValidateThemeSettings<S>(theme: Option<Theme<S>>, settings: map<string, string>) returns (r: Result<(), WriterError>)
    ensures theme.None? || theme.value.supportedFeatures.None? ==> r.Success?
    ensures theme.Some? && theme.value.supportedFeatures.Some? ==>
              var features := theme.value.supportedFeatures.value;
              match FirstInvalidFeature(features.keys, features.m, settings)
              case None => r.Success?
              case Some(f) => r == Failure(InvalidFeatureValue(f, settings["theme." + f]))
  {
    if theme.None? || theme.value.supportedFeatures.None? {
      return Success(());
    }
    var features := theme.value.supportedFeatures.value;
    for i := 0 to |features.keys|
      invariant FirstInvalidFeature(features.keys, features.m, settings) == FirstInvalidFeature(features.keys[i..], features.m, settings)
    {
      var feature := features.keys[i];
      assert features.keys[i..][1..] == features.keys[i + 1..];
      if "theme." + feature in settings && feature in features.m {
        if settings["theme." + feature] !in features.m[feature] {
          return Failure(InvalidFeatureValue(feature, settings["theme." + feature]));
        }
      }
    }
    r := Success(());
  }
}
