/**
  The account-access graph: vertices (credentials, devices, accounts), the
  directed edges into each vertex from the vertices it depends on, and the
  graph that keys vertices by name.

  An edge's dependency is a vertex name while the reader is still building the
  graph and the vertex object itself once the graph has been hydrated.
 */
module Graphs {
  import opened Wrappers
  import opened Dicts
  import opened Strings

  /** What an edge's `dependency` holds: a name, or (after hydration) the vertex object. */
  datatype Dependency = Named(name: string) | Resolved(vertex: Vertex)

  /** The dependency's name, whether it is still a string or already a vertex. */
  function DependencyName(d: Dependency): string {
    match d
    case Named(n) => n
    case Resolved(v) => v.name
  }

  /**
    The human-readable form of an edge: the dependency's name, followed by the
    label in parentheses when there is a non-empty one; the label `rec` reads
    as "Recovery Method".
   */
  function EdgeText(dependencyName: string, edgeLabel: Option<string>): (r: string)
    ensures dependencyName <= r
    ensures r == dependencyName <==> edgeLabel.None? || edgeLabel == Some("")
    ensures edgeLabel == Some("rec") ==> r == dependencyName + " (Recovery Method)"
  {
    var human := if edgeLabel == Some("rec") then Some("Recovery Method") else edgeLabel;
    var labelText := if human.Some? && human.value != "" then " (" + human.value + ")" else "";
    dependencyName + labelText
  }

  /**
    A directed edge into its owning (sink) vertex from `dependency`. Only the
    dependency changes after construction (hydration); label, group ids and
    the conjunction flag are fixed.
   */
  class VertexEdge {
    var dependency: Dependency
    const edgeLabel: Option<string>
    /** Unique among the edges of one sink vertex. */
    const groupId: Option<int>
    /** Unique across the whole graph; shared by all edges of one statement. */
    const uniqueGroupId: Option<int>
    const isConjunction: bool

    constructor (dependency: Dependency, edgeLabel: Option<string>, groupId: Option<int>,
                 uniqueGroupId: Option<int>, isConjunction: bool)
      ensures this.dependency == dependency && this.edgeLabel == edgeLabel
      ensures this.groupId == groupId && this.uniqueGroupId == uniqueGroupId
      ensures this.isConjunction == isConjunction
    {
      this.dependency := dependency;
      this.edgeLabel := edgeLabel;
      this.groupId := groupId;
      this.uniqueGroupId := uniqueGroupId;
      this.isConjunction := isConjunction;
    }

    /** The constructor called with only a dependency: no label, no group ids, not a conjunction. */
    constructor WithDefaults(dependency: Dependency)
      ensures this.dependency == dependency && edgeLabel.None?
      ensures groupId.None? && uniqueGroupId.None? && !isConjunction
    {
      this.dependency := dependency;
      this.edgeLabel := None;
      this.groupId := None;
      this.uniqueGroupId := None;
      this.isConjunction := false;
    }

    /** A recovery method: the label mentions `rec`. */
    predicate IsRecovery() {
      edgeLabel.Some? && Contains(edgeLabel.value, "rec")
    }

    /** Hidden from rendering: the label mentions `invis`. */
    predicate IsHidden() {
      edgeLabel.Some? && Contains(edgeLabel.value, "invis")
    }

    function ToString(): (r: string)
      reads this
      ensures DependencyName(dependency) <= r
    {
      EdgeText(DependencyName(dependency), edgeLabel)
    }
  }

  /** Python's `repr()` of a string: single quotes unless only double quotes avoid escaping. */
  function ReprString(s: string): (r: string)
    ensures |r| >= 2
  {
    var quote := if '\'' in s && '"' !in s then '"' else '\'';
    [quote] + ReprBody(s, quote) + [quote]
  }

  /** One character as `repr()` writes it between the quotes. */
  function EscapeChar(c: char, quote: char): string {
    if c == '\\' then "\\\\"
    else if c == quote then ['\\', quote]
    else if c == '\n' then "\\n"
    else if c == '\r' then "\\r"
    else if c == '\t' then "\\t"
    else [c]
  }

  function ReprBody(s: string, quote: char): string
    decreases |s|
  {
    if s == [] then "" else EscapeChar(s[0], quote) + ReprBody(s[1..], quote)
  }

  /** The `key: value` entries of a dict's `repr()`, in insertion order. */
  function ReprEntries(d: Dict<string, string>): (r: seq<string>)
    requires d.Valid()
    ensures |r| == |d.keys|
    ensures forall i :: 0 <= i < |r| ==> r[i] == ReprString(d.keys[i]) + ": " + ReprString(d.m[d.keys[i]])
  {
    var items := d.Items();
    seq(|items|, i requires 0 <= i < |items| => ReprString(items[i].0) + ": " + ReprString(items[i].1))
  }

  /** Python's `repr()` of a `dict[str, str]`. */
  function ReprDict(d: Dict<string, string>): string
    requires d.Valid()
  {
    "{" + Join(", ", ReprEntries(d)) + "}"
  }

  /**
    Reads Python's string escapes back: `\n`, `\r` and `\t` as the control
    characters, and a backslash before any other character as that character.
   */
  function Unrepr(t: string): string
    decreases |t|
  {
    if |t| >= 2 && t[0] == '\\' then
      (if t[1] == 'n' then "\n" else if t[1] == 'r' then "\r" else if t[1] == 't' then "\t" else [t[1]]) + Unrepr(t[2..])
    else if t == [] then ""
    else [t[0]] + Unrepr(t[1..])
  }

  lemma EscapeCharDecodes(c: char, quote: char, t: string)
    requires quote == '\'' || quote == '"'
    ensures Unrepr(EscapeChar(c, quote) + t) == [c] + Unrepr(t)
    ensures '\n' !in EscapeChar(c, quote)
  {
    var e := EscapeChar(c, quote);
    if |e| == 2 {
      assert (e + t)[0] == '\\' && (e + t)[1] == e[1];
      assert (e + t)[2..] == t;
    } else {
      assert (e + t)[0] == c;
      assert (e + t)[1..] == t;
    }
  }

  /** The escaped body reads back as the string. */
  lemma {:induction false} ReprBodyRoundTrip(s: string, quote: char)
    requires quote == '\'' || quote == '"'
    ensures Unrepr(ReprBody(s, quote)) == s
    decreases |s|
  {
    if s != [] {
      assert ReprBody(s, quote) == EscapeChar(s[0], quote) + ReprBody(s[1..], quote);
      ReprBodyRoundTrip(s[1..], quote);
      EscapeCharDecodes(s[0], quote, ReprBody(s[1..], quote));
    }
  }

  /** The escaped body holds no line break. */
  lemma {:induction false} ReprBodyOneLine(s: string, quote: char)
    requires quote == '\'' || quote == '"'
    ensures '\n' !in ReprBody(s, quote)
    decreases |s|
  {
    if s != [] {
      ReprBodyOneLine(s[1..], quote);
      EscapeCharDecodes(s[0], quote, "");
    }
  }

  /**
    `repr()` of a string: the same quote at both ends, a body that reads back
    as the string, and no line break anywhere.
   */
  lemma ReprStringFacts(s: string)
    ensures ReprString(s)[0] == ReprString(s)[|ReprString(s)| - 1]
    ensures ReprString(s)[0] == '\'' || ReprString(s)[0] == '"'
    ensures Unrepr(ReprString(s)[1..|ReprString(s)| - 1]) == s
    ensures '\n' !in ReprString(s)
  {
    var quote := if '\'' in s && '"' !in s then '"' else '\'';
    ReprBodyRoundTrip(s, quote);
    ReprBodyOneLine(s, quote);
    assert ReprString(s)[1..|ReprString(s)| - 1] == ReprBody(s, quote);
  }

  lemma ReprEntriesOneLine(d: Dict<string, string>)
    requires d.Valid()
    ensures forall i :: 0 <= i < |ReprEntries(d)| ==> '\n' !in ReprEntries(d)[i]
  {
    forall i | 0 <= i < |ReprEntries(d)| ensures '\n' !in ReprEntries(d)[i] {
      ReprStringFacts(d.keys[i]);
      ReprStringFacts(d.m[d.keys[i]]);
    }
  }

  /** `repr()` of a dict of strings is one line, whatever its keys and values hold. */
  lemma ReprDictOneLine(d: Dict<string, string>)
    requires d.Valid()
    ensures '\n' !in ReprDict(d)
  {
    ReprEntriesOneLine(d);
    JoinAvoids(", ", ReprEntries(d), '\n');
  }

  /** A named vertex of some type with its incoming edges and free-form attributes. */
  class Vertex {
    const name: string
    const vertexType: string
    /** The edges directed into this vertex, one per dependency occurrence. */
    const edges: seq<VertexEdge>
    const attributes: Dict<string, string>

    ghost predicate Valid() {
      attributes.Valid()
    }

    /** Missing edges become the empty list and missing attributes the empty dict. */
    constructor (name: string, vertexType: string, edges: Option<seq<VertexEdge>>,
                 attributes: Option<Dict<string, string>>)
      requires attributes.Some? ==> attributes.value.Valid()
      ensures Valid()
      ensures this.name == name && this.vertexType == vertexType
      ensures this.edges == if edges.Some? then edges.value else []
      ensures this.attributes == if attributes.Some? then attributes.value else Empty()
    {
      this.name := name;
      this.vertexType := vertexType;
      this.edges := if edges.Some? then edges.value else [];
      this.attributes := if attributes.Some? then attributes.value else Empty();
    }

    /** The vertex depends on others (is not an orphan or a source). */
    predicate HasDependencies() {
      |edges| > 0
    }

    /** Every edge of `es` has been hydrated. */
    static ghost predicate AllResolved(es: seq<VertexEdge>)
      reads es
    {
      forall i :: 0 <= i < |es| ==> es[i].dependency.Resolved?
    }

    /**
      `get_incoming`: the dependencies keyed by their names; of two edges whose
      dependencies share a name, the later one's dependency is kept.
     */
    static function IncomingOf(es: seq<VertexEdge>): (r: map<string, Vertex>)
      reads es
      requires AllResolved(es)
      ensures forall k :: k in r <==> exists e :: e in es && e.dependency.vertex.name == k
      ensures forall k :: k in r ==> r[k].name == k
      decreases |es|
    {
      if es == [] then map[]
      else
        var init := es[..|es| - 1];
        var last := es[|es| - 1].dependency.vertex;
        assert es == init + [es[|es| - 1]];
        IncomingOf(init)[last.name := last]
    }

    function GetIncoming(): (r: map<string, Vertex>)
      reads edges
      requires AllResolved(edges)
      ensures r.Keys == set i | 0 <= i < |edges| :: edges[i].dependency.vertex.name
    {
      IncomingOf(edges)
    }

    /** One `<name> depends on <edge>` line per edge, in edge order. */
    function DependsLines(): (r: seq<string>)
      reads edges
      ensures |r| == |edges|
      ensures forall i :: 0 <= i < |r| ==> r[i] == name + " depends on " + edges[i].ToString()
    {
      seq(|edges|, i reads edges requires 0 <= i < |edges| => name + " depends on " + edges[i].ToString())
    }

    /**
      `__str__(with_edges)`: name, type, the attributes when there are some,
      then, when asked for, one line per edge.
     */
    function ToString(withEdges: bool): (r: string)
      reads edges
      requires Valid()
      ensures name + ": " + vertexType + " " <= r
      ensures |attributes.keys| == 0 && !(withEdges && |edges| > 0) ==> r == name + ": " + vertexType + " "
      ensures |attributes.keys| > 0 ==> name + ": " + vertexType + " (" + ReprDict(attributes) + ")" <= r
    {
      var edgesText := if withEdges && |edges| > 0 then "\n" + Join("\n", DependsLines()) else "";
      var h := Heading();
      var r := h + edgesText;
      assert r[..|h|] == h;
      r
    }

    /** The first line: name, type and the attributes when there are some. */
    function Heading(): (r: string)
      requires Valid()
      ensures name + ": " + vertexType + " " <= r
      ensures |attributes.keys| == 0 ==> r == name + ": " + vertexType + " "
      ensures |attributes.keys| > 0 ==> r == name + ": " + vertexType + " (" + ReprDict(attributes) + ")"
    {
      var head := name + ": " + vertexType + " ";
      var r := head + (if |attributes.keys| > 0 then "(" + ReprDict(attributes) + ")" else "");
      assert r[..|head|] == head;
      r
    }
  }

  /** With edges, the text is the text without them followed by the edge lines. */
  lemma VertexToStringEdges(v: Vertex)
    requires v.Valid()
    ensures v.ToString(true) == v.ToString(false) + (if |v.edges| > 0 then "\n" + Join("\n", v.DependsLines()) else "")
  {
  }

  lemma HeadingOneLine(v: Vertex)
    requires v.Valid()
    requires '\n' !in v.name && '\n' !in v.vertexType
    ensures CountChar(v.Heading(), '\n') == 0
  {
    ReprDictOneLine(v.attributes);
    CountCharAbsent(v.Heading(), '\n');
  }

  lemma EdgeLinesCount(v: Vertex)
    requires |v.edges| > 0
    requires '\n' !in v.name
    requires forall i :: 0 <= i < |v.edges| ==> '\n' !in v.edges[i].ToString()
    ensures CountChar("\n" + Join("\n", v.DependsLines()), '\n') == |v.edges|
  {
    var lines := v.DependsLines();
    forall i | 0 <= i < |lines| ensures '\n' !in lines[i] {
      assert '\n' !in v.name + " depends on ";
    }
    JoinCountChar("\n", lines, '\n');
    CountCharAppend("\n", Join("\n", lines), '\n');
  }

  /**
    A vertex whose name, type and edge texts hold no line break is printed on
    one line, followed by exactly one line per edge when edges are asked for;
    the attributes never add a line, since `repr` escapes line breaks.
   */
  lemma VertexToStringLineCount(v: Vertex, withEdges: bool)
    requires v.Valid()
    requires '\n' !in v.name && '\n' !in v.vertexType
    requires forall i :: 0 <= i < |v.edges| ==> '\n' !in v.edges[i].ToString()
    ensures CountChar(v.ToString(withEdges), '\n') == if withEdges then |v.edges| else 0
  {
    HeadingOneLine(v);
    if withEdges && |v.edges| > 0 {
      EdgeLinesCount(v);
      CountCharAppend(v.Heading(), "\n" + Join("\n", v.DependsLines()), '\n');
    } else {
      assert v.ToString(withEdges) == v.Heading();
    }
  }

  /** The two forms in which known vertices may be handed to the graph, or none. */
  datatype KnownVertices = NoVertices | VertexList(list: seq<Vertex>) | VertexDict(dict: Dict<string, Vertex>)

  /** Keys a list of vertices by `vertex.name`; a later vertex with the same name replaces the earlier one. */
  function VertexListToDict(vs: seq<Vertex>): (d: Dict<string, Vertex>)
    ensures d.Valid()
    ensures forall k :: k in d.m <==> exists v :: v in vs && v.name == k
    ensures forall k :: k in d.m ==> d.m[k].name == k && d.m[k] in vs
    decreases |vs|
  {
    if vs == [] then Empty()
    else
      var init := vs[..|vs| - 1];
      var last := vs[|vs| - 1];
      assert forall j :: 0 <= j < |init| ==> init[j] == vs[j];
      assert vs == init + [last];
      VertexListToDict(init).Set(last.name, last)
  }

  /**
    The mappings view of a sequence of vertices: for each vertex that has
    incoming edges, its name mapped to its edge list, in vertex order.
   */
  function MappingsOf(vs: seq<Vertex>): (r: Dict<string, seq<VertexEdge>>)
    ensures r.Valid()
    ensures forall k :: k in r.m <==> exists v :: v in vs && v.name == k && v.HasDependencies()
    ensures forall k :: k in r.m ==> exists v :: v in vs && v.name == k && r.m[k] == v.edges
    decreases |vs|
  {
    if vs == [] then Empty()
    else
      var init := vs[..|vs| - 1];
      var last := vs[|vs| - 1];
      assert forall j :: 0 <= j < |init| ==> init[j] == vs[j];
      assert vs == init + [last];
      if last.HasDependencies() then MappingsOf(init).Set(last.name, last.edges) else MappingsOf(init)
  }

  /** The vertex objects of a dict, in insertion order. */
  function ValuesOf(d: Dict<string, Vertex>): (r: seq<Vertex>)
    requires d.Valid()
    ensures |r| == |d.keys|
    ensures forall i :: 0 <= i < |r| ==> r[i] == d.m[d.keys[i]]
  {
    seq(|d.keys|, i requires 0 <= i < |d.keys| => d.m[d.keys[i]])
  }

  /** Every vertex is stored under its own name, as the reader builds graphs. */
  ghost predicate WellKeyed(d: Dict<string, Vertex>) {
    forall k :: k in d.m ==> d.m[k].name == k
  }

  /** No two vertices of the list share a name. */
  ghost predicate DistinctNames(vs: seq<Vertex>) {
    forall i, j :: 0 <= i < j < |vs| ==> vs[i].name != vs[j].name
  }

  /**
    In a name-keyed dict, `values()` lists the vertices in key order, each
    under its own name, so no two share a name, and it lists every stored
    vertex.
   */
  lemma ValuesOfWellKeyed(d: Dict<string, Vertex>)
    requires d.Valid() && WellKeyed(d)
    ensures forall i :: 0 <= i < |ValuesOf(d)| ==> ValuesOf(d)[i].name == d.keys[i]
    ensures DistinctNames(ValuesOf(d))
    ensures forall k :: k in d.m ==> d.m[k] in ValuesOf(d)
  {
    var vs := ValuesOf(d);
    forall k | k in d.m ensures d.m[k] in vs {
      var i :| 0 <= i < |d.keys| && d.keys[i] == k;
      assert vs[i] == d.m[k];
    }
  }

  /** The names of the vertices that have incoming edges, in list order. */
  function SinkNames(vs: seq<Vertex>): seq<string>
    decreases |vs|
  {
    if vs == [] then []
    else
      var last := vs[|vs| - 1];
      SinkNames(vs[..|vs| - 1]) + (if last.HasDependencies() then [last.name] else [])
  }

  /**
    With distinct names, the mappings view lists its sinks in vertex order:
    the writer's edge lines follow this order.
   */
  lemma {:induction false} MappingsOfKeys(vs: seq<Vertex>)
    requires DistinctNames(vs)
    ensures MappingsOf(vs).keys == SinkNames(vs)
    decreases |vs|
  {
    if vs != [] {
      var init := vs[..|vs| - 1];
      var last := vs[|vs| - 1];
      assert forall j :: 0 <= j < |init| ==> init[j] == vs[j];
      MappingsOfKeys(init);
      if last.HasDependencies() {
        assert last.name !in MappingsOf(init).m;
      }
    }
  }

  class Graph {
    var vertices: Dict<string, Vertex>

    ghost predicate Valid()
      reads this
    {
      vertices.Valid()
    }

    /** A list is keyed by vertex name, a dict is used as it is, and no vertices give an empty graph. */
    constructor (known: KnownVertices)
      requires known.VertexDict? ==> known.dict.Valid()
      ensures Valid()
      ensures known.NoVertices? ==> vertices == Empty()
      ensures known.VertexList? ==> vertices == VertexListToDict(known.list)
      ensures known.VertexDict? ==> vertices == known.dict
    {
      match known
      case NoVertices => vertices := Empty();
      case VertexList(list) => vertices := VertexListToDict(list);
      case VertexDict(dict) => vertices := dict;
    }

    predicate HasVertices()
      reads this
    {
      |vertices.keys| > 0
    }

    /** Sink name to the edges pointing into it, for every vertex with at least one incoming edge. */
    function Mappings(): (r: Dict<string, seq<VertexEdge>>)
      reads this
      requires Valid()
      ensures r.Valid()
    {
      MappingsOf(ValuesOf(vertices))
    }

    /** The `mappings` property: the loop over the vertices, in insertion order. */
    method ComputeMappings() returns (r: Dict<string, seq<VertexEdge>>)
      requires Valid()
      ensures r == Mappings()
    {
      var vs := ValuesOf(vertices);
      r := Empty();
      var i := 0;
      while i < |vs|
        invariant 0 <= i <= |vs|
        invariant r == MappingsOf(vs[..i])
      {
        var vertex := vs[i];
        assert vs[..i + 1][..i] == vs[..i];
        if vertex.HasDependencies() {
          r := r.Set(vertex.name, vertex.edges);
        }
        i := i + 1;
      }
      assert vs[..i] == vs;
    }

    predicate HasEdges()
      reads this
      requires Valid()
    {
      |Mappings().keys| > 0
    }

    /**
      `add_vertex` as written: its guard asks whether the vertex OBJECT is a
      key of a dict keyed by names, which never holds, so the vertex is always
      stored and an existing vertex of the same name is replaced.
     */
    method AddVertex(vertex: Vertex)
      requires Valid()
      modifies this
      ensures Valid()
      ensures vertices == old(vertices).Set(vertex.name, vertex)
    {
      vertices := vertices.Set(vertex.name, vertex);
    }

    /** `add_vertex` as its error branch intends: a name that is already present is refused. */
    method AddVertexChecked(vertex: Vertex) returns (r: Result<(), string>)
      requires Valid()
      modifies this
      ensures Valid()
      ensures r.Failure? <==> vertex.name in old(vertices.m)
      ensures r.Failure? ==> vertices == old(vertices)
      ensures r.Success? ==> vertices.keys == old(vertices.keys) + [vertex.name]
      ensures r.Success? ==> vertices.m == old(vertices.m)[vertex.name := vertex]
    {
      if vertex.name in vertices.m {
        r := Failure("Vertex, " + vertex.name + ", already exists in the graph.");
      } else {
        vertices := vertices.Set(vertex.name, vertex);
        r := Success(());
      }
    }
  }

  /** Of several listed vertices with one name, the graph keeps the last. */
  lemma {:induction false} VertexListToDictLastWins(vs: seq<Vertex>, i: int)
    requires 0 <= i < |vs|
    requires forall j :: i < j < |vs| ==> vs[j].name != vs[i].name
    ensures VertexListToDict(vs).m[vs[i].name] == vs[i]
    decreases |vs|
  {
    if i < |vs| - 1 {
      VertexListToDictLastWins(vs[..|vs| - 1], i);
    }
  }

  /** Of several edges from vertices with one name, `get_incoming` keeps the last edge's vertex. */
  lemma {:induction false} IncomingLastWins(es: seq<VertexEdge>, i: int)
    requires Vertex.AllResolved(es)
    requires 0 <= i < |es|
    requires forall j :: i < j < |es| ==> es[j].dependency.vertex.name != es[i].dependency.vertex.name
    ensures Vertex.IncomingOf(es)[es[i].dependency.vertex.name] == es[i].dependency.vertex
    decreases |es|
  {
    if i < |es| - 1 {
      IncomingLastWins(es[..|es| - 1], i);
    }
  }

  /** The mappings view is empty exactly when no vertex of the list has an incoming edge. */
  lemma {:induction false} MappingsOfNonEmpty(vs: seq<Vertex>)
    ensures |MappingsOf(vs).keys| > 0 <==> exists i :: 0 <= i < |vs| && vs[i].HasDependencies()
    decreases |vs|
  {
    if vs != [] {
      var init := vs[..|vs| - 1];
      MappingsOfNonEmpty(init);
      assert forall i :: 0 <= i < |init| ==> init[i] == vs[i];
      var prev := MappingsOf(init);
      if vs[|vs| - 1].HasDependencies() {
        var r := prev.Set(vs[|vs| - 1].name, vs[|vs| - 1].edges);
        assert r.keys == prev.keys || r.keys == prev.keys + [vs[|vs| - 1].name];
        assert vs[|vs| - 1].name in r.m;
      }
    }
  }

  /** `has_edges` holds exactly when some vertex has an incoming edge. */
  lemma HasEdgesIff(g: Graph)
    requires g.Valid()
    ensures g.HasEdges() <==> exists k :: k in g.vertices.m && g.vertices.m[k].HasDependencies()
  {
    var vs := ValuesOf(g.vertices);
    MappingsOfNonEmpty(vs);
    if exists k :: k in g.vertices.m && g.vertices.m[k].HasDependencies() {
      var k :| k in g.vertices.m && g.vertices.m[k].HasDependencies();
      var i :| 0 <= i < |g.vertices.keys| && g.vertices.keys[i] == k;
      assert vs[i].HasDependencies();
    }
    if g.HasEdges() {
      var i :| 0 <= i < |vs| && vs[i].HasDependencies();
      assert g.vertices.keys[i] in g.vertices.m;
    }
  }

  /**
    For a graph whose vertices are stored under their own names, `mappings`
    has exactly the vertices with incoming edges as keys, each mapped to its
    own edge list.
   */
  lemma MappingsWellKeyed(g: Graph)
    requires g.Valid() && WellKeyed(g.vertices)
    ensures forall k :: k in g.Mappings().m <==> k in g.vertices.m && g.vertices.m[k].HasDependencies()
    ensures forall k :: k in g.Mappings().m ==> g.Mappings().m[k] == g.vertices.m[k].edges
  {
    forall k {
      MappingsWellKeyedAt(g, k);
    }
  }

  /**
    For a name-keyed graph, `mappings` lists the vertex names that have
    incoming edges in the graph's own key order.
   */
  lemma MappingsKeyOrder(g: Graph)
    requires g.Valid() && WellKeyed(g.vertices)
    ensures g.Mappings().keys == SinkNames(ValuesOf(g.vertices))
    ensures forall i :: 0 <= i < |ValuesOf(g.vertices)| ==> ValuesOf(g.vertices)[i].name == g.vertices.keys[i]
  {
    ValuesOfWellKeyed(g.vertices);
    MappingsOfKeys(ValuesOf(g.vertices));
  }

  lemma MappingsWellKeyedAt(g: Graph, k: string)
    requires g.Valid() && WellKeyed(g.vertices)
    ensures k in g.Mappings().m <==> k in g.vertices.m && g.vertices.m[k].HasDependencies()
    ensures k in g.Mappings().m ==> g.Mappings().m[k] == g.vertices.m[k].edges
  {
    var vs := ValuesOf(g.vertices);
    var r := g.Mappings();
    if k in g.vertices.m && g.vertices.m[k].HasDependencies() {
      var i :| 0 <= i < |g.vertices.keys| && g.vertices.keys[i] == k;
      assert vs[i] in vs;
    }
    if k in r.m {
      var v :| v in vs && v.name == k && r.m[k] == v.edges;
      var i :| 0 <= i < |vs| && vs[i] == v;
      var key := g.vertices.keys[i];
      assert key in g.vertices.m && g.vertices.m[key] == v;
    }
  }
}
