/**
  The txt-format reader: one forward pass over the parsed lines that fills
  the local tables, then one vertex per declared name, then hydration of
  every edge's dependency from a name to the vertex registered under it.

  The macro table is not local to a pass: it is one object shared by every
  reader (it models the class-level default dict the pass aliases), so a
  macro line changes what later reads, by any reader, see.
 */
module TxtReader {
  import opened Wrappers
  import opened Dicts
  import opened Graphs
  import opened TxtModel

  /** The shared macro table, created holding the default macros. */
  class MacroTable {
    var table: map<string, string>

    constructor ()
      ensures table == DefaultMacros
    {
      table := DefaultMacros;
    }
  }

  /** What `read_graph` produces: `None` for an empty parse, a graph, or the error it raised. */
  datatype ReadResult = EmptyParse | Built(graph: Graph) | Failed(error: ReadError)

  /** `vertex_types[name] = type` for every name of a `set_types` line. */
  method DeclareTypesLoop(types: Dict<string, string>, names: seq<string>, vertexType: string)
    returns (r: Dict<string, string>)
    ensures r == DeclareTypes(types, names, vertexType)
  {
    r := types;
    var i := 0;
    while i < |names|
      invariant 0 <= i <= |names|
      invariant r == DeclareTypes(types, names[..i], vertexType)
    {
      assert names[..i + 1][..i] == names[..i];
      r := r.Set(names[i], vertexType);
      i := i + 1;
    }
    assert names[..|names|] == names;
  }

  /** A `set_attributes` line: each target must be declared, then gets `key = value`. */
  method ApplySetAttributes(t: Tables, key: string, value: string, names: seq<string>, parseinfo: Option<ParseInfo>)
    returns (r: Result<Tables, ReadError>)
    ensures r == StepSetAttributes(t, key, value, names, parseinfo)
  {
    var attributes := t.attributes;
    var i := 0;
    while i < |names|
      invariant 0 <= i <= |names|
      invariant forall j :: 0 <= j < i ==> names[j] in t.types.m
      invariant attributes == AssignAll(t.attributes, names[..i], key, value)
    {
      var name := names[i];
      if name !in t.types.m {
        FirstUndeclaredAt(names, t.types.m, i);
        return Failure(UsedBeforeDeclaration(name, parseinfo));
      }
      assert names[..i + 1][..i] == names[..i];
      attributes := AssignAttribute(attributes, name, key, value);
      i := i + 1;
    }
    assert names[..|names|] == names;
    FirstUndeclaredFacts(names, t.types.m);
    r := Success(t.(attributes := attributes));
  }

  /**
    The RHS loop of a `set_edges` line: each sink must be declared; it then
    gets the description (if any), an edge list and a group counter.
   */
  method PrepareSinks(t: Tables, rhs: seq<string>, description: Option<string>)
    returns (undeclared: Option<string>, attributes: map<string, Dict<string, string>>,
             edges: map<string, seq<EdgeSpec>>, gc: map<string, int>)
    ensures undeclared == FirstUndeclared(rhs, t.types.m)
    ensures undeclared.None? ==> attributes == Describe(t.attributes, rhs, description)
    ensures undeclared.None? ==> edges == EnsureEdgeLists(t.edges, rhs)
    ensures undeclared.None? ==> gc == EnsureCounters(t.groupCounter, rhs)
  {
    attributes := t.attributes;
    edges := t.edges;
    gc := t.groupCounter;
    var i := 0;
    while i < |rhs|
      invariant 0 <= i <= |rhs|
      invariant forall j :: 0 <= j < i ==> rhs[j] in t.types.m
      invariant attributes == Describe(t.attributes, rhs[..i], description)
      invariant edges == EnsureEdgeLists(t.edges, rhs[..i])
      invariant gc == EnsureCounters(t.groupCounter, rhs[..i])
    {
      var name := rhs[i];
      if name !in t.types.m {
        FirstUndeclaredAt(rhs, t.types.m, i);
        return Some(name), attributes, edges, gc;
      }
      assert rhs[..i + 1][..i] == rhs[..i];
      if description.Some? {
        attributes := AssignAttribute(attributes, name, "description", description.value);
      }
      if name !in edges {
        edges := edges[name := []];
      }
      if name !in gc {
        gc := gc[name := 0];
      }
      i := i + 1;
    }
    assert rhs[..|rhs|] == rhs;
    FirstUndeclaredFacts(rhs, t.types.m);
    undeclared := None;
  }

  /** The inner loop for one LHS name: an edge from it into every sink, in RHS order. */
  method AppendRowLoop(edges: map<string, seq<EdgeSpec>>, name: string, rhs: seq<string>, macros: map<string, string>,
                       link: Arrow, gc: map<string, int>, uniqueGroupId: int, isConjunction: bool)
    returns (r: map<string, seq<EdgeSpec>>)
    requires forall n :: n in rhs ==> n in edges && n in gc
    ensures r.Keys == edges.Keys
    ensures r == AppendRow(edges, name, rhs, ResolveLabel(macros, link), gc, uniqueGroupId, isConjunction)
  {
    r := edges;
    var j := 0;
    while j < |rhs|
      invariant 0 <= j <= |rhs|
      invariant r.Keys == edges.Keys
      invariant r == AppendRow(edges, name, rhs[..j], ResolveLabel(macros, link), gc, uniqueGroupId, isConjunction)
    {
      var sink := rhs[j];
      assert rhs[..j + 1][..j] == rhs[..j];
      var arrowLabel := ResolveLabel(macros, link);
      r := r[sink := r[sink] + [EdgeSpec(name, arrowLabel, gc[sink], uniqueGroupId, isConjunction)]];
      j := j + 1;
    }
    assert rhs[..|rhs|] == rhs;
  }

  /**
    The LHS loop of a `set_edges` line: each dependency must be declared; it
    then gets one edge into every sink, in RHS order, labelled by the arrow.
   */
  method AppendEdges(edges: map<string, seq<EdgeSpec>>, lhs: seq<string>, rhs: seq<string>, macros: map<string, string>,
                     link: Arrow, gc: map<string, int>, uniqueGroupId: int, isConjunction: bool, declared: map<string, string>)
    returns (undeclared: Option<string>, r: map<string, seq<EdgeSpec>>)
    requires forall n :: n in rhs ==> n in edges && n in gc
    ensures undeclared == FirstUndeclared(lhs, declared)
    ensures undeclared.None? ==> r == AppendAll(edges, lhs, rhs, ResolveLabel(macros, link), gc, uniqueGroupId, isConjunction)
  {
    r := edges;
    var i := 0;
    while i < |lhs|
      invariant 0 <= i <= |lhs|
      invariant forall j :: 0 <= j < i ==> lhs[j] in declared
      invariant r.Keys == edges.Keys
      invariant r == AppendAll(edges, lhs[..i], rhs, ResolveLabel(macros, link), gc, uniqueGroupId, isConjunction)
    {
      var name := lhs[i];
      if name !in declared {
        FirstUndeclaredAt(lhs, declared, i);
        return Some(name), r;
      }
      assert lhs[..i + 1][..i] == lhs[..i];
      r := AppendRowLoop(r, name, rhs, macros, link, gc, uniqueGroupId, isConjunction);
      i := i + 1;
    }
    assert lhs[..|lhs|] == lhs;
    FirstUndeclaredFacts(lhs, declared);
    undeclared := None;
  }

  /** `group_counter[name] += 1` for every RHS occurrence. */
  method BumpCountersLoop(gc: map<string, int>, rhs: seq<string>) returns (r: map<string, int>)
    requires forall n :: n in rhs ==> n in gc
    ensures r == BumpCounters(gc, rhs)
  {
    r := gc;
    var i := 0;
    while i < |rhs|
      invariant 0 <= i <= |rhs|
      invariant r.Keys == gc.Keys
      invariant r == BumpCounters(gc, rhs[..i])
    {
      assert rhs[..i + 1][..i] == rhs[..i];
      r := r[rhs[i] := r[rhs[i]] + 1];
      i := i + 1;
    }
    assert rhs[..|rhs|] == rhs;
  }

  /** A `set_edges` line: the RHS loop, the LHS loop, then the counters. */
  method ApplySetEdges(t: Tables, lhs: seq<string>, link: Arrow, rhs: seq<string>, description: Option<string>,
                       parseinfo: Option<ParseInfo>)
    returns (r: Result<Tables, ReadError>)
    ensures r == StepSetEdges(t, lhs, link, rhs, description, parseinfo)
  {
    var isConjunction := |lhs| > 1;
    FirstUndeclaredConcat(rhs, lhs, t.types.m);
    var undeclared, attributes, edges, gc := PrepareSinks(t, rhs, description);
    if undeclared.Some? {
      return Failure(UsedBeforeDeclaration(undeclared.value, parseinfo));
    }
    EnsureEdgeListsFacts(t.edges, rhs);
    EnsureCountersFacts(t.groupCounter, rhs);
    undeclared, edges := AppendEdges(edges, lhs, rhs, t.macros, link, gc, t.uniqueGroupCounter, isConjunction, t.types.m);
    if undeclared.Some? {
      return Failure(UsedBeforeDeclaration(undeclared.value, parseinfo));
    }
    var uniqueGroupCounter := t.uniqueGroupCounter + 1;
    gc := BumpCountersLoop(gc, rhs);
    r := Success(t.(attributes := attributes, edges := edges, groupCounter := gc, uniqueGroupCounter := uniqueGroupCounter));
  }

  /** The edge object for a recorded edge carries the recorded label, group ids and conjunction flag. */
  ghost predicate EdgeFromSpec(e: VertexEdge, s: EdgeSpec) {
    e.edgeLabel == s.edgeLabel && e.groupId == Some(s.groupId) && e.uniqueGroupId == Some(s.uniqueGroupId)
    && e.isConjunction == s.isConjunction
  }

  /** The vertex built for a declared name: its type, its attributes (or none) and its edges (or none). */
  ghost predicate VertexFromTables(v: Vertex, name: string, t: Tables) {
    && v.Valid()
    && v.name == name
    && name in t.types.m
    && v.vertexType == t.types.m[name]
    && v.attributes == AttributesOf(t.attributes, name)
    && |v.edges| == |EdgesOf(t.edges, name)|
    && forall j :: 0 <= j < |v.edges| ==> EdgeFromSpec(v.edges[j], EdgesOf(t.edges, name)[j])
  }

  /** Every edge of `v` still names its recorded dependency. */
  ghost predicate Unhydrated(v: Vertex, specs: seq<EdgeSpec>)
    reads v.edges
  {
    |v.edges| == |specs| && forall j :: 0 <= j < |specs| ==> v.edges[j].dependency == Named(specs[j].dependency)
  }

  /** Every edge of `v` refers to the vertex registered under its recorded dependency's name. */
  ghost predicate HydratedFrom(v: Vertex, specs: seq<EdgeSpec>, vs: map<string, Vertex>)
    reads v.edges
  {
    |v.edges| == |specs|
    && forall j :: 0 <= j < |specs| ==> specs[j].dependency in vs && v.edges[j].dependency == Resolved(vs[specs[j].dependency])
  }

  /** The edge objects of all vertices of `vs`. */
  ghost function AllEdges(vs: map<string, Vertex>): set<VertexEdge> {
    set k, j | k in vs && 0 <= j < |vs[k].edges| :: vs[k].edges[j]
  }

  /** One `VertexEdge` object per recorded edge, its dependency still a name. */
  method MakeEdges(specs: seq<EdgeSpec>) returns (es: seq<VertexEdge>)
    ensures |es| == |specs|
    ensures forall j :: 0 <= j < |es| ==> fresh(es[j])
    ensures forall j :: 0 <= j < |es| ==> EdgeFromSpec(es[j], specs[j]) && es[j].dependency == Named(specs[j].dependency)
  {
    es := [];
    var i := 0;
    while i < |specs|
      invariant 0 <= i <= |specs|
      invariant |es| == i
      invariant forall j :: 0 <= j < i ==> fresh(es[j])
      invariant forall j :: 0 <= j < i ==> EdgeFromSpec(es[j], specs[j]) && es[j].dependency == Named(specs[j].dependency)
    {
      var s := specs[i];
      var e := new VertexEdge(Named(s.dependency), s.edgeLabel, Some(s.groupId), Some(s.uniqueGroupId), s.isConjunction);
      es := es + [e];
      i := i + 1;
    }
  }

  /** The vertex for one declared name, as the tables describe it. */
  method MakeVertex(t: Tables, name: string) returns (v: Vertex)
    requires TablesValid(t) && name in t.types.m
    ensures VertexFromTables(v, name, t) && Unhydrated(v, EdgesOf(t.edges, name))
    ensures forall j :: 0 <= j < |v.edges| ==> fresh(v.edges[j])
  {
    var attributes := if name in t.attributes then Some(t.attributes[name]) else None;
    var edges: Option<seq<VertexEdge>> := None;
    if name in t.edges {
      var es := MakeEdges(t.edges[name]);
      edges := Some(es);
    }
    v := new Vertex(name, t.types.m[name], edges, attributes);
  }

  /** One vertex per declared name, in declaration order, with its attributes and its not yet hydrated edges. */
  method BuildVertices(t: Tables) returns (known: Dict<string, Vertex>)
    requires TablesValid(t)
    ensures known.Valid() && known.keys == t.types.keys
    ensures forall k :: k in known.m ==> VertexFromTables(known.m[k], k, t)
    ensures forall k :: k in known.m ==> Unhydrated(known.m[k], EdgesOf(t.edges, k))
    ensures forall e :: e in AllEdges(known.m) ==> fresh(e)
  {
    known := Empty();
    var i := 0;
    while i < |t.types.keys|
      invariant 0 <= i <= |t.types.keys|
      invariant known.Valid() && known.keys == t.types.keys[..i]
      invariant forall k :: k in known.m ==> VertexFromTables(known.m[k], k, t)
      invariant forall k :: k in known.m ==> Unhydrated(known.m[k], EdgesOf(t.edges, k))
      invariant forall k, j :: k in known.m && 0 <= j < |known.m[k].edges| ==> fresh(known.m[k].edges[j])
    {
      var name := t.types.keys[i];
      assert name in t.types.m;
      assert name !in known.keys;
      var v := MakeVertex(t, name);
      known := known.Set(name, v);
      assert t.types.keys[..i + 1] == t.types.keys[..i] + [name];
      i := i + 1;
    }
    assert t.types.keys[..i] == t.types.keys;
  }

  /** The dependency an edge has once hydrated: a name becomes the vertex registered under it. */
  function HydratedDependency(d: Dependency, vs: map<string, Vertex>): Dependency {
    if d.Named? && d.name in vs then Resolved(vs[d.name]) else d
  }

  /** Each edge of `v` still names its recorded dependency or already refers to the vertex of that name. */
  ghost predicate NamedOrResolved(v: Vertex, specs: seq<EdgeSpec>, vs: map<string, Vertex>)
    reads v.edges
  {
    |v.edges| == |specs|
    && forall j :: 0 <= j < |specs| ==>
         specs[j].dependency in vs
         && (v.edges[j].dependency == Named(specs[j].dependency) || v.edges[j].dependency == Resolved(vs[specs[j].dependency]))
  }

  /** The edge loop of one vertex: every dependency that is still a name is looked up. */
  method HydrateVertex(v: Vertex, ghost specs: seq<EdgeSpec>, known: map<string, Vertex>)
    requires NamedOrResolved(v, specs, known)
    modifies v.edges
    ensures HydratedFrom(v, specs, known)
    ensures forall e :: e in v.edges ==> e.dependency == HydratedDependency(old(e.dependency), known)
  {
    var j := 0;
    while j < |v.edges|
      invariant 0 <= j <= |v.edges|
      invariant forall e :: e in v.edges ==>
                  e.dependency == old(e.dependency) || e.dependency == HydratedDependency(old(e.dependency), known)
      invariant forall l :: 0 <= l < j ==> v.edges[l].dependency == HydratedDependency(old(v.edges[l].dependency), known)
    {
      var e := v.edges[j];
      if e.dependency.Named? {
        e.dependency := Resolved(known[e.dependency.name]);
      }
      j := j + 1;
    }
    forall e | e in v.edges ensures e.dependency == HydratedDependency(old(e.dependency), known) {
      var l :| 0 <= l < |v.edges| && v.edges[l] == e;
    }
  }

  /** One round of the vertex loop: the `i`-th vertex's edges are hydrated, and no other edge loses its progress. */
  method HydrateNext(known: Dict<string, Vertex>, ghost t: Tables, i: nat)
    requires known.Valid() && i < |known.keys|
    requires forall k :: k in known.m ==> NamedOrResolved(known.m[k], EdgesOf(t.edges, k), known.m)
    requires forall l :: 0 <= l < i ==> HydratedFrom(known.m[known.keys[l]], EdgesOf(t.edges, known.keys[l]), known.m)
    modifies AllEdges(known.m)
    ensures forall k :: k in known.m ==> NamedOrResolved(known.m[k], EdgesOf(t.edges, k), known.m)
    ensures forall l :: 0 <= l < i + 1 ==> HydratedFrom(known.m[known.keys[l]], EdgesOf(t.edges, known.keys[l]), known.m)
  {
    var v := known.m[known.keys[i]];
    assert forall j :: 0 <= j < |v.edges| ==> v.edges[j] in AllEdges(known.m);
    label before:
    HydrateVertex(v, EdgesOf(t.edges, known.keys[i]), known.m);
    forall k | k in known.m ensures NamedOrResolved(known.m[k], EdgesOf(t.edges, k), known.m) {
      assert old@before(NamedOrResolved(known.m[k], EdgesOf(t.edges, k), known.m));
      forall j | 0 <= j < |EdgesOf(t.edges, k)| ensures
        known.m[k].edges[j].dependency == Named(EdgesOf(t.edges, k)[j].dependency)
        || known.m[k].edges[j].dependency == Resolved(known.m[EdgesOf(t.edges, k)[j].dependency])
      {
        var e := known.m[k].edges[j];
        if e in v.edges {
          assert e.dependency == HydratedDependency(old@before(e.dependency), known.m);
        }
      }
    }
    forall l | 0 <= l < i ensures HydratedFrom(known.m[known.keys[l]], EdgesOf(t.edges, known.keys[l]), known.m) {
      var w := known.m[known.keys[l]];
      assert old@before(HydratedFrom(w, EdgesOf(t.edges, known.keys[l]), known.m));
      forall j | 0 <= j < |w.edges| ensures w.edges[j].dependency == Resolved(known.m[EdgesOf(t.edges, known.keys[l])[j].dependency]) {
        var e := w.edges[j];
        if e in v.edges {
          assert e.dependency == HydratedDependency(old@before(e.dependency), known.m);
        }
      }
    }
  }

  /**
    Replaces every dependency that is still a name by the vertex registered
    under it, vertex by vertex in key order.
   */
  method Hydrate(known: Dict<string, Vertex>, ghost t: Tables)
    requires known.Valid()
    requires forall k :: k in known.m ==> NamedOrResolved(known.m[k], EdgesOf(t.edges, k), known.m)
    modifies AllEdges(known.m)
    ensures forall k :: k in known.m ==> HydratedFrom(known.m[k], EdgesOf(t.edges, k), known.m)
  {
    var i := 0;
    while i < |known.keys|
      invariant 0 <= i <= |known.keys|
      invariant forall k :: k in known.m ==> NamedOrResolved(known.m[k], EdgesOf(t.edges, k), known.m)
      invariant forall l :: 0 <= l < i ==> HydratedFrom(known.m[known.keys[l]], EdgesOf(t.edges, known.keys[l]), known.m)
    {
      HydrateNext(known, t, i);
      i := i + 1;
    }
    forall k | k in known.m ensures HydratedFrom(known.m[k], EdgesOf(t.edges, k), known.m) {
      var l :| 0 <= l < |known.keys| && known.keys[l] == k;
    }
  }

  /**
    Builds one vertex per declared name, in declaration order, then hydrates
    every edge, and wraps the vertices in a graph.
   */
  method BuildGraph(t: Tables) returns (g: Graph)
    requires TablesValid(t) && EdgesDeclared(t)
    ensures fresh(g) && g.Valid()
    ensures g.vertices.keys == t.types.keys
    ensures forall k :: k in g.vertices.m ==> VertexFromTables(g.vertices.m[k], k, t)
    ensures forall k :: k in g.vertices.m ==> HydratedFrom(g.vertices.m[k], EdgesOf(t.edges, k), g.vertices.m)
  {
    var known := BuildVertices(t);
    assert forall n :: n in known.m <==> n in t.types.m;
    forall k | k in known.m ensures NamedOrResolved(known.m[k], EdgesOf(t.edges, k), known.m) {
      forall j | 0 <= j < |EdgesOf(t.edges, k)| ensures EdgesOf(t.edges, k)[j].dependency in known.m {
        assert k in t.edges;
      }
    }
    Hydrate(known, t);
    g := new Graph(VertexDict(known));
  }

  /** A reader; every reader built on the same macro table shares it. */
  class Reader {
    const macros: MacroTable

    constructor (macros: MacroTable)
      ensures this.macros == macros
    {
      this.macros := macros;
    }

    /**
      `read_graph` over an already-parsed expression list. An empty parse
      gives no graph. Otherwise the pass stops at the first name used before
      its declaration, leaving the macro table as the lines before it left
      it; a complete pass builds and hydrates the graph.
     */
    method ReadGraph(ast: Option<seq<Line>>) returns (r: ReadResult)
      modifies macros
      ensures ast.None? ==> r == EmptyParse && macros.table == old(macros.table)
      ensures ast.Some? ==> !r.EmptyParse?
      ensures ast.Some? ==> macros.table == Run(Initial(old(macros.table)), ast.value).tables.macros
      ensures ast.Some? ==> (r.Failed? <==> Run(Initial(old(macros.table)), ast.value).failure.Some?)
      ensures ast.Some? && r.Failed? ==> Some(r.error) == Run(Initial(old(macros.table)), ast.value).failure
      ensures r.Built? ==> ast.Some? && fresh(r.graph) && r.graph.Valid()
      ensures r.Built? ==>
                var t := Run(Initial(old(macros.table)), ast.value).tables;
                && r.graph.vertices.keys == t.types.keys
                && (forall k :: k in r.graph.vertices.m ==> VertexFromTables(r.graph.vertices.m[k], k, t))
                && (forall k :: k in r.graph.vertices.m ==> HydratedFrom(r.graph.vertices.m[k], EdgesOf(t.edges, k), r.graph.vertices.m))
    {
      if ast.None? {
        return EmptyParse;
      }
      var lines := ast.value;
      ghost var t0 := Initial(macros.table);
      var types: Dict<string, string> := Empty();
      var attributes: map<string, Dict<string, string>> := map[];
      var edges: map<string, seq<EdgeSpec>> := map[];
      var groupCounter: map<string, int> := map[];
      var uniqueGroupCounter := 0;
      var i := 0;
      while i < |lines|
        invariant 0 <= i <= |lines|
        invariant Run(t0, lines[..i]) == Outcome(Tables(macros.table, types, attributes, edges, groupCounter, uniqueGroupCounter), None)
      {
        var line := lines[i];
        var t := Tables(macros.table, types, attributes, edges, groupCounter, uniqueGroupCounter);
        assert lines[..i + 1][..i] == lines[..i];
        if line.expression.Some? {
          assert Step(t, line) == match line.expression.value {
            case SetTypes(vertexType, names) => Success(t.(types := DeclareTypes(t.types, names, vertexType)))
            case SetEdges(lhs, link, rhs, description) => StepSetEdges(t, lhs, link, rhs, description, line.parseinfo)
            case SetAttributes(key, value, names) => StepSetAttributes(t, key, value, names, line.parseinfo)
            case Macro(symbol, substitution) => Success(t.(macros := t.macros[symbol := substitution]))
            case Unrecognized(_) => Success(t)
          };
          match line.expression.value {
            case SetTypes(vertexType, names) =>
              types := DeclareTypesLoop(types, names, vertexType);
            case SetEdges(lhs, link, rhs, description) =>
              var result := ApplySetEdges(t, lhs, link, rhs, description, line.parseinfo);
              if result.Failure? {
                RunStopsAtFailure(t0, lines, i + 1);
                return Failed(result.error);
              }
              attributes := result.value.attributes;
              edges := result.value.edges;
              groupCounter := result.value.groupCounter;
              uniqueGroupCounter := result.value.uniqueGroupCounter;
            case SetAttributes(key, value, names) =>
              var result := ApplySetAttributes(t, key, value, names, line.parseinfo);
              if result.Failure? {
                RunStopsAtFailure(t0, lines, i + 1);
                return Failed(result.error);
              }
              attributes := result.value.attributes;
            case Macro(symbol, substitution) =>
              macros.table := macros.table[symbol := substitution];
            case Unrecognized(_) =>
              // Logged as a warning and otherwise skipped.
          }
        }
        i := i + 1;
      }
      assert lines[..|lines|] == lines;
      var final := Tables(macros.table, types, attributes, edges, groupCounter, uniqueGroupCounter);
      RunValid(t0, lines);
      RunEdgesDeclared(t0, lines);
      var g := BuildGraph(final);
      r := Built(g);
    }
  }
}
