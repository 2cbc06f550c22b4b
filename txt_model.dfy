/**
  The meaning of one pass of the txt-format reader over the parsed expression
  list, as value-level functions. The reader threads five tables through the
  pass (macros, vertex types, vertex attributes, per-sink edge lists, per-sink
  group counters) plus a graph-wide group counter; `Step` is one expression
  and `Run` the whole pass, which stops at the first name used before its
  declaration.

  The functions are plain definitions that mirror the reader's loops; what
  each one means is stated by the lemmas after it.

  The parser itself is not modelled: its output is the `Line` sequence.
 */
module TxtModel {
  import opened Wrappers
  import opened Dicts
  import opened Strings

  /** Where an expression was found (zero-based, as the parser reports it). */
  datatype ParseInfo = ParseInfo(line: nat, pos: nat)

  /** An arrow `-label>`, `=label>` or `<symbol>label>`: its first character and its optional label. */
  datatype Arrow = Arrow(linkType: string, arrowLabel: Option<string>)

  /** The four expression kinds of the grammar, plus any other kind the parser might report. */
  datatype Expression =
    | SetTypes(vertexType: string, vertexList: seq<string>)
    | SetAttributes(key: string, value: string, vertexList: seq<string>)
    | SetEdges(vertexList1: seq<string>, link: Arrow, vertexList2: seq<string>, description: Option<string>)
    | Macro(symbol: string, substitution: string)
    | Unrecognized(expressionType: string)

  datatype Line = Line(expression: Option<Expression>, parseinfo: Option<ParseInfo>)

  /** `InvalidModelData` raised for a vertex referenced before any `set_types` line declared it. */
  datatype ReadError = UsedBeforeDeclaration(name: string, parseinfo: Option<ParseInfo>) {
    /** The error's description; the position is reported one-based. */
    function Description(): (r: string)
      ensures var suffix := name + " used before declaration."; |r| >= |suffix| && r[|r| - |suffix|..] == suffix
    {
      var context :=
        match parseinfo
        case Some(p) => "Error on line " + NatToString(p.line + 1) + " (pos. " + NatToString(p.pos + 1) + ").\n"
        case None => "Error whilst processing requested model.\n";
      var suffix := name + " used before declaration.";
      assert (context + suffix)[|context|..] == suffix;
      context + suffix
    }
  }

  /** The reader's built-in macro table: `=` stands for the label `rec`. */
  const DefaultMacros: map<string, string> := map["=" := "rec"]

  /** An edge as recorded during the pass, before it becomes a `VertexEdge` object. */
  datatype EdgeSpec = EdgeSpec(dependency: string, edgeLabel: Option<string>, groupId: int,
                               uniqueGroupId: int, isConjunction: bool)

  datatype Tables = Tables(
    macros: map<string, string>,
    types: Dict<string, string>,
    attributes: map<string, Dict<string, string>>,
    edges: map<string, seq<EdgeSpec>>,
    groupCounter: map<string, int>,
    uniqueGroupCounter: int)

  ghost predicate AttributesValid(attrs: map<string, Dict<string, string>>) {
    forall k :: k in attrs ==> attrs[k].Valid()
  }

  ghost predicate TablesValid(t: Tables) {
    t.types.Valid() && AttributesValid(t.attributes)
  }

  /** The state at the start of a pass, with whatever the shared macro table holds. */
  function Initial(macros: map<string, string>): (t: Tables)
    ensures TablesValid(t)
    ensures t.macros == macros && t.types.keys == [] && t.attributes == map[]
    ensures t.edges == map[] && t.groupCounter == map[] && t.uniqueGroupCounter == 0
  {
    Tables(macros, Empty(), map[], map[], map[], 0)
  }

  /** The attributes recorded for `name`, or the empty dict. */
  function AttributesOf(attrs: map<string, Dict<string, string>>, name: string): Dict<string, string> {
    if name in attrs then attrs[name] else Empty()
  }

  /** The edges recorded into sink `name`, or none. */
  function EdgesOf(edges: map<string, seq<EdgeSpec>>, name: string): seq<EdgeSpec> {
    if name in edges then edges[name] else []
  }

  /** The group counter of sink `name`, zero before it is first used. */
  function CounterOf(gc: map<string, int>, name: string): int {
    if name in gc then gc[name] else 0
  }

  /**
    The label an arrow gives its edges. `=` always marks a recovery edge
    (any `=` in its own label is dropped); another macro symbol takes the
    macro's substitution over any label written on the arrow; `-` and unknown
    symbols keep the arrow's label.
   */
  function ResolveLabel(macros: map<string, string>, link: Arrow): (r: Option<string>)
    ensures link.linkType == "=" ==> r.Some? && "rec" <= r.value && '=' !in r.value
    ensures link.linkType == "=" && link.arrowLabel.None? ==> r == Some("rec")
    ensures link.linkType == "=" && link.arrowLabel.Some? ==> r == Some("rec," + ReplaceChar(link.arrowLabel.value, '=', ""))
    ensures link.linkType != "-" && link.linkType != "=" && link.linkType in macros ==> r == Some(macros[link.linkType])
    ensures link.linkType == "-" || (link.linkType != "=" && link.linkType !in macros) ==> r == link.arrowLabel
  {
    var afterRecovery :=
      if link.linkType == "=" then
        if link.arrowLabel.None? then Some("rec")
        else
          ReplaceCharByEmpty(link.arrowLabel.value, '=');
          Some("rec," + ReplaceChar(link.arrowLabel.value, '=', ""))
      else link.arrowLabel;
    if link.linkType != "-" && link.linkType != "=" && link.linkType in macros then Some(macros[link.linkType])
    else afterRecovery
  }

  // ----- set_types -----

  /** `keys` extended by each element of `xs` not already present, in order: the key order of a dict after assigning `xs`. */
  function AppendNew(keys: seq<string>, xs: seq<string>): seq<string>
    decreases |xs|
  {
    if xs == [] then keys
    else
      var prev := AppendNew(keys, xs[..|xs| - 1]);
      if xs[|xs| - 1] in prev then prev else prev + [xs[|xs| - 1]]
  }

  lemma {:induction false} AppendNewFacts(keys: seq<string>, xs: seq<string>)
    ensures keys <= AppendNew(keys, xs)
    ensures forall k :: k in AppendNew(keys, xs) <==> k in keys || k in xs
    decreases |xs|
  {
    if xs != [] {
      assert xs == xs[..|xs| - 1] + [xs[|xs| - 1]];
      AppendNewFacts(keys, xs[..|xs| - 1]);
    }
  }

  /** Appending in two batches is appending their concatenation. */
  lemma {:induction false} AppendNewConcat(keys: seq<string>, xs: seq<string>, ys: seq<string>)
    ensures AppendNew(AppendNew(keys, xs), ys) == AppendNew(keys, xs + ys)
    decreases |ys|
  {
    if ys == [] {
      assert xs + ys == xs;
    } else {
      assert (xs + ys)[..|xs + ys| - 1] == xs + ys[..|ys| - 1];
      AppendNewConcat(keys, xs, ys[..|ys| - 1]);
    }
  }

  /** `vertex_types[n] = type` for every listed name, left to right. */
  function DeclareTypes(types: Dict<string, string>, names: seq<string>, vertexType: string): Dict<string, string>
    decreases |names|
  {
    if names == [] then types
    else DeclareTypes(types, names[..|names| - 1], vertexType).Set(names[|names| - 1], vertexType)
  }

  /** Every listed name gets the type, others keep theirs, and new names are appended in list order. */
  lemma {:induction false} DeclareTypesFacts(types: Dict<string, string>, names: seq<string>, vertexType: string)
    requires types.Valid()
    ensures DeclareTypes(types, names, vertexType).Valid()
    ensures DeclareTypes(types, names, vertexType).keys == AppendNew(types.keys, names)
    ensures forall n :: n in names ==> n in DeclareTypes(types, names, vertexType).m && DeclareTypes(types, names, vertexType).m[n] == vertexType
    ensures forall n :: n !in names ==> (n in DeclareTypes(types, names, vertexType).m <==> n in types.m)
    ensures forall n :: n !in names && n in types.m ==> DeclareTypes(types, names, vertexType).m[n] == types.m[n]
    decreases |names|
  {
    if names != [] {
      var init := names[..|names| - 1];
      assert names == init + [names[|names| - 1]];
      DeclareTypesFacts(types, init, vertexType);
      AppendNewFacts(types.keys, init);
    }
  }

  // ----- set_attributes and descriptions -----

  /** `assign_vertex_attribute`: creates the vertex's attribute dict if needed, then sets one key. */
  function AssignAttribute(attrs: map<string, Dict<string, string>>, name: string, key: string, value: string): map<string, Dict<string, string>> {
    attrs[name := AttributesOf(attrs, name).Set(key, value)]
  }

  /** Assigns `key = value` onto every listed vertex, left to right. */
  function AssignAll(attrs: map<string, Dict<string, string>>, names: seq<string>, key: string, value: string): map<string, Dict<string, string>>
    decreases |names|
  {
    if names == [] then attrs
    else AssignAttribute(AssignAll(attrs, names[..|names| - 1], key, value), names[|names| - 1], key, value)
  }

  /**
    Each listed vertex has `key` set to `value` on top of its earlier
    attributes (however often it is listed); other vertices are untouched.
   */
  lemma {:induction false} AssignAllFacts(attrs: map<string, Dict<string, string>>, names: seq<string>, key: string, value: string)
    requires AttributesValid(attrs)
    ensures AttributesValid(AssignAll(attrs, names, key, value))
    ensures forall n :: n in AssignAll(attrs, names, key, value) <==> n in attrs || n in names
    ensures forall n :: n in names ==> AssignAll(attrs, names, key, value)[n] == AttributesOf(attrs, n).Set(key, value)
    ensures forall n :: n !in names && n in attrs ==> AssignAll(attrs, names, key, value)[n] == attrs[n]
    decreases |names|
  {
    if names != [] {
      var init := names[..|names| - 1];
      var last := names[|names| - 1];
      assert names == init + [last];
      AssignAllFacts(attrs, init, key, value);
      if last in init {
        AttributesOf(attrs, last).SetTwice(key, value);
      }
    }
  }

  // ----- set_edges -----

  /** Every listed sink gets an (empty) edge list if it has none yet. */
  function EnsureEdgeLists(edges: map<string, seq<EdgeSpec>>, names: seq<string>): map<string, seq<EdgeSpec>>
    decreases |names|
  {
    if names == [] then edges
    else
      var prev := EnsureEdgeLists(edges, names[..|names| - 1]);
      if names[|names| - 1] in prev then prev else prev[names[|names| - 1] := []]
  }

  lemma {:induction false} EnsureEdgeListsFacts(edges: map<string, seq<EdgeSpec>>, names: seq<string>)
    ensures forall n :: n in EnsureEdgeLists(edges, names) <==> n in edges || n in names
    ensures forall n :: n in EnsureEdgeLists(edges, names) ==> EnsureEdgeLists(edges, names)[n] == EdgesOf(edges, n)
    decreases |names|
  {
    if names != [] {
      assert names == names[..|names| - 1] + [names[|names| - 1]];
      EnsureEdgeListsFacts(edges, names[..|names| - 1]);
    }
  }

  /** Every listed sink gets a group counter, starting at 0, if it has none yet. */
  function EnsureCounters(gc: map<string, int>, names: seq<string>): map<string, int>
    decreases |names|
  {
    if names == [] then gc
    else
      var prev := EnsureCounters(gc, names[..|names| - 1]);
      if names[|names| - 1] in prev then prev else prev[names[|names| - 1] := 0]
  }

  lemma {:induction false} EnsureCountersFacts(gc: map<string, int>, names: seq<string>)
    ensures forall n :: n in EnsureCounters(gc, names) <==> n in gc || n in names
    ensures forall n :: n in EnsureCounters(gc, names) ==> EnsureCounters(gc, names)[n] == CounterOf(gc, n)
    decreases |names|
  {
    if names != [] {
      assert names == names[..|names| - 1] + [names[|names| - 1]];
      EnsureCountersFacts(gc, names[..|names| - 1]);
    }
  }

  /** The number of times `x` occurs in `xs`. */
  function Occurrences(xs: seq<string>, x: string): nat
    decreases |xs|
  {
    if xs == [] then 0
    else Occurrences(xs[..|xs| - 1], x) + if xs[|xs| - 1] == x then 1 else 0
  }

  /** A name occurs zero times exactly when it is not in the list. */
  lemma {:induction false} OccurrencesZero(xs: seq<string>, x: string)
    ensures Occurrences(xs, x) == 0 <==> x !in xs
    decreases |xs|
  {
    if xs != [] {
      assert xs == xs[..|xs| - 1] + [xs[|xs| - 1]];
      OccurrencesZero(xs[..|xs| - 1], x);
    }
  }

  lemma {:induction false} OccurrencesConcat(xs: seq<string>, ys: seq<string>, x: string)
    ensures Occurrences(xs + ys, x) == Occurrences(xs, x) + Occurrences(ys, x)
    decreases |ys|
  {
    if ys == [] {
      assert xs + ys == xs;
    } else {
      assert (xs + ys)[..|xs + ys| - 1] == xs + ys[..|ys| - 1];
      OccurrencesConcat(xs, ys[..|ys| - 1], x);
    }
  }

  function Repeat(n: nat, e: EdgeSpec): seq<EdgeSpec> {
    seq(n, _ => e)
  }

  /**
    The edges one statement contributes to sink `s`: for each LHS name in
    order, one edge per occurrence of `s` on the RHS, all with the same
    label, the sink's current group id, the statement's unique group id and
    conjunction flag.
   */
  function Contribution(lhs: seq<string>, rhs: seq<string>, s: string, edgeLabel: Option<string>,
                        groupId: int, uniqueGroupId: int, isConjunction: bool): seq<EdgeSpec>
    decreases |lhs|
  {
    if lhs == [] then []
    else
      Contribution(lhs[..|lhs| - 1], rhs, s, edgeLabel, groupId, uniqueGroupId, isConjunction)
      + Repeat(Occurrences(rhs, s), EdgeSpec(lhs[|lhs| - 1], edgeLabel, groupId, uniqueGroupId, isConjunction))
  }

  /** One edge per (LHS name, occurrence of the sink); all carry the statement's label, ids and flag. */
  lemma {:induction false} ContributionFacts(lhs: seq<string>, rhs: seq<string>, s: string, edgeLabel: Option<string>,
                                             groupId: int, uniqueGroupId: int, isConjunction: bool)
    ensures var c := Contribution(lhs, rhs, s, edgeLabel, groupId, uniqueGroupId, isConjunction);
      && |c| == |lhs| * Occurrences(rhs, s)
      && (s !in rhs ==> c == [])
      && forall i :: 0 <= i < |c| ==>
           c[i].edgeLabel == edgeLabel && c[i].groupId == groupId && c[i].uniqueGroupId == uniqueGroupId
           && c[i].isConjunction == isConjunction && c[i].dependency in lhs
    decreases |lhs|
  {
    OccurrencesZero(rhs, s);
    if lhs != [] {
      var init := lhs[..|lhs| - 1];
      assert lhs == init + [lhs[|lhs| - 1]];
      ContributionFacts(init, rhs, s, edgeLabel, groupId, uniqueGroupId, isConjunction);
      var prev := Contribution(init, rhs, s, edgeLabel, groupId, uniqueGroupId, isConjunction);
      var row := Repeat(Occurrences(rhs, s), EdgeSpec(lhs[|lhs| - 1], edgeLabel, groupId, uniqueGroupId, isConjunction));
      assert |prev + row| == |init| * Occurrences(rhs, s) + Occurrences(rhs, s);
    }
  }

  /** The inner loop for one LHS name: one edge into each RHS sink, in RHS order. */
  function AppendRow(edges: map<string, seq<EdgeSpec>>, dependency: string, rhs: seq<string>, edgeLabel: Option<string>,
                     gc: map<string, int>, uniqueGroupId: int, isConjunction: bool): map<string, seq<EdgeSpec>>
    decreases |rhs|
  {
    if rhs == [] then edges
    else
      var prev := AppendRow(edges, dependency, rhs[..|rhs| - 1], edgeLabel, gc, uniqueGroupId, isConjunction);
      var sink := rhs[|rhs| - 1];
      prev[sink := EdgesOf(prev, sink) + [EdgeSpec(dependency, edgeLabel, CounterOf(gc, sink), uniqueGroupId, isConjunction)]]
  }

  lemma {:induction false} AppendRowFacts(edges: map<string, seq<EdgeSpec>>, dependency: string, rhs: seq<string>, edgeLabel: Option<string>,
                                          gc: map<string, int>, uniqueGroupId: int, isConjunction: bool)
    requires forall n :: n in rhs ==> n in edges
    ensures AppendRow(edges, dependency, rhs, edgeLabel, gc, uniqueGroupId, isConjunction).Keys == edges.Keys
    ensures forall s :: s in edges ==>
              AppendRow(edges, dependency, rhs, edgeLabel, gc, uniqueGroupId, isConjunction)[s] == edges[s] + Repeat(Occurrences(rhs, s), EdgeSpec(dependency, edgeLabel, CounterOf(gc, s), uniqueGroupId, isConjunction))
    decreases |rhs|
  {
    if rhs != [] {
      var init := rhs[..|rhs| - 1];
      var sink := rhs[|rhs| - 1];
      assert rhs == init + [sink];
      AppendRowFacts(edges, dependency, init, edgeLabel, gc, uniqueGroupId, isConjunction);
      var e := EdgeSpec(dependency, edgeLabel, CounterOf(gc, sink), uniqueGroupId, isConjunction);
      assert Repeat(Occurrences(init, sink), e) + [e] == Repeat(Occurrences(rhs, sink), e);
    }
  }

  /** The nested loops of a `set_edges` statement: LHS-major, one edge per (LHS, RHS) pair. */
  function AppendAll(edges: map<string, seq<EdgeSpec>>, lhs: seq<string>, rhs: seq<string>, edgeLabel: Option<string>,
                     gc: map<string, int>, uniqueGroupId: int, isConjunction: bool): map<string, seq<EdgeSpec>>
    decreases |lhs|
  {
    if lhs == [] then edges
    else
      AppendRow(AppendAll(edges, lhs[..|lhs| - 1], rhs, edgeLabel, gc, uniqueGroupId, isConjunction),
                lhs[|lhs| - 1], rhs, edgeLabel, gc, uniqueGroupId, isConjunction)
  }

  /** The statement appends to each sink exactly its `Contribution`, and to no other vertex. */
  lemma {:induction false} AppendAllFacts(edges: map<string, seq<EdgeSpec>>, lhs: seq<string>, rhs: seq<string>, edgeLabel: Option<string>,
                                          gc: map<string, int>, uniqueGroupId: int, isConjunction: bool)
    requires forall n :: n in rhs ==> n in edges
    ensures AppendAll(edges, lhs, rhs, edgeLabel, gc, uniqueGroupId, isConjunction).Keys == edges.Keys
    ensures forall s :: s in edges ==>
              AppendAll(edges, lhs, rhs, edgeLabel, gc, uniqueGroupId, isConjunction)[s] == edges[s] + Contribution(lhs, rhs, s, edgeLabel, CounterOf(gc, s), uniqueGroupId, isConjunction)
    decreases |lhs|
  {
    if lhs != [] {
      var init := lhs[..|lhs| - 1];
      AppendAllFacts(edges, init, rhs, edgeLabel, gc, uniqueGroupId, isConjunction);
      var prev := AppendAll(edges, init, rhs, edgeLabel, gc, uniqueGroupId, isConjunction);
      AppendRowFacts(prev, lhs[|lhs| - 1], rhs, edgeLabel, gc, uniqueGroupId, isConjunction);
    }
  }

  /** `group_counter[n] += 1` for every RHS occurrence. */
  function BumpCounters(gc: map<string, int>, rhs: seq<string>): map<string, int>
    decreases |rhs|
  {
    if rhs == [] then gc
    else
      var prev := BumpCounters(gc, rhs[..|rhs| - 1]);
      prev[rhs[|rhs| - 1] := CounterOf(prev, rhs[|rhs| - 1]) + 1]
  }

  lemma {:induction false} BumpCountersFacts(gc: map<string, int>, rhs: seq<string>)
    requires forall n :: n in rhs ==> n in gc
    ensures BumpCounters(gc, rhs).Keys == gc.Keys
    ensures forall n :: n in gc ==> BumpCounters(gc, rhs)[n] == gc[n] + Occurrences(rhs, n)
    decreases |rhs|
  {
    if rhs != [] {
      assert rhs == rhs[..|rhs| - 1] + [rhs[|rhs| - 1]];
      BumpCountersFacts(gc, rhs[..|rhs| - 1]);
    }
  }

  // ----- declare-before-use -----

  /** The first name of `names` that is not declared, in list order. */
  function FirstUndeclared(names: seq<string>, declared: map<string, string>): Option<string>
    decreases |names|
  {
    if names == [] then None
    else if names[0] !in declared then Some(names[0])
    else FirstUndeclared(names[1..], declared)
  }

  /** No name is reported exactly when all are declared, and a reported name is an undeclared one of the list. */
  lemma {:induction false} FirstUndeclaredFacts(names: seq<string>, declared: map<string, string>)
    ensures FirstUndeclared(names, declared).None? <==> forall i :: 0 <= i < |names| ==> names[i] in declared
    ensures FirstUndeclared(names, declared).Some? ==>
              FirstUndeclared(names, declared).value in names && FirstUndeclared(names, declared).value !in declared
    decreases |names|
  {
    if names != [] {
      FirstUndeclaredFacts(names[1..], declared);
      assert forall i :: 1 <= i < |names| ==> names[1..][i - 1] == names[i];
    }
  }

  /** The name reported is the earliest undeclared one. */
  lemma {:induction false} FirstUndeclaredAt(names: seq<string>, declared: map<string, string>, i: int)
    requires 0 <= i < |names| && names[i] !in declared
    requires forall j :: 0 <= j < i ==> names[j] in declared
    ensures FirstUndeclared(names, declared) == Some(names[i])
    decreases i
  {
    if i > 0 {
      assert forall j :: 0 <= j < i - 1 ==> names[1..][j] == names[j + 1];
      FirstUndeclaredAt(names[1..], declared, i - 1);
    }
  }

  /** Checking `a` then `b` reports `a`'s first undeclared name if it has one, else `b`'s. */
  lemma {:induction false} FirstUndeclaredConcat(a: seq<string>, b: seq<string>, declared: map<string, string>)
    ensures FirstUndeclared(a + b, declared) == if FirstUndeclared(a, declared).Some? then FirstUndeclared(a, declared) else FirstUndeclared(b, declared)
    decreases |a|
  {
    if a != [] {
      assert (a + b)[0] == a[0];
      assert (a + b)[1..] == a[1..] + b;
      FirstUndeclaredConcat(a[1..], b, declared);
    } else {
      assert a + b == b;
    }
  }

  // ----- one line, one pass -----

  /** The RHS names of a `set_edges` line get its description, if it has one. */
  function Describe(attrs: map<string, Dict<string, string>>, rhs: seq<string>, description: Option<string>): map<string, Dict<string, string>> {
    if description.Some? then AssignAll(attrs, rhs, "description", description.value) else attrs
  }

  /** The successful effect of `set_edges` once every RHS and LHS name is known to be declared. */
  function EdgesEffect(t: Tables, lhs: seq<string>, link: Arrow, rhs: seq<string>, description: Option<string>): Tables {
    var attributes := Describe(t.attributes, rhs, description);
    var gc := EnsureCounters(t.groupCounter, rhs);
    t.(attributes := attributes,
       edges := AppendAll(EnsureEdgeLists(t.edges, rhs), lhs, rhs, ResolveLabel(t.macros, link), gc, t.uniqueGroupCounter, |lhs| > 1),
       groupCounter := BumpCounters(gc, rhs),
       uniqueGroupCounter := t.uniqueGroupCounter + 1)
  }

  /** A `set_edges` line: its RHS names are checked before its LHS names. */
  function StepSetEdges(t: Tables, lhs: seq<string>, link: Arrow, rhs: seq<string>, description: Option<string>,
                        parseinfo: Option<ParseInfo>): Result<Tables, ReadError> {
    match FirstUndeclared(rhs + lhs, t.types.m)
    case Some(n) => Failure(UsedBeforeDeclaration(n, parseinfo))
    case None => Success(EdgesEffect(t, lhs, link, rhs, description))
  }

  /** A `set_attributes` line: every target must be declared. */
  function StepSetAttributes(t: Tables, key: string, value: string, names: seq<string>,
                             parseinfo: Option<ParseInfo>): Result<Tables, ReadError> {
    match FirstUndeclared(names, t.types.m)
    case Some(n) => Failure(UsedBeforeDeclaration(n, parseinfo))
    case None => Success(t.(attributes := AssignAll(t.attributes, names, key, value)))
  }

  /** One parsed line; a line without an expression changes nothing. */
  function Step(t: Tables, line: Line): Result<Tables, ReadError> {
    if line.expression.None? then Success(t)
    else
      match line.expression.value
      case SetTypes(vertexType, names) => Success(t.(types := DeclareTypes(t.types, names, vertexType)))
      case SetEdges(lhs, link, rhs, description) => StepSetEdges(t, lhs, link, rhs, description, line.parseinfo)
      case SetAttributes(key, value, names) => StepSetAttributes(t, key, value, names, line.parseinfo)
      case Macro(symbol, substitution) => Success(t.(macros := t.macros[symbol := substitution]))
      case Unrecognized(_) => Success(t)
  }

  /**
    Where a pass stopped: the tables after the last line that succeeded and,
    if a line failed, its error. (Only the macro table outlives a failed
    pass.)
   */
  datatype Outcome = Outcome(tables: Tables, failure: Option<ReadError>)

  function Run(t0: Tables, lines: seq<Line>): Outcome
    decreases |lines|
  {
    if lines == [] then Outcome(t0, None)
    else
      var prev := Run(t0, lines[..|lines| - 1]);
      if prev.failure.Some? then prev
      else
        match Step(prev.tables, lines[|lines| - 1])
        case Success(t) => Outcome(t, None)
        case Failure(e) => Outcome(prev.tables, Some(e))
  }

  /** Once a line has failed, later lines change nothing. */
  lemma {:induction false} RunStopsAtFailure(t0: Tables, lines: seq<Line>, k: nat)
    requires k <= |lines|
    requires Run(t0, lines[..k]).failure.Some?
    ensures Run(t0, lines) == Run(t0, lines[..k])
    decreases |lines|
  {
    if k < |lines| {
      assert lines[..|lines| - 1][..k] == lines[..k];
      RunStopsAtFailure(t0, lines[..|lines| - 1], k);
    } else {
      assert lines[..k] == lines;
    }
  }

  /** Every line keeps the vertex-type dict and every attribute dict well formed. */
  lemma StepValid(t: Tables, line: Line)
    requires TablesValid(t)
    requires Step(t, line).Success?
    ensures TablesValid(Step(t, line).value)
  {
    if line.expression.Some? {
      match line.expression.value
      case SetTypes(vertexType, names) =>
        DeclareTypesFacts(t.types, names, vertexType);
      case SetEdges(lhs, link, rhs, description) =>
        if description.Some? {
          AssignAllFacts(t.attributes, rhs, "description", description.value);
        }
      case SetAttributes(key, value, names) =>
        AssignAllFacts(t.attributes, names, key, value);
      case Macro(_, _) =>
      case Unrecognized(_) =>
    }
  }

  lemma {:induction false} RunValid(t0: Tables, lines: seq<Line>)
    requires TablesValid(t0)
    ensures TablesValid(Run(t0, lines).tables)
    decreases |lines|
  {
    if lines != [] {
      var prev := Run(t0, lines[..|lines| - 1]);
      RunValid(t0, lines[..|lines| - 1]);
      if prev.failure.None? && Step(prev.tables, lines[|lines| - 1]).Success? {
        StepValid(prev.tables, lines[|lines| - 1]);
      }
    }
  }

  /** Every recorded edge's dependency is a declared vertex. */
  ghost predicate EdgesDeclared(t: Tables) {
    forall s, j :: s in t.edges && 0 <= j < |t.edges[s]| ==> t.edges[s][j].dependency in t.types.m
  }

  lemma EdgesEffectKeepsEdgesDeclared(t: Tables, lhs: seq<string>, link: Arrow, rhs: seq<string>, description: Option<string>)
    requires EdgesDeclared(t)
    requires forall n :: n in lhs ==> n in t.types.m
    ensures EdgesDeclared(EdgesEffect(t, lhs, link, rhs, description))
  {
    var r := EdgesEffect(t, lhs, link, rhs, description);
    var prepared := EnsureEdgeLists(t.edges, rhs);
    var gc := EnsureCounters(t.groupCounter, rhs);
    var edgeLabel := ResolveLabel(t.macros, link);
    EnsureEdgeListsFacts(t.edges, rhs);
    AppendAllFacts(prepared, lhs, rhs, edgeLabel, gc, t.uniqueGroupCounter, |lhs| > 1);
    forall s, j | s in r.edges && 0 <= j < |r.edges[s]| ensures r.edges[s][j].dependency in r.types.m {
      var c := Contribution(lhs, rhs, s, edgeLabel, CounterOf(gc, s), t.uniqueGroupCounter, |lhs| > 1);
      ContributionFacts(lhs, rhs, s, edgeLabel, CounterOf(gc, s), t.uniqueGroupCounter, |lhs| > 1);
      assert r.edges[s] == EdgesOf(t.edges, s) + c;
      if j >= |EdgesOf(t.edges, s)| {
        assert r.edges[s][j] == c[j - |EdgesOf(t.edges, s)|];
      }
    }
  }

  lemma StepKeepsEdgesDeclared(t: Tables, line: Line)
    requires TablesValid(t) && EdgesDeclared(t)
    requires Step(t, line).Success?
    ensures EdgesDeclared(Step(t, line).value)
  {
    if line.expression.Some? {
      match line.expression.value
      case SetTypes(vertexType, names) =>
        DeclareTypesFacts(t.types, names, vertexType);
      case SetEdges(lhs, link, rhs, description) =>
        FirstUndeclaredFacts(rhs + lhs, t.types.m);
        assert forall i :: 0 <= i < |lhs| ==> (rhs + lhs)[|rhs| + i] == lhs[i];
        EdgesEffectKeepsEdgesDeclared(t, lhs, link, rhs, description);
      case SetAttributes(_, _, _) =>
      case Macro(_, _) =>
      case Unrecognized(_) =>
    }
  }

  /** A successful pass only records edges from declared vertices, so hydration always finds them. */
  lemma {:induction false} RunEdgesDeclared(t0: Tables, lines: seq<Line>)
    requires TablesValid(t0) && EdgesDeclared(t0)
    ensures EdgesDeclared(Run(t0, lines).tables)
    decreases |lines|
  {
    if lines != [] {
      var prev := Run(t0, lines[..|lines| - 1]);
      RunEdgesDeclared(t0, lines[..|lines| - 1]);
      RunValid(t0, lines[..|lines| - 1]);
      if prev.failure.None? && Step(prev.tables, lines[|lines| - 1]).Success? {
        StepKeepsEdgesDeclared(prev.tables, lines[|lines| - 1]);
      }
    }
  }
}
