/**
  What a complete pass of the txt-format reader computes, stated over the
  parsed lines alone: which names become vertices and with which type, when
  the pass fails and with which name, what each attribute ends up as, how
  the macro table evolves, how the group counters count, and exactly which
  edges each sink receives. Each `Run...` lemma ties the tables threaded by
  `Run` to one of these line-level definitions.
 */
module TxtProperties {
  import opened Wrappers
  import opened Dicts
  import opened TxtModel

  // ----- reading the lines -----

  /** The names a line requires to be declared already, in the order they are checked: RHS before LHS. */
  function Referenced(line: Line): seq<string> {
    if line.expression.None? then []
    else
      match line.expression.value
      case SetEdges(lhs, _, rhs, _) => rhs + lhs
      case SetAttributes(_, _, names) => names
      case _ => []
  }

  function DeclaredIn(line: Line): seq<string> {
    if line.expression.Some? && line.expression.value.SetTypes? then line.expression.value.vertexList else []
  }

  function DeclaredType(line: Line): string {
    if line.expression.Some? && line.expression.value.SetTypes? then line.expression.value.vertexType else ""
  }

  /** Every name listed by a `set_types` line, in order, repeats included. */
  function DeclaredNames(lines: seq<Line>): seq<string>
    decreases |lines|
  {
    if lines == [] then [] else DeclaredNames(lines[..|lines| - 1]) + DeclaredIn(lines[|lines| - 1])
  }

  /** The type given to `n` by the last `set_types` line listing it. */
  function TypeThrough(lines: seq<Line>, n: string): Option<string>
    decreases |lines|
  {
    if lines == [] then None
    else if n in DeclaredIn(lines[|lines| - 1]) then Some(DeclaredType(lines[|lines| - 1]))
    else TypeThrough(lines[..|lines| - 1], n)
  }

  function LookupType(types: Dict<string, string>, n: string): Option<string> {
    if n in types.m then Some(types.m[n]) else None
  }

  ghost predicate AllDeclared(names: seq<string>, prefix: seq<Line>) {
    forall n :: n in names ==> n in DeclaredNames(prefix)
  }

  /** Every name a line refers to is listed by some earlier `set_types` line. */
  ghost predicate DeclaresBeforeUse(lines: seq<Line>) {
    forall i :: 0 <= i < |lines| ==> AllDeclared(Referenced(lines[i]), lines[..i])
  }

  /** The first of `names` that no line of `prefix` declares. */
  function FirstMissing(names: seq<string>, prefix: seq<Line>): Option<string>
    decreases |names|
  {
    if names == [] then None
    else if names[0] !in DeclaredNames(prefix) then Some(names[0])
    else FirstMissing(names[1..], prefix)
  }

  /** The value a line assigns to attribute `k` of vertex `n`, if it assigns one. */
  function LineWrites(line: Line, n: string, k: string): Option<string> {
    if line.expression.None? then None
    else
      match line.expression.value
      case SetAttributes(key, value, names) => if n in names && k == key then Some(value) else None
      case SetEdges(_, _, rhs, description) => if description.Some? && n in rhs && k == "description" then description else None
      case _ => None
  }

  /** The last value any line assigns to attribute `k` of vertex `n`. */
  function AttributeThrough(lines: seq<Line>, n: string, k: string): Option<string>
    decreases |lines|
  {
    if lines == [] then None
    else if LineWrites(lines[|lines| - 1], n, k).Some? then LineWrites(lines[|lines| - 1], n, k)
    else AttributeThrough(lines[..|lines| - 1], n, k)
  }

  function LookupAttribute(attrs: map<string, Dict<string, string>>, n: string, k: string): Option<string> {
    if n in attrs && k in attrs[n].m then Some(attrs[n].m[k]) else None
  }

  function MacroUpdate(macros: map<string, string>, line: Line): map<string, string> {
    if line.expression.Some? && line.expression.value.Macro? then
      macros[line.expression.value.symbol := line.expression.value.substitution]
    else macros
  }

  /** The macro table after the macro lines of `lines`, starting from `m0`. */
  function MacrosThrough(m0: map<string, string>, lines: seq<Line>): map<string, string>
    decreases |lines|
  {
    if lines == [] then m0 else MacroUpdate(MacrosThrough(m0, lines[..|lines| - 1]), lines[|lines| - 1])
  }

  predicate IsSetEdges(line: Line) {
    line.expression.Some? && line.expression.value.SetEdges?
  }

  /** The number of `set_edges` statements. */
  function SetEdgesCount(lines: seq<Line>): nat
    decreases |lines|
  {
    if lines == [] then 0 else SetEdgesCount(lines[..|lines| - 1]) + if IsSetEdges(lines[|lines| - 1]) then 1 else 0
  }

  function LineSinkOccurrences(line: Line, s: string): nat {
    if IsSetEdges(line) then Occurrences(line.expression.value.vertexList2, s) else 0
  }

  /** How often `s` appears on the right of a `set_edges` statement, repeats included. */
  function SinkOccurrences(lines: seq<Line>, s: string): nat
    decreases |lines|
  {
    if lines == [] then 0 else SinkOccurrences(lines[..|lines| - 1], s) + LineSinkOccurrences(lines[|lines| - 1], s)
  }

  /**
    The edges a line appends to sink `s`, given the lines before it: labels
    come from the macros defined so far, the group id counts the earlier
    RHS occurrences of `s`, and the unique group id counts the earlier
    `set_edges` statements.
   */
  function LineContribution(m0: map<string, string>, prefix: seq<Line>, line: Line, s: string): seq<EdgeSpec> {
    if IsSetEdges(line) then
      var e := line.expression.value;
      Contribution(e.vertexList1, e.vertexList2, s, ResolveLabel(MacrosThrough(m0, prefix), e.link),
                   SinkOccurrences(prefix, s), SetEdgesCount(prefix), |e.vertexList1| > 1)
    else []
  }

  /** All edges sink `s` receives, statement by statement. */
  function SinkEdges(m0: map<string, string>, lines: seq<Line>, s: string): seq<EdgeSpec>
    decreases |lines|
  {
    if lines == [] then []
    else SinkEdges(m0, lines[..|lines| - 1], s) + LineContribution(m0, lines[..|lines| - 1], lines[|lines| - 1], s)
  }

  // ----- one line -----

  lemma RunSnoc(t0: Tables, lines: seq<Line>)
    requires lines != [] && Run(t0, lines).failure.None?
    ensures Run(t0, lines[..|lines| - 1]).failure.None?
    ensures Step(Run(t0, lines[..|lines| - 1]).tables, lines[|lines| - 1]).Success?
    ensures Run(t0, lines).tables == Step(Run(t0, lines[..|lines| - 1]).tables, lines[|lines| - 1]).value
  {
  }

  lemma StepTypes(t: Tables, line: Line)
    requires Step(t, line).Success?
    ensures Step(t, line).value.types == DeclareTypes(t.types, DeclaredIn(line), DeclaredType(line))
  {
    if line.expression.Some? {
      match line.expression.value
      case SetTypes(_, _) =>
      case SetEdges(_, _, _, _) =>
      case SetAttributes(_, _, _) =>
      case Macro(_, _) =>
      case Unrecognized(_) =>
    }
  }

  /** A line succeeds exactly when every name it refers to is declared. */
  lemma StepSucceedsIff(t: Tables, line: Line)
    ensures Step(t, line).Success? <==> forall n :: n in Referenced(line) ==> n in t.types.m
  {
    if line.expression.Some? {
      match line.expression.value
      case SetEdges(lhs, _, rhs, _) =>
        FirstUndeclaredFacts(rhs + lhs, t.types.m);
      case SetAttributes(_, _, names) =>
        FirstUndeclaredFacts(names, t.types.m);
      case SetTypes(_, _) =>
      case Macro(_, _) =>
      case Unrecognized(_) =>
    }
  }

  lemma StepFailure(t: Tables, line: Line)
    requires Step(t, line).Failure?
    ensures FirstUndeclared(Referenced(line), t.types.m).Some?
    ensures Step(t, line).error == UsedBeforeDeclaration(FirstUndeclared(Referenced(line), t.types.m).value, line.parseinfo)
  {
  }

  /** The attribute table a line leaves behind when it succeeds. */
  function LineAttributes(attrs: map<string, Dict<string, string>>, line: Line): map<string, Dict<string, string>> {
    if line.expression.None? then attrs
    else
      match line.expression.value
      case SetAttributes(key, value, names) => AssignAll(attrs, names, key, value)
      case SetEdges(_, _, rhs, description) => Describe(attrs, rhs, description)
      case _ => attrs
  }

  lemma StepAttributesTable(t: Tables, line: Line)
    requires Step(t, line).Success?
    ensures Step(t, line).value.attributes == LineAttributes(t.attributes, line)
  {
    if line.expression.Some? {
      match line.expression.value
      case SetAttributes(_, _, _) =>
      case SetEdges(_, _, _, _) =>
      case SetTypes(_, _) =>
      case Macro(_, _) =>
      case Unrecognized(_) =>
    }
  }

  lemma LineAttributesLookup(attrs: map<string, Dict<string, string>>, line: Line, n: string, k: string)
    requires AttributesValid(attrs)
    ensures LookupAttribute(LineAttributes(attrs, line), n, k)
            == if LineWrites(line, n, k).Some? then LineWrites(line, n, k) else LookupAttribute(attrs, n, k)
  {
    if line.expression.Some? {
      match line.expression.value
      case SetAttributes(key, value, names) =>
        AssignAllFacts(attrs, names, key, value);
      case SetEdges(_, _, rhs, description) =>
        if description.Some? {
          AssignAllFacts(attrs, rhs, "description", description.value);
        }
      case SetTypes(_, _) =>
      case Macro(_, _) =>
      case Unrecognized(_) =>
    }
  }

  lemma StepCounters(t: Tables, line: Line, s: string)
    requires Step(t, line).Success?
    ensures Step(t, line).value.uniqueGroupCounter == t.uniqueGroupCounter + if IsSetEdges(line) then 1 else 0
    ensures CounterOf(Step(t, line).value.groupCounter, s) == CounterOf(t.groupCounter, s) + LineSinkOccurrences(line, s)
  {
    if IsSetEdges(line) {
      var rhs := line.expression.value.vertexList2;
      var gc := EnsureCounters(t.groupCounter, rhs);
      EnsureCountersFacts(t.groupCounter, rhs);
      BumpCountersFacts(gc, rhs);
      OccurrencesZero(rhs, s);
    } else if line.expression.Some? {
      match line.expression.value
      case SetTypes(_, _) =>
      case SetAttributes(_, _, _) =>
      case Macro(_, _) =>
      case Unrecognized(_) =>
    }
  }

  /** The edges a successful line appends to sink `s`, from the state it is read in. */
  function StepContribution(t: Tables, line: Line, s: string): seq<EdgeSpec> {
    if IsSetEdges(line) then
      var e := line.expression.value;
      Contribution(e.vertexList1, e.vertexList2, s, ResolveLabel(t.macros, e.link), CounterOf(t.groupCounter, s),
                   t.uniqueGroupCounter, |e.vertexList1| > 1)
    else []
  }

  lemma EdgesEffectEdges(t: Tables, lhs: seq<string>, link: Arrow, rhs: seq<string>, description: Option<string>, s: string)
    ensures EdgesOf(EdgesEffect(t, lhs, link, rhs, description).edges, s)
            == EdgesOf(t.edges, s) + Contribution(lhs, rhs, s, ResolveLabel(t.macros, link), CounterOf(t.groupCounter, s),
                                                  t.uniqueGroupCounter, |lhs| > 1)
  {
    var prepared := EnsureEdgeLists(t.edges, rhs);
    var gc := EnsureCounters(t.groupCounter, rhs);
    var edgeLabel := ResolveLabel(t.macros, link);
    EnsureEdgeListsFacts(t.edges, rhs);
    EnsureCountersFacts(t.groupCounter, rhs);
    AppendAllFacts(prepared, lhs, rhs, edgeLabel, gc, t.uniqueGroupCounter, |lhs| > 1);
    ContributionFacts(lhs, rhs, s, edgeLabel, CounterOf(t.groupCounter, s), t.uniqueGroupCounter, |lhs| > 1);
    assert CounterOf(gc, s) == CounterOf(t.groupCounter, s);
  }

  lemma StepEdges(t: Tables, line: Line, s: string)
    requires Step(t, line).Success?
    ensures EdgesOf(Step(t, line).value.edges, s) == EdgesOf(t.edges, s) + StepContribution(t, line, s)
  {
    if line.expression.Some? {
      match line.expression.value
      case SetEdges(lhs, link, rhs, description) =>
        EdgesEffectEdges(t, lhs, link, rhs, description, s);
      case SetTypes(_, _) =>
      case SetAttributes(_, _, _) =>
      case Macro(_, _) =>
      case Unrecognized(_) =>
    }
  }

  // ----- a whole pass -----

  /** The vertex names are those ever declared, each once, in order of first declaration. */
  lemma {:induction false} RunTypesKeys(m0: map<string, string>, lines: seq<Line>)
    requires Run(Initial(m0), lines).failure.None?
    ensures Run(Initial(m0), lines).tables.types.Valid()
    ensures Run(Initial(m0), lines).tables.types.keys == AppendNew([], DeclaredNames(lines))
    decreases |lines|
  {
    RunValid(Initial(m0), lines);
    if lines != [] {
      var init := lines[..|lines| - 1];
      var last := lines[|lines| - 1];
      RunSnoc(Initial(m0), lines);
      RunTypesKeys(m0, init);
      var prev := Run(Initial(m0), init).tables;
      StepTypes(prev, last);
      DeclareTypesFacts(prev.types, DeclaredIn(last), DeclaredType(last));
      AppendNewConcat([], DeclaredNames(init), DeclaredIn(last));
    }
  }

  lemma RunDeclaredIff(m0: map<string, string>, lines: seq<Line>)
    requires Run(Initial(m0), lines).failure.None?
    ensures forall n :: n in Run(Initial(m0), lines).tables.types.m <==> n in DeclaredNames(lines)
  {
    RunTypesKeys(m0, lines);
    AppendNewFacts([], DeclaredNames(lines));
  }

  /** A name's type is the one its last declaration gave it. */
  lemma {:induction false} RunTypeOf(m0: map<string, string>, lines: seq<Line>, n: string)
    requires Run(Initial(m0), lines).failure.None?
    ensures LookupType(Run(Initial(m0), lines).tables.types, n) == TypeThrough(lines, n)
    decreases |lines|
  {
    if lines != [] {
      var init := lines[..|lines| - 1];
      var last := lines[|lines| - 1];
      RunSnoc(Initial(m0), lines);
      RunTypeOf(m0, init, n);
      RunValid(Initial(m0), init);
      var prev := Run(Initial(m0), init).tables;
      StepTypes(prev, last);
      DeclareTypesFacts(prev.types, DeclaredIn(last), DeclaredType(last));
    }
  }

  /** A pass succeeds exactly when every line only refers to names declared by earlier lines. */
  lemma {:induction false} RunSucceedsIff(m0: map<string, string>, lines: seq<Line>)
    ensures Run(Initial(m0), lines).failure.None? <==> DeclaresBeforeUse(lines)
    decreases |lines|
  {
    if lines != [] {
      var init := lines[..|lines| - 1];
      var last := lines[|lines| - 1];
      RunSucceedsIff(m0, init);
      assert forall i :: 0 <= i < |init| ==> init[i] == lines[i] && init[..i] == lines[..i];
      var prev := Run(Initial(m0), init);
      if prev.failure.None? {
        RunDeclaredIff(m0, init);
        StepSucceedsIff(prev.tables, last);
        assert DeclaresBeforeUse(lines) <==> DeclaresBeforeUse(init) && AllDeclared(Referenced(last), init);
      } else {
        assert !DeclaresBeforeUse(init);
      }
    }
  }

  lemma {:induction false} FirstUndeclaredIsFirstMissing(names: seq<string>, declared: map<string, string>, prefix: seq<Line>)
    requires forall n :: n in declared <==> n in DeclaredNames(prefix)
    ensures FirstUndeclared(names, declared) == FirstMissing(names, prefix)
    decreases |names|
  {
    if names != [] {
      FirstUndeclaredIsFirstMissing(names[1..], declared, prefix);
    }
  }

  /**
    Line `f` is where a pass fails: every earlier line was fine, the error
    names the first name of line `f` (RHS first) that no earlier line
    declared, carries line `f`'s position, and the tables are those the
    earlier lines left.
   */
  ghost predicate FailsAt(m0: map<string, string>, lines: seq<Line>, f: int) {
    && 0 <= f < |lines|
    && DeclaresBeforeUse(lines[..f])
    && FirstMissing(Referenced(lines[f]), lines[..f]).Some?
    && Run(Initial(m0), lines).failure
       == Some(UsedBeforeDeclaration(FirstMissing(Referenced(lines[f]), lines[..f]).value, lines[f].parseinfo))
    && Run(Initial(m0), lines).tables == Run(Initial(m0), lines[..f]).tables
  }

  lemma {:induction false} RunFailure(m0: map<string, string>, lines: seq<Line>)
    requires Run(Initial(m0), lines).failure.Some?
    ensures exists f :: FailsAt(m0, lines, f)
    decreases |lines|
  {
    var init := lines[..|lines| - 1];
    var last := lines[|lines| - 1];
    var prev := Run(Initial(m0), init);
    if prev.failure.Some? {
      RunFailure(m0, init);
      var f :| FailsAt(m0, init, f);
      assert init[..f] == lines[..f] && init[f] == lines[f];
      assert FailsAt(m0, lines, f);
    } else {
      var f := |lines| - 1;
      assert lines[..f] == init;
      RunSucceedsIff(m0, init);
      RunDeclaredIff(m0, init);
      StepFailure(prev.tables, last);
      FirstUndeclaredIsFirstMissing(Referenced(last), prev.tables.types.m, init);
      assert FailsAt(m0, lines, f);
    }
  }

  /** Every attribute holds the value of the last line that assigned it. */
  lemma {:induction false} RunAttributes(m0: map<string, string>, lines: seq<Line>, n: string, k: string)
    requires Run(Initial(m0), lines).failure.None?
    ensures LookupAttribute(Run(Initial(m0), lines).tables.attributes, n, k) == AttributeThrough(lines, n, k)
    decreases |lines|
  {
    if lines != [] {
      var init := lines[..|lines| - 1];
      RunSnoc(Initial(m0), lines);
      RunAttributes(m0, init, n, k);
      RunValid(Initial(m0), init);
      var prev := Run(Initial(m0), init).tables;
      StepAttributesTable(prev, lines[|lines| - 1]);
      LineAttributesLookup(prev.attributes, lines[|lines| - 1], n, k);
    }
  }

  lemma {:induction false} RunMacros(m0: map<string, string>, lines: seq<Line>)
    requires Run(Initial(m0), lines).failure.None?
    ensures Run(Initial(m0), lines).tables.macros == MacrosThrough(m0, lines)
    decreases |lines|
  {
    if lines != [] {
      var init := lines[..|lines| - 1];
      var last := lines[|lines| - 1];
      RunSnoc(Initial(m0), lines);
      RunMacros(m0, init);
      var prev := Run(Initial(m0), init).tables;
      if last.expression.Some? {
        match last.expression.value
        case SetTypes(_, _) =>
        case SetEdges(_, _, _, _) =>
        case SetAttributes(_, _, _) =>
        case Macro(_, _) =>
        case Unrecognized(_) =>
      }
    }
  }

  /** A failed pass still leaves behind the macros of the lines before the failing one. */
  lemma MacrosAfterFailure(m0: map<string, string>, lines: seq<Line>)
    requires Run(Initial(m0), lines).failure.Some?
    ensures exists f :: FailsAt(m0, lines, f) && Run(Initial(m0), lines).tables.macros == MacrosThrough(m0, lines[..f])
  {
    RunFailure(m0, lines);
    var f :| FailsAt(m0, lines, f);
    RunSucceedsIff(m0, lines[..f]);
    RunMacros(m0, lines[..f]);
  }

  /** The global counter counts `set_edges` statements; a sink's counter counts its RHS occurrences. */
  lemma {:induction false} RunCounters(m0: map<string, string>, lines: seq<Line>, s: string)
    requires Run(Initial(m0), lines).failure.None?
    ensures Run(Initial(m0), lines).tables.uniqueGroupCounter == SetEdgesCount(lines)
    ensures CounterOf(Run(Initial(m0), lines).tables.groupCounter, s) == SinkOccurrences(lines, s)
    decreases |lines|
  {
    if lines != [] {
      var init := lines[..|lines| - 1];
      RunSnoc(Initial(m0), lines);
      RunCounters(m0, init, s);
      StepCounters(Run(Initial(m0), init).tables, lines[|lines| - 1], s);
    }
  }

  /** Each sink receives exactly the edges its statements contribute, in statement order. */
  lemma {:induction false} RunEdges(m0: map<string, string>, lines: seq<Line>, s: string)
    requires Run(Initial(m0), lines).failure.None?
    ensures EdgesOf(Run(Initial(m0), lines).tables.edges, s) == SinkEdges(m0, lines, s)
    decreases |lines|
  {
    if lines != [] {
      var init := lines[..|lines| - 1];
      RunSnoc(Initial(m0), lines);
      RunEdges(m0, init, s);
      RunMacros(m0, init);
      RunCounters(m0, init, s);
      StepEdges(Run(Initial(m0), init).tables, lines[|lines| - 1], s);
    }
  }
}
