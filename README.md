# agtool core in Dafny

agtool reads an *account graph* from a small text language and writes it out as a
Graphviz DOT document. An account graph is a set of vertices: accounts, passwords,
devices and so on. Each vertex lists the edges of dependencies that grant access to
it. This project models the parts of agtool that decide what is read and what is
written, and proves properties of them:

- **The graph data model** (`graph.dfy`, module `Graphs`).
  - `Vertex` and `VertexEdge` are classes whose fields are updated in place.
  - A dependency starts out as a bare name and is later *hydrated* into the vertex
    object itself.
  - `Graph` keeps its vertices in an insertion-ordered dictionary and computes its
    sink-to-edges mappings with a loop.
- **The txt reader** (`txt_model.dfy`, `txt_properties.dfy` and `txt_reader.dfy`).
  - `txt_model.dfy` (module `TxtModel`) is a state machine over the parsed lines.
    - `set_types` declares vertices.
    - `set_attributes` assigns attributes.
    - `set_edges` checks that every name is declared, resolves macros in edge
      labels, and appends one edge per left-hand vertex and right-hand sink.
    - Macro lines update a macro table that every reader shares.
    - The first undeclared name aborts the read with an `InvalidModelData` error; the
      message carries the one-based line and position.
  - `txt_properties.dfy` (module `TxtProperties`) proves, over a whole run, what the
    tables then hold.
    - Each vertex's type is the one the last `set_types` line gave it.
    - Each attribute has the last value assigned to it.
    - Each sink has its edges in statement order, and its group-id counters count
      `set_edges` statements.
    - A run fails exactly when some name is used before it is declared, and the
      error names the first such name.
  - `txt_reader.dfy` (module `TxtReader`) holds the reader class, with one method
    per step. Each method is proved equal to the state machine. The later phases
    are:
    - building the vertices;
    - hydrating their dependencies;
    - constructing the graph.
- **The Graphviz writer** (`graphviz_writer.dfy`).
  - It serialises attribute dictionaries with escaped quotes. The proofs show the
    escaping is reversible.
  - It merges each theme's attributes over the defaults.
  - It emits one node line per vertex and one edge line per edge, sink by sink.
  - For each vertex it keeps an incoming and an outgoing counter. The proofs show
    which counter values each theme call sees, and what the counters end at.
  - It validates a theme's feature settings.
- **The themes.**
  - `theme_basic.dfy` holds `basic` and `minimal`:
    - `basic` classifies nodes by type and name;
    - it draws edge colours from an 18-colour palette, with one counter per edge
      category;
    - it memoises colours by group id;
    - `minimal` styles edges by their labels.
  - `theme_basic_old.dfy` holds the older `basic` theme. Its palette starts with
    black, which the counter arithmetic skips.
  - `theme_legacy.dfy` holds the legacy `simple` and `classic` themes and their
    colour and grayscale variants. These colour an edge by its group id modulo the
    palette size.
  - `theme_legacy_old.dfy` holds the older `simple` and `classic` themes.
  - `theme_academic.dfy` holds `chi` and `swiss`.
- **Helpers.**
  - `cli.dfy`: parsing `key=value` settings over defaults.
  - `text.dfy`: converting snake case to upper camel case.
  - `numeric.dfy`: the inverse factorial and the number of objects a permutation
    needs.
  - `strings.dfy` and `dicts.dfy`: the string and insertion-ordered dictionary
    operations the rest uses.

Python dictionaries keep insertion order, and that order decides the order of the
emitted DOT lines. So a dictionary is modelled as `Dicts.Dict`: a key sequence plus
a map. Assigning an existing key keeps its position. Union (`a | b`) is `a` followed
by `b`'s new keys.

A few of the theme functions work differently than their code evidently intends;
these are listed under "## Findings". The model writes each such function twice:
once as written, with a lemma showing the discrepancy, and once as intended, with
the intended property proved. The theme records the writer runs use the functions
as written, so the modelled DOT output is the program's; the corrected
classification sits beside them (`ThemeBasicOld.IntendedOldBasicTheme`).

## Model

| member | source | states |
|---|---|---|
| Cli.StripFacts | agtool/helpers/cli.py:164 | the stripped key is a slice of the raw key with only whitespace around it; it neither starts nor ends with whitespace; it is empty exactly when the key is all whitespace |
| Cli.LeadingSpaceFacts | agtool/helpers/cli.py:164 | the leading run is whitespace and is followed by a non-whitespace character or the end |
| Cli.TrailingSpaceFacts | agtool/helpers/cli.py:164 | the trailing run is whitespace and is preceded by a non-whitespace character or the start |
| Cli.IndexOf | agtool/helpers/cli.py:161 | `None` exactly when the character is absent; otherwise a position holding it with none before it |
| Cli.SplitAtFirstEquals | agtool/helpers/cli.py:161-162 | the key holds no `=`; key, `=` and value put back together give the setting; with no `=` the value is empty |
| Cli.ParseSettings | agtool/helpers/cli.py:135-175 | the loop returns the merged settings: an error for the first empty key, otherwise the defaults overlaid with the parsed pairs |
| Cli.ParsedStopsAtFailure | agtool/helpers/cli.py:165-166 | once an empty key has raised, later settings change nothing |
| Cli.ParsedFailsIff | agtool/helpers/cli.py:164-166 | parsing fails exactly when some setting's stripped key is empty |
| Cli.ParsedLastWins | agtool/helpers/cli.py:173 | every parsed key maps to the value of the last setting that names it |
| Cli.LastValueIff | agtool/helpers/cli.py:161-173 | a key is in the result exactly when some setting names it |
| Cli.MergedLookup | agtool/helpers/cli.py:175 | when parsing succeeds, a key's last parsed value overrides the default; other defaults survive; missing defaults act as `{}` |
| Text.ToUpperCamelCase | agtool/helpers/text.py:24-27 | a string of at most one character is upper-cased; a non-empty result starts with the input's first character upper-cased |
| Text.UnderscoreToUpperCounts | agtool/helpers/text.py:27 | each replacement shortens the string by one character and removes one underscore |
| Text.UnderscoreToUpperNoJoint | agtool/helpers/text.py:27 | a string with no `_` directly followed by a lower-case letter is left unchanged |
| Text.UnderscoreToUpperLeavesNoJoint | agtool/helpers/text.py:27 | the result has no `_` directly followed by a lower-case letter |
| Text.ToUpperCamelCaseIdempotent | agtool/helpers/text.py:17-27 | converting twice gives the same as converting once |
| Text.ToUpperCamelCaseLength | agtool/helpers/text.py:27 | the result is shorter than the input by the number of replacements, and has that many fewer underscores |
| Numeric.Factorial | agtool/helpers/numeric.py:32 | `n!` is at least 1 |
| Numeric.FactorialMonotone | agtool/helpers/numeric.py:11-16 | `i <= j` implies `i! <= j!` |
| Numeric.InverseFactorial | agtool/helpers/numeric.py:11-16 | the loop returns the least `i >= 1` with `i! >= value`, and 1 for values up to 1 |
| Numeric.InverseFactorialUnique | agtool/helpers/numeric.py:4-16 | at most one index satisfies the inverse-factorial condition |
| Numeric.InverseFactorialAbove | agtool/helpers/numeric.py:11-16 | every factorial from the least solution on reaches the value |
| Numeric.FloorDiv | agtool/helpers/numeric.py:32 | floor division: `d * q <= a < d * q + d` for positive `d`, and the mirror image for negative `d` |
| Numeric.RequiredPermutationObjects | agtool/helpers/numeric.py:32-38 | the factorial error for `n < 0` and the division error for a zero minimum; failure exactly when `n < 1` or `n! / m` is below 1; otherwise `max(n - k, 1)` for `k` the inverse factorial, between 1 and `max(n - 1, 1)` |
| Numeric.RequiredObjectsExist | agtool/helpers/numeric.py:32-36 | for `n >= 1` and `1 <= m <= n!` the quotient `n! / m` is at least 1, so the guard passes |
| Strings.ContainsIff | agtool/struct/vertex.py:94 | `Contains` holds exactly when the needle occurs at some position |
| Strings.LowerFacts | plugins/writers/graphviz/themes/basic.py:100 | a lowercased string has no ASCII capital; a string without one is left unchanged; lowercasing twice is lowercasing once |
| Strings.UpperOfLower | agtool/helpers/text.py:25-27 | upper-casing a lowercased string gives the same as upper-casing the string itself |
| Strings.LowerNeverContainsUpper | plugins/writers/graphviz/themes/academic.py:51 | a lowercased string never contains a needle with an upper-case letter |
| Strings.ReplaceCharAppend | plugins/writers/graphviz/graphviz_writer.py:393-394 | replacing distributes over concatenation, so each character is handled on its own and the order is kept |
| Strings.ReplaceCharSingle | plugins/readers/txt_reader.py:366 | one character becomes the replacement when it is the replaced character and stays as it is otherwise |
| Strings.ReplaceCharByEmpty | plugins/readers/txt_reader.py:366 | consequences for deletion: the result is shorter by the number of occurrences and holds none of them (the contents are pinned by ReplaceCharAppend and ReplaceCharSingle) |
| Strings.JoinAppend | plugins/writers/graphviz/graphviz_writer.py:399 | joining two non-empty lists one after the other is joining each and putting one separator between them |
| Strings.JoinLength | plugins/writers/graphviz/graphviz_writer.py:399 | the joined text is as long as all the parts plus one separator between each two |
| Strings.JoinCountChar | agtool/struct/vertex.py:62 | a character found in no part occurs in the joined text once per separator occurrence between parts |
| Strings.CountCharAppend | agtool/struct/vertex.py:62-68 | occurrences of a character add up over a concatenation |
| Strings.NatToString | plugins/readers/txt_reader.py:476 | `str(n)` is a non-empty digit string whose decimal value is `n`, with no leading zero unless it is `0` |
| Dicts.Set | plugins/readers/txt_reader.py:289 | assignment updates the value and keeps the dict well formed; an existing key keeps its position and a new key goes last |
| Dicts.Union | plugins/writers/graphviz/graphviz_writer.py:289 | the union holds the keys of both; the right operand's values win; the left operand's other values are kept; the left operand's keys keep their order, followed by the right operand's new keys in the right operand's order |
| Dicts.KeysAfterDistinct | plugins/writers/graphviz/graphviz_writer.py:289 | assigning distinct keys one after another keeps the existing keys in place and appends the absent ones in the order they were assigned |
| Dicts.UnseenMembers | plugins/writers/graphviz/graphviz_writer.py:289 | the keys appended by a union are exactly the right operand's keys the left operand lacks |
| Dicts.ItemsFacts | plugins/writers/graphviz/graphviz_writer.py:386 | `items()` lists every key exactly once, each paired with its own value, and nothing else |
| Dicts.Of | plugins/writers/graphviz/graphviz_writer.py:65-92 | a dict literal is well formed and holds exactly the keys of its pairs |
| Graphs.EdgeText | agtool/struct/vertex.py:180-186 | the text starts with the dependency name; it is the name alone exactly when the label is missing or empty; the label `rec` reads ` (Recovery Method)` |
| Graphs.VertexEdge.constructor | agtool/struct/vertex.py:136-178 | a new edge holds exactly the dependency, label and group ids it was given |
| Graphs.VertexEdge.WithDefaults | agtool/struct/vertex.py:136-141 | the omitted arguments default to no label and no group ids |
| Graphs.VertexEdge.ToString | agtool/struct/vertex.py:180-186 | `__str__` starts with the dependency's name, whether it is still a name or already a vertex |
| Graphs.Vertex.constructor | agtool/struct/vertex.py:25-44 | a new vertex holds its name, type, edges and attributes; the last two default to empty |
| Graphs.Vertex.IncomingOf | agtool/struct/vertex.py:53 | the keys are exactly the dependency names of the edges, and each maps to a vertex of that name |
| Graphs.Vertex.GetIncoming | agtool/struct/vertex.py:46-53 | `get_incoming` has exactly one key per distinct dependency name |
| Graphs.IncomingLastWins | agtool/struct/vertex.py:53 | when two edges share a dependency name, the later edge's vertex wins |
| Graphs.Vertex.ToString | agtool/struct/vertex.py:55-68 | `__str__` starts with `name: type `; with no attributes and no edge lines it is exactly that; with attributes it continues with `(` + the dict's `repr` + `)` |
| Graphs.VertexToStringEdges | agtool/struct/vertex.py:59-62 | with edges asked for, the text is the text without them, then a line break and the `<name> depends on <edge>` lines joined by line breaks; a vertex without edges prints the same either way |
| Graphs.VertexToStringLineCount | agtool/struct/vertex.py:55-68 | when name, type and edge texts hold no line break, the text has one line break per edge with edges asked for and none without; the attributes never add one |
| Graphs.ReprStringFacts | agtool/struct/vertex.py:67 | `repr()` of a string has the same quote at both ends, a body that reads back as the string, and no line break |
| Graphs.ReprBodyRoundTrip | agtool/struct/vertex.py:67 | reading the escapes back gives the string |
| Graphs.ReprDictOneLine | agtool/struct/vertex.py:67 | `repr()` of a dict of strings holds no line break, whatever its keys and values hold |
| Graphs.VertexListToDict | agtool/struct/graph.py:80-83 | the keys are exactly the names of the listed vertices, and each maps to a listed vertex of that name |
| Graphs.VertexListToDictLastWins | agtool/struct/graph.py:80-83 | each name maps to the last vertex in the list that carries it |
| Graphs.MappingsOf | agtool/struct/graph.py:43-49 | the mappings hold exactly the vertices with edges, each keyed by name and mapped to its edges |
| Graphs.MappingsOfKeys | agtool/struct/graph.py:43-49 | for vertices with distinct names, the mappings' keys are the names of the vertices with edges, in vertex order |
| Graphs.MappingsKeyOrder | agtool/struct/graph.py:43-49 | in a graph keyed by name, `mappings` lists its sinks in the graph's own key order, which is the order the writer emits edge lines in |
| Graphs.ValuesOfWellKeyed | agtool/struct/graph.py:45 | in a dict keyed by name, `values()` lists the vertices in key order, each under its own name, so no two share a name, and it lists every stored vertex |
| Graphs.Graph.constructor | agtool/struct/graph.py:63-66 | a graph built from a list holds that list's dictionary; a graph built from a dictionary holds it |
| Graphs.Graph.ComputeMappings | agtool/struct/graph.py:43-49 | the loop over the vertices, in insertion order, computes the graph's mappings |
| Graphs.Graph.AddVertex | agtool/struct/graph.py:72-77 | as written, adding a vertex always stores it under its name, replacing any vertex already there |
| Graphs.Graph.AddVertexChecked | agtool/struct/graph.py:72-77 | as intended, adding fails exactly when the name is already present, and the vertices are then unchanged |
| Graphs.MappingsOfNonEmpty | agtool/struct/graph.py:43-49 | the mappings are non-empty exactly when some listed vertex has an incoming edge |
| Graphs.HasEdgesIff | agtool/struct/graph.py:25-30 | a graph has edges exactly when some vertex has one |
| Graphs.MappingsWellKeyed | agtool/struct/graph.py:32-49 | in a graph keyed by name, the mappings hold exactly the vertices with incoming edges, each mapped to its own edge list |
| Graphs.MappingsWellKeyedAt | agtool/struct/graph.py:43-49 | the same, stated for one key |
| TxtModel.ReadError.Description | plugins/readers/txt_reader.py:471-484 | the error message ends with `<name> used before declaration.` |
| TxtModel.Initial | plugins/readers/txt_reader.py:213-270 | a read starts with empty tables and the shared macros |
| TxtModel.ResolveLabel | plugins/readers/txt_reader.py:351-374 | the `=` arrow gives exactly `rec` when the arrow has no label, and otherwise `rec,` followed by the arrow's label with every `=` removed (so the label contains no `=`); another arrow that is a macro symbol gives its substitution; `-` or an unknown arrow keeps the arrow's own label |
| TxtModel.AppendNewFacts | plugins/readers/txt_reader.py:302-303 | the known names stay first, in order, and the result holds exactly the known and the listed names |
| TxtModel.DeclareTypesFacts | plugins/readers/txt_reader.py:302-303 | every listed name gets the line's type, and other names keep theirs |
| TxtModel.AssignAllFacts | plugins/readers/txt_reader.py:277-289 | every listed vertex gets the attribute value, and other vertices and attributes are unchanged |
| TxtModel.EnsureEdgeListsFacts | plugins/readers/txt_reader.py:326-327 | every sink gets an edge list if it has none, and existing lists are kept |
| TxtModel.EnsureCountersFacts | plugins/readers/txt_reader.py:332-333 | every sink gets both counters at 0 if it has none, and existing counters are kept |
| TxtModel.ContributionFacts | plugins/readers/txt_reader.py:339-383 | one statement appends to each sink one edge per left-hand vertex, in order, with the sink's current group ids |
| TxtModel.AppendRowFacts | plugins/readers/txt_reader.py:346-383 | one left-hand vertex appends one edge to each sink and nothing to other vertices |
| TxtModel.AppendAllFacts | plugins/readers/txt_reader.py:339-383 | the whole statement appends each sink's contribution to that sink's list |
| TxtModel.BumpCountersFacts | plugins/readers/txt_reader.py:390-391 | each sink's group counter grows by its number of right-hand occurrences, and no counter is added |
| TxtModel.FirstUndeclaredFacts | plugins/readers/txt_reader.py:310-315 | no name is reported exactly when all are declared, and a reported name is an undeclared one of the list |
| TxtModel.FirstUndeclaredAt | plugins/readers/txt_reader.py:339-344 | the name reported is the earliest undeclared one |
| TxtModel.RunStopsAtFailure | plugins/readers/txt_reader.py:480-484 | after a failing line the run's result is that failure |
| TxtModel.StepValid | plugins/readers/txt_reader.py:291-422 | each line keeps the tables well formed |
| TxtModel.RunValid | plugins/readers/txt_reader.py:291-422 | a whole run keeps the tables well formed |
| TxtModel.EdgesEffectKeepsEdgesDeclared | plugins/readers/txt_reader.py:339-344 | a successful `set_edges` only adds edges whose dependency is declared |
| TxtModel.StepKeepsEdgesDeclared | plugins/readers/txt_reader.py:291-422 | every line keeps every recorded dependency declared |
| TxtModel.RunEdgesDeclared | plugins/readers/txt_reader.py:446-453 | after a run every recorded dependency is declared, so hydration finds each one |
| TxtReader.MacroTable.constructor | plugins/readers/txt_reader.py:159 | the shared table starts with the default macros |
| TxtReader.DeclareTypesLoop | plugins/readers/txt_reader.py:302-303 | the loop leaves the types table that the state machine computes |
| TxtReader.ApplySetAttributes | plugins/readers/txt_reader.py:401-410 | the check fails on the first undeclared vertex and otherwise assigns the attribute as the state machine does |
| TxtReader.PrepareSinks | plugins/readers/txt_reader.py:310-333 | the right-hand check, the edge lists and the counters, as the state machine does them |
| TxtReader.AppendRowLoop | plugins/readers/txt_reader.py:346-383 | the inner loop appends one left-hand vertex's edges as the state machine does |
| TxtReader.AppendEdges | plugins/readers/txt_reader.py:339-383 | the outer loop fails on the first undeclared left-hand vertex, otherwise it appends every edge |
| TxtReader.BumpCountersLoop | plugins/readers/txt_reader.py:388-391 | the loop bumps the counters as the state machine does |
| TxtReader.ApplySetEdges | plugins/readers/txt_reader.py:305-391 | a `set_edges` line agrees with the state machine's step, error included |
| TxtReader.MakeEdges | plugins/readers/txt_reader.py:377-383 | fresh edge objects carry exactly the recorded names, labels and group ids |
| TxtReader.MakeVertex | plugins/readers/txt_reader.py:431-441 | a vertex is built from its tables: type, edges and attributes |
| TxtReader.BuildVertices | plugins/readers/txt_reader.py:427-441 | one fresh vertex per declared name, in declaration order, built from the tables, its edges not yet hydrated |
| TxtReader.HydrateVertex | plugins/readers/txt_reader.py:451-453 | every dependency that is still a name becomes the vertex registered under it |
| TxtReader.HydrateNext | plugins/readers/txt_reader.py:446-453 | hydrating one more vertex keeps the earlier ones hydrated and every other edge's progress |
| TxtReader.Hydrate | plugins/readers/txt_reader.py:446-453 | after the loop every dependency is the vertex of that name |
| TxtReader.BuildGraph | plugins/readers/txt_reader.py:427-468 | the graph's keys are the declared names, each vertex is built from the tables, and all are hydrated |
| TxtReader.Reader.constructor | plugins/readers/txt_reader.py:181-187 | a reader shares the given macro table |
| TxtReader.Reader.ReadGraph | plugins/readers/txt_reader.py:189-468 | no parse gives no graph (`EmptyParse`), not an error; the shared macros end as the run leaves them; the read fails exactly when the run does, with the same error; otherwise the graph is built from the run's tables and hydrated |
| TxtProperties.StepTypes | plugins/readers/txt_reader.py:297-303 | a successful line gives every name it lists its type, appending new names in order |
| TxtProperties.StepSucceedsIff | plugins/readers/txt_reader.py:296-415 | a line succeeds exactly when every name it refers to is declared |
| TxtProperties.StepFailure | plugins/readers/txt_reader.py:310-344 | a failing line reports its first undeclared name, right-hand side first, with its position |
| TxtProperties.StepAttributesTable | plugins/readers/txt_reader.py:318-322 | a successful line changes the attributes only as `set_attributes` or the description rule says |
| TxtProperties.LineAttributesLookup | plugins/readers/txt_reader.py:277-289 | after a line each attribute holds the line's value if the line writes it, and its old value otherwise |
| TxtProperties.StepCounters | plugins/readers/txt_reader.py:385-391 | a successful line bumps the statement counter exactly when it is a `set_edges`, and each sink's counter by its right-hand occurrences on that line |
| TxtProperties.EdgesEffectEdges | plugins/readers/txt_reader.py:339-383 | a `set_edges` statement appends its contribution to each sink and nothing else |
| TxtProperties.StepEdges | plugins/readers/txt_reader.py:305-391 | every line appends to each sink's list exactly its contribution |
| TxtProperties.RunTypesKeys | plugins/readers/txt_reader.py:302-303 | after a run the vertex names are the declared names, in first-declaration order, without repeats |
| TxtProperties.RunDeclaredIff | plugins/readers/txt_reader.py:302-303 | a name is a vertex exactly when some `set_types` line lists it |
| TxtProperties.RunTypeOf | plugins/readers/txt_reader.py:302-303 | each vertex has the type from the last `set_types` line that lists it |
| TxtProperties.RunSucceedsIff | plugins/readers/txt_reader.py:291-415 | a run succeeds exactly when every name is declared before it is used |
| TxtProperties.FirstUndeclaredIsFirstMissing | plugins/readers/txt_reader.py:310-344 | the first undeclared name is the first one that no earlier line declares |
| TxtProperties.RunFailure | plugins/readers/txt_reader.py:471-484 | a failed run reports the first line that uses an undeclared name, and the first such name on it |
| TxtProperties.RunAttributes | plugins/readers/txt_reader.py:277-289 | after a run each attribute holds the last value any line assigned it |
| TxtProperties.RunMacros | plugins/readers/txt_reader.py:412-415 | after a run the macro table is the start table updated by the macro lines, in order |
| TxtProperties.MacrosAfterFailure | plugins/readers/txt_reader.py:412-415 | after a failure the shared table holds the macros of the lines before the failing one |
| TxtProperties.RunCounters | plugins/readers/txt_reader.py:385-391 | the statement counter is the number of `set_edges` lines, and each sink's counter its number of right-hand occurrences |
| TxtProperties.RunEdges | plugins/readers/txt_reader.py:339-391 | each sink's edges are its contributions, statement by statement |
| GraphvizWriter.EscapeRoundTrip | plugins/writers/graphviz/graphviz_writer.py:393-394 | reading every `\"` back as `"` gives the value back; this decoder is told where the quoted part ends, as a DOT reader is not |
| GraphvizWriter.TrailingBackslashBeforeClosingQuote | plugins/writers/graphviz/graphviz_writer.py:393-397 | only `"` is escaped, so a value that ends in a backslash puts a backslash directly before the entry's closing quote |
| GraphvizWriter.EscapeNoBareQuote | plugins/writers/graphviz/graphviz_writer.py:393-394 | every `"` of an escaped value follows a backslash |
| GraphvizWriter.AttributeEntries | plugins/writers/graphviz/graphviz_writer.py:385-397 | one entry per key |
| GraphvizWriter.DictToAttributes | plugins/writers/graphviz/graphviz_writer.py:373-399 | the loop builds the entries joined by the separator of the mode |
| GraphvizWriter.AttributesTextSmall | plugins/writers/graphviz/graphviz_writer.py:383-399 | an empty dict serialises to `""`, and one entry serialises to that entry alone |
| GraphvizWriter.AttributeEntryDecodes | plugins/writers/graphviz/graphviz_writer.py:390-397 | an entry starts with `key="`, the quoted part of the escaped value's length decodes back to the value, and a `"` follows it; where that part ends is given, not found by scanning |
| GraphvizWriter.MergeLookup | plugins/writers/graphviz/graphviz_writer.py:288-289 | without a theme, the defaults; otherwise the theme's value wins and the defaults fill the rest |
| GraphvizWriter.ComputeGraphAttributes | plugins/writers/graphviz/graphviz_writer.py:280-292 | the graph statement is the merged defaults serialised in statement mode |
| GraphvizWriter.ComputeDotNodes | plugins/writers/graphviz/graphviz_writer.py:295-320 | the comment for a missing or empty graph, otherwise the lines of every vertex or the hook's error |
| GraphvizWriter.FormatNodes | plugins/writers/graphviz/graphviz_writer.py:306-320 | the loop builds the node lines in vertex order |
| GraphvizWriter.FormatNode | plugins/writers/graphviz/graphviz_writer.py:308-318 | one vertex's line with the merged attributes |
| GraphvizWriter.NodeLinesStopAtFailure | plugins/writers/graphviz/graphviz_writer.py:308-313 | the first failing hook call decides the result |
| GraphvizWriter.NodeLinesUnthemed | plugins/writers/graphviz/graphviz_writer.py:303-320 | without a theme every vertex `n` becomes `    n [shape="box"];`, in order |
| GraphvizWriter.DefaultNodeText | plugins/writers/graphviz/graphviz_writer.py:94-96 | the default node attributes serialise to `shape="box"` |
| GraphvizWriter.NodeHookFails | plugins/writers/graphviz/graphviz_writer.py:312 | a three-parameter hook fails the nodes exactly when there is a vertex |
| GraphvizWriter.NodeLinesFirstFails | plugins/writers/graphviz/graphviz_writer.py:312 | with such a hook, the first vertex already fails |
| GraphvizWriter.VertexStatistics.constructor | plugins/writers/graphviz/graphviz_writer.py:52-57 | new statistics start with both counters at 0 |
| GraphvizWriter.InitialStatistics | plugins/writers/graphviz/graphviz_writer.py:230-232 | one fresh, distinct statistics object per vertex, at 0 |
| GraphvizWriter.SinkRecords | plugins/writers/graphviz/graphviz_writer.py:345-346 | one record per edge into the sink, in edge order |
| GraphvizWriter.EmitEdge | plugins/writers/graphviz/graphviz_writer.py:347-368 | one edge's step: the theme call, the line and the counter increments |
| GraphvizWriter.FormatEdge | plugins/writers/graphviz/graphviz_writer.py:347-360 | an edge line with the merged attributes, and the theme's new state |
| GraphvizWriter.CountEdge | plugins/writers/graphviz/graphviz_writer.py:362-368 | the dependency's out-counter and the sink's in-counter each go up by one |
| GraphvizWriter.EmitSink | plugins/writers/graphviz/graphviz_writer.py:346-368 | the edges into one sink, in order |
| GraphvizWriter.ComputeDotEdges | plugins/writers/graphviz/graphviz_writer.py:323-370 | the comment for no nodes or no edges, otherwise the edge pass's lines, theme state and counters |
| GraphvizWriter.EmitSinks | plugins/writers/graphviz/graphviz_writer.py:345-370 | the loop over the sinks runs the edge pass over every record |
| GraphvizWriter.AdvanceCounts | plugins/writers/graphviz/graphviz_writer.py:362-368 | one edge moves exactly its dependency's out-counter and its sink's in-counter |
| GraphvizWriter.PassCountsAndContexts | plugins/writers/graphviz/graphviz_writer.py:345-368 | whatever the theme answers, the counters and what the theme is shown are the same |
| GraphvizWriter.CountsAfterCounts | plugins/writers/graphviz/graphviz_writer.py:362-368 | after a run of edges each counter has grown by the number of its edges in the run |
| GraphvizWriter.ContextsOfAt | plugins/writers/graphviz/graphviz_writer.py:349-355 | edge `i` is shown the counters as the edges before it left them |
| GraphvizWriter.EdgeSeesEarlierCounts | plugins/writers/graphviz/graphviz_writer.py:349-368 | the theme sees the edge, its endpoints, and for each endpoint the number of earlier edges into and out of it |
| GraphvizWriter.PassGrows | plugins/writers/graphviz/graphviz_writer.py:343-360 | every edge adds one line, and the lines already there are kept |
| GraphvizWriter.PassUnthemed | plugins/writers/graphviz/graphviz_writer.py:348-360 | without a theme every edge line is `    a -> b [];` and the state is unchanged |
| GraphvizWriter.GraphInCount | plugins/writers/graphviz/graphviz_writer.py:345-346 | over distinct sinks the records into `k` are exactly `k`'s edges, once each |
| GraphvizWriter.EdgePassCounts | plugins/writers/graphviz/graphviz_writer.py:345-368 | after the pass each vertex's in-counter has grown by its number of edges, and its out-counter by the edges that depend on it |
| GraphvizWriter.FirstInvalidFeature | plugins/writers/graphviz/graphviz_writer.py:216-225 | a reported feature really has a setting outside its allowed values |
| GraphvizWriter.FirstInvalidFeatureFacts | plugins/writers/graphviz/graphviz_writer.py:216-225 | none is reported exactly when every feature's setting is allowed or absent; otherwise the first bad one in order is reported |
| GraphvizWriter.ValidateThemeSettings | plugins/writers/graphviz/graphviz_writer.py:215-225 | no theme or no features passes; otherwise the loop fails on the first invalid feature, naming it and its value, and passes when there is none |
| ThemeBasic.PatternLookup | plugins/writers/graphviz/themes/basic.py:139-140 | a `pattern` type gets a `box3d` shape and pen width 0.8, and nothing else changes |
| ThemeBasic.UnclassifiedDefaults | plugins/writers/graphviz/themes/basic.py:93-98 | an unclassified node keeps exactly the defaults |
| ThemeBasic.KindMap | plugins/writers/graphviz/themes/basic.py:105-135 | the attributes each case ends with |
| ThemeBasic.KindFillColour | plugins/writers/graphviz/themes/basic.py:105-135 | every case sets its own fill colour |
| ThemeBasic.KindNoShape | plugins/writers/graphviz/themes/basic.py:105-135 | no case sets a shape |
| ThemeBasic.LockedDeviceLookup | plugins/writers/graphviz/themes/basic.py:123-125 | a locked device gets diagonals and a visible border |
| ThemeBasic.KindFonts | plugins/writers/graphviz/themes/basic.py:127-135 | only account managers get the white CyberGuard font |
| ThemeBasic.ClassifiedLookup | plugins/writers/graphviz/themes/basic.py:93-140 | a node's fill colour is its case's, and its shape is `box3d` exactly for `pattern` types |
| ThemeBasic.IntendedClassifiedLookup | plugins/writers/graphviz/themes/basic.py:105-135 | the same holds with the corrected order |
| ThemeBasic.PasswordManagerUnreachable | plugins/writers/graphviz/themes/basic.py:107-118 | as written, no node is ever classified as a password manager |
| ThemeBasic.AccountManagerShadowed | plugins/writers/graphviz/themes/basic.py:111-129 | as written, an `account manager` type is classified as a password or an account |
| ThemeBasic.KindNeverFour | plugins/writers/graphviz/themes/basic.py:117-118 | as written, no case yields colour 4 |
| ThemeBasic.NoNodeGetsColourFour | plugins/writers/graphviz/themes/basic.py:90-142 | as written, no node is filled with colour 4 |
| ThemeBasic.IntendedPasswordManager | plugins/writers/graphviz/themes/basic.py:116-118 | as intended, a password manager gets colour 4 |
| ThemeBasic.IntendedKindAccountManager | plugins/writers/graphviz/themes/basic.py:127-129 | as intended, an account manager that is not a password manager is classified as an account manager |
| ThemeBasic.IntendedAccountManager | plugins/writers/graphviz/themes/basic.py:127-135 | as intended, such a node gets the CyberGuard colour |
| ThemeBasic.IntendedAgreesElsewhere | plugins/writers/graphviz/themes/basic.py:105-135 | the two orders agree on every node that mentions neither manager |
| ThemeBasic.StyleArrowAndDashes | plugins/writers/graphviz/themes/basic.py:169-178 | lone edges get an empty arrowhead and conjunctions a normal one; only recovery edges are dashed |
| ThemeBasic.StyleColour | plugins/writers/graphviz/themes/basic.py:177-181 | hidden edges are white, other lone edges black, and visible conjunctions have no colour yet |
| ThemeBasic.Counters.Put | plugins/writers/graphviz/themes/basic.py:212-213 | writing one category's counter leaves every other counter alone |
| ThemeBasic.Slot | plugins/writers/graphviz/themes/basic.py:212 | a counter selects an index inside the palette |
| ThemeBasic.ColourAdded | plugins/writers/graphviz/themes/basic.py:199-220 | without its own colour, an edge gets exactly the colour the allocator picks |
| ThemeBasic.ColourKept | plugins/writers/graphviz/themes/basic.py:199 | a colour already present is kept and the state does not change |
| ThemeBasic.OtherAttributesKept | plugins/writers/graphviz/themes/basic.py:195-222 | every attribute other than the colour passes through |
| ThemeBasic.MemoHit | plugins/writers/graphviz/themes/basic.py:200-201 | a memoised id gets its memoised colour and the state does not change |
| ThemeBasic.FreshDraw | plugins/writers/graphviz/themes/basic.py:203-220 | a fresh draw takes entry `c mod 18`, sets the counter to `c mod 18 + 1`, leaves other counters alone and memoises when asked |
| ThemeBasic.NextCounter | plugins/writers/graphviz/themes/basic.py:212-213 | one call advances only its own category's counter, and only on a fresh draw |
| ThemeBasic.CounterTracksFresh | plugins/writers/graphviz/themes/basic.py:212-213 | each counter advances by one, modulo 18, per fresh draw in its category |
| ThemeBasic.FreshColourAfter | plugins/writers/graphviz/themes/basic.py:209-220 | after any calls, a fresh colour is the palette entry at the start counter plus the earlier fresh draws |
| ThemeBasic.InitialFreshColour | plugins/writers/graphviz/themes/basic.py:212-220 | from the theme's initial state the `k`-th fresh colour of every category is `Scheme[k mod 18]` |
| ThemeBasic.MemoStable | plugins/writers/graphviz/themes/basic.py:215-217 | a memoised colour is never changed or forgotten |
| ThemeBasic.MemoRecordsResult | plugins/writers/graphviz/themes/basic.py:215-217 | after a memoising call the memo holds the colour it added |
| ThemeBasic.SameIdSameColour | plugins/writers/graphviz/themes/basic.py:200-217 | memoising calls for the same id add the same colour |
| ThemeBasic.ColourInScheme | plugins/writers/graphviz/themes/basic.py:200-220 | every colour drawn or remembered is from the palette, and none is added exactly when the edge has its own |
| ThemeBasic.MemoInSchemeAfter | plugins/writers/graphviz/themes/basic.py:215-217 | from the initial state the memo only ever holds palette colours |
| ThemeBasic.ColoursFromPalette | plugins/writers/graphviz/themes/basic.py:212-220 | from the initial state every added colour is one of the palette's |
| ThemeBasic.ColouredCallsKeepCounter | plugins/writers/graphviz/themes/basic.py:199 | calls that bring their own colour never move a counter |
| ThemeBasic.BasicLoneOrHidden | plugins/writers/graphviz/themes/basic.py:177-187 | lone and hidden edges keep black or white, and the state does not change |
| ThemeBasic.BasicConjunction | plugins/writers/graphviz/themes/basic.py:184-185 | a visible conjunction gets the allocator's colour for its unique group id |
| ThemeBasic.BasicLoneCountersStay | plugins/writers/graphviz/themes/basic.py:177-213 | over any run of edges the lone-edge counters never move |
| ThemeBasic.LabelStyleLookup | plugins/writers/graphviz/themes/basic.py:260-264 | `comp` labels dash the edge, `gen` labels dot it, and nothing else changes |
| ThemeBasic.MinimalIsColourById | plugins/writers/graphviz/themes/basic.py:249-267 | the minimal theme is the allocator on the label-styled attributes, keyed by the per-vertex group id |
| ThemeBasic.Basic.constructor | plugins/writers/graphviz/themes/basic.py:65-88 | the counters start at 0 and the memo starts empty |
| ThemeBasic.Basic.ComputeEdgeColourById | plugins/writers/graphviz/themes/basic.py:189-222 | the method updates the counters and the memo, and returns the attributes, as the allocator does |
| ThemeBasic.Basic.ComputeEdgeAttributes | plugins/writers/graphviz/themes/basic.py:144-187 | the method styles the edge and then colours it, unless colouring is skipped |
| ThemeBasic.Minimal.constructor | plugins/writers/graphviz/themes/basic.py:235-238 | the base theme is fresh and set to skip colouring |
| ThemeBasic.Minimal.ComputeEdgeAttributes | plugins/writers/graphviz/themes/basic.py:240-267 | the method styles the edge, applies the label rule, and colours it by group id |
| ThemeBasicOld.OldSchemeShifted | plugins/writers/graphviz/themes/basic_graphviz_themes.py:8-28 | the older palette is black followed by the newer one |
| ThemeBasicOld.OldSlot | plugins/writers/graphviz/themes/basic_graphviz_themes.py:153 | `counter mod 18 + 1` never selects black |
| ThemeBasicOld.OldNextAgrees | plugins/writers/graphviz/themes/basic_graphviz_themes.py:139-160 | the older allocator takes the same steps as the newer one with memoisation on |
| ThemeBasicOld.OldAgreesWithBasic | plugins/writers/graphviz/themes/basic_graphviz_themes.py:117-162 | the older theme colours every edge as the newer one does when it does not skip colouring |
| ThemeBasicOld.OldNeverDrawsBlack | plugins/writers/graphviz/themes/basic_graphviz_themes.py:150-160 | black is never drawn for a conjunction |
| ThemeBasicOld.OldBasic.constructor | plugins/writers/graphviz/themes/basic_graphviz_themes.py:46-60 | the counters start at 0 and the memo starts empty |
| ThemeBasicOld.OldPasswordManagerIsPassword | plugins/writers/graphviz/themes/basic_graphviz_themes.py:76-89 | as written, the older node hook fills a `password manager` with the password colour 1 |
| ThemeBasicOld.OldAccountManagerIsAccount | plugins/writers/graphviz/themes/basic_graphviz_themes.py:76-100 | as written, the older node hook fills an `account manager` that mentions no password with the account colour 2 |
| ThemeBasicOld.IntendedOldPasswordManager | plugins/writers/graphviz/themes/basic_graphviz_themes.py:88-89 | with the manager cases first, password managers are filled with 4 |
| ThemeBasicOld.IntendedOldAccountManager | plugins/writers/graphviz/themes/basic_graphviz_themes.py:99-106 | with the manager cases first, account managers that are not password managers get the CyberGuard colour |
| ThemeBasicOld.OldBasic.ComputeEdgeAttributes | plugins/writers/graphviz/themes/basic_graphviz_themes.py:117-162 | the method styles and colours the edge as the older allocator does |
| ThemeLegacy.ColourEntry | plugins/writers/graphviz/themes/legacy.py:29-48 | a colour entry holds exactly the one key `color` |
| ThemeLegacy.GreyEntry | plugins/writers/graphviz/themes/legacy.py:53-72 | a grayscale entry has the given colour and style, and an `empty` arrowhead only when asked |
| ThemeLegacy.GrayscaleLayout | plugins/writers/graphviz/themes/legacy.py:53-72 | grayscale entry `i` has style `solid`, `dashed` or `dotted` by `i mod 3`, colour black, gray or darkslategray by `i / 3 mod 3`, and an `empty` arrowhead from entry 9 on |
| ThemeLegacy.SchemeSizes | plugins/writers/graphviz/themes/legacy.py:29-72 | both palettes have 18 entries |
| ThemeLegacy.GroupingValidated | plugins/writers/graphviz/themes/legacy.py:91-93 | a `theme.grouping` setting is rejected exactly when it is neither `default` nor `unique` |
| ThemeLegacy.GroupIdOf | plugins/writers/graphviz/themes/legacy.py:106 | `grouping = unique` selects the graph-wide unique group id, anything else the per-sink group id |
| ThemeLegacy.WrapsIff | plugins/writers/graphviz/themes/legacy.py:108 | the truncated quotient `int(g / n)` is positive, so the warnings fire, exactly when `g >= n` |
| ThemeLegacy.SimpleEdge | plugins/writers/graphviz/themes/legacy.py:99-120 | the edge fails exactly when its group id is missing |
| ThemeLegacy.SimpleEdgeFacts | plugins/writers/graphviz/themes/legacy.py:106-120 | an edge with group id `g` takes entry `g mod size` and warns exactly when it wraps |
| ThemeLegacy.Periodic | plugins/writers/graphviz/themes/legacy.py:120 | indices a multiple of the palette size apart select the same entry |
| ThemeLegacy.SimpleEdgeRepeats | plugins/writers/graphviz/themes/legacy.py:120 | group ids one palette apart get the same attributes |
| ThemeLegacy.SimpleColour | plugins/writers/graphviz/themes/legacy.py:164 | the colour variant draws an edge in the legacy colour its group id selects |
| ThemeLegacy.LegacyNodeAttributes | plugins/writers/graphviz/themes/legacy.py:95-97 | only a vertex of type exactly `pattern` is styled, as a grey `box3d` |
| ThemeLegacy.ClassicLookup | plugins/writers/graphviz/themes/legacy.py:139-156 | classic fails exactly when simple does; it dashes recovery edges and otherwise passes simple's attributes through |
| ThemeLegacy.ClassicNonRecovery | plugins/writers/graphviz/themes/legacy.py:152-156 | a non-recovery edge is exactly simple's |
| ThemeLegacy.ClassicKeepsKeyOrder | plugins/writers/graphviz/themes/legacy.py:153-154 | a recovery edge that already has a style keeps that key in place, now `dashed` |
| ThemeLegacyOld.OldSimpleEdge | plugins/writers/graphviz/themes/legacy_graphviz_themes.py:67-82 | the edge fails exactly when its group id is missing |
| ThemeLegacyOld.OldSimpleAgrees | plugins/writers/graphviz/themes/legacy_graphviz_themes.py:67-82 | the older simple theme is the newer one without `unique` grouping |
| ThemeLegacyOld.OldSimpleFacts | plugins/writers/graphviz/themes/legacy_graphviz_themes.py:74-82 | group id `g` takes entry `g mod size` and warns exactly when it wraps |
| ThemeLegacyOld.OldClassicAgrees | plugins/writers/graphviz/themes/legacy_graphviz_themes.py:101-119 | the older classic theme is the newer one without `unique` grouping |
| ThemeLegacyOld.OldClassicLookup | plugins/writers/graphviz/themes/legacy_graphviz_themes.py:109-119 | classic dashes recovery edges and otherwise passes simple's attributes through |
| ThemeAcademic.ChiIsMinimal | plugins/writers/graphviz/themes/academic.py:8-22 | CHI is the minimal theme in everything but its name |
| ThemeAcademic.SwissMap | plugins/writers/graphviz/themes/academic.py:44-73 | the attributes each case ends with |
| ThemeAcademic.SwissLookup | plugins/writers/graphviz/themes/academic.py:44-73 | colour 9 when no case matches, and `vec` types become hatched boxes with an outline |
| ThemeAcademic.MixedCaseNeedlesMiss | plugins/writers/graphviz/themes/academic.py:51-69 | a lowercased type never contains `secretKey`, `publicKey`, `privateKey` or `secretVec` |
| ThemeAcademic.SwissNeverOneThreeFour | plugins/writers/graphviz/themes/academic.py:51-70 | as written, fill colours 1, 3 and 4 are never chosen |
| ThemeAcademic.SwissNodeColours | plugins/writers/graphviz/themes/academic.py:51-75 | as written, no Swiss node is filled with colour 1, 3 or 4 |
| ThemeAcademic.IntendedKeyColours | plugins/writers/graphviz/themes/academic.py:54-70 | as intended, secret keys get 1, other public keys 3, and private keys that are not public get 4 |
| ThemeAcademic.IntendedNodeKeyColours | plugins/writers/graphviz/themes/academic.py:51-73 | as intended, secret keys are filled with 1 and other public keys with 3 |
| ThemeAcademic.IntendedAgreesElsewhere | plugins/writers/graphviz/themes/academic.py:54-70 | the two versions agree on every type that names no key |

These predicates carry no contract of their own, so they have no row. They follow
their Python counterparts directly:

- `Graphs.VertexEdge.IsRecovery` and `Graphs.VertexEdge.IsHidden`: agtool/struct/vertex.py:85-113.
- `Graphs.Vertex.HasDependencies`: agtool/struct/vertex.py:17-23.
- `Graphs.Graph.HasVertices`: agtool/struct/graph.py:18-23.

## Left out

- The parser and its grammar (plugins/readers/txt_reader.py:23-156) are left out.
  The reader starts from the parsed lines: a sequence of expressions, each with an
  optional position. For any other expression kind it only reads the kind.
- Logging is left out. The legacy wrap-around warnings are modelled as a flag on
  the result.
- The reader's warning for an unrecognised expression reads the line's position.
  That warning is left out with the rest of logging.
- File and console I/O are left out.
- Theme selection, theme listing and the theme load order are left out
  (plugins/writers/graphviz/graphviz_writer.py:139-210). The writer takes the theme
  as a parameter.
- write_graph's banner and the assembly of the final document (graphviz_writer.py:255-277)
  are left out. So is the graph's name. The graph attributes, node lines, edge lines
  and statistics are modelled.
- The settings table is a plain map from `theme.<feature>` keys to strings.
- Numeric.RequiredPermutationObjects: `n! / minimum` is true division in Python,
  a correctly rounded float. The model divides exactly and floors. The two differ
  once the quotient passes 2^53: for `n = 31` and `minimum = 31!/19! - 1` the exact
  quotient is `19! + 1` and a little more, so the model takes inverse factorial 20
  and returns 11, while the float rounds to `19!` and Python returns 12. Python also
  raises `OverflowError` when `n!` is too large for a float to hold (`n >= 171` with
  `minimum = 1`); the model does not, and returns a result.
- ThemeLegacy.SimpleEdge: the warning's `g / len(scheme)` is a float in Python. The
  model uses the truncated quotient, because only whether it is positive matters.
- Strings.Lower and Strings.Upper: case mapping covers ASCII letters only. Unicode
  case mapping is not modelled. (`strip()`, in `Cli`, uses Python's full set of
  Unicode whitespace characters.)
- Graphs.ReprString: it escapes only the backslash, the quote, `\n`, `\r` and `\t`.
  Python's `repr` also writes other non-printable characters as `\xNN`, `\uNNNN` or
  `\UNNNNNNNN`. Which characters count as printable comes from Unicode's tables,
  which are not modelled.
- Graphs.Vertex.ToString: attribute values are strings. The source allows any
  value, whose `repr` is not modelled.
- GraphvizWriter.ComputeDotEdges: the writer is modelled for hydrated graphs whose
  vertices are stored under their own names, which is what the reader builds. For
  other graphs the source raises an `AttributeError` on a dependency that is still
  a name, or a `KeyError` in the statistics lookup; those errors are not modelled.
- GraphvizWriter.EscapeRoundTrip and GraphvizWriter.AttributeEntryDecodes: the
  decoder is told where the quoted value ends. A DOT reader finds the end by
  scanning, and it reads `\"` as an escaped quote. So a value that ends in a
  backslash does not read back: its closing quote is taken as part of the string
  (`GraphvizWriter.TrailingBackslashBeforeClosingQuote`). The DOT language gives no
  evident way to write such a value, so no corrected escape is modelled.
- `to_lower_snake_case` (agtool/helpers/text.py:4-14) is left out. No modelled
  operation uses it.
- `string_contains_any_of` is not part of this model. It is imported by
  plugins/writers/graphviz/themes/basic.py:20 and academic.py:3. `Strings.ContainsAnyOf`
  states the behaviour assumed for it: some needle is a substring.
- The node hooks of `basic`, `minimal` and `swiss` take a third `label` parameter,
  and the writer calls hooks with two arguments (graphviz_writer.py:312). So these
  themes carry `ThreeParameterOverride`, and the writer fails with
  `NodeHookTypeError` on the first vertex. The node functions themselves are
  modelled and proved on their own. The node hook of legacy.py's `simple` and
  `classic` takes the same three parameters; it is modelled as
  `ThemeLegacy.LegacyNodeAttributes`.
- The legacy `simple` and `classic` themes, and their older versions, have no `Theme`
  record for the writer.
  A missing group id makes them fail, and the writer has no error path for a theme
  error. They are modelled as functions returning a result.
- The older palettes of legacy_graphviz_themes.py list the same entries as those of
  legacy.py, so the model reuses the newer constants for them.
- The schemes are shared dictionaries in Python. Aliasing between them is not
  modelled: every palette entry is a value.
- The basic theme's `compute_edge_color_by_id` reads only the edge's category. So
  its `Request` carries the category, not the edge.
- `minimal`, `chi` and `swiss` are modelled by composition over `basic`, not by
  inheritance.
- The metis writer, the plugin registries and the `app/` package are left out.
- The writer's statistics objects are modelled as a class. Their combined state is
  read as a snapshot map of `Counts`.

## Findings

| source | as written | input that shows it | evidently intended | confidence | as-written member | corrected member |
|---|---|---|---|---|---|---|
| plugins/writers/graphviz/themes/basic.py:117-118 | the Password Manager case comes after the Password case, whose needle `password` it contains | a vertex of type `password manager` is classified as a password and filled with colour 1 | password managers are filled with colour 4 | not executed | ThemeBasic.PasswordManagerUnreachable | ThemeBasic.IntendedPasswordManager |
| plugins/writers/graphviz/themes/basic.py:128-129 | the Account Manager case comes after the Account case, whose needle `account` it contains | a vertex of type `account manager` is classified as an account and filled with colour 2 | account managers get the CyberGuard colour and font | not executed | ThemeBasic.AccountManagerShadowed | ThemeBasic.IntendedAccountManager |
| plugins/writers/graphviz/themes/academic.py:55-69 | the needles `secretKey`, `publicKey`, `privateKey` and `secretVec` are matched against the lowercased type | a vertex of type `secretKey` is filled with colour 8, not 1 | the needles are written in lower case | not executed | ThemeAcademic.SwissNeverOneThreeFour | ThemeAcademic.IntendedKeyColours |
| plugins/writers/graphviz/themes/academic.py:57-60 | the `public` case comes before the `publicKey` case it shadows | a vertex of type `publicKey` is filled with colour 2 | public keys are filled with colour 3 | not executed | ThemeAcademic.SwissNodeColours | ThemeAcademic.IntendedNodeKeyColours |
| plugins/writers/graphviz/themes/basic_graphviz_themes.py:88-89 | the Password Manager case comes after the Password case, whose needle `password` it contains | a vertex of type `password manager` is filled with colour 1 | password managers are filled with colour 4 | not executed | ThemeBasicOld.OldPasswordManagerIsPassword | ThemeBasicOld.IntendedOldPasswordManager |
| plugins/writers/graphviz/themes/basic_graphviz_themes.py:99-100 | the Account Manager case comes after the Account case, whose needle `account` it contains | a vertex of type `account manager` is filled with colour 2 | account managers get the CyberGuard colour and font | not executed | ThemeBasicOld.OldAccountManagerIsAccount | ThemeBasicOld.IntendedOldAccountManager |
| agtool/struct/graph.py:74 | the duplicate check tests the vertex object against the name keys, so it never fires | adding a second vertex named `a` replaces the first | adding a name that is already present fails and changes nothing | not executed | Graphs.Graph.AddVertex | Graphs.Graph.AddVertexChecked |

The older basic theme's node hook (`ThemeBasicOld.OldBasicTheme`) takes the two
arguments the writer passes. So the writer really runs this classification, and the
model gives the hook the as-written classification, `ThemeBasic.NodeAttributes`.
`ThemeBasicOld.IntendedOldBasicTheme` is the same theme with
`ThemeBasic.IntendedNodeAttributes`.
