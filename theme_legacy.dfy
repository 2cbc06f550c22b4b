/**
  The legacy `simple` and `classic` themes and their colour variants. An edge
  takes the palette entry its group id selects, wrapping around (with a
  warning) once the ids outrun the palette; `classic` then dashes recovery
  edges. Only `pattern` nodes are styled.
 */
module ThemeLegacy {
  import opened Wrappers
  import opened Dicts
  import opened GraphvizWriter

  function ColourEntry(colour: string): (r: Attrs)
    ensures r.keys == ["color"] && r.m == map["color" := colour]
  {
    Empty().Set("color", colour)
  }

  function GreyEntry(colour: string, style: string, emptyArrow: bool): (r: Attrs)
    ensures Lookup(r, "color") == Some(colour) && Lookup(r, "style") == Some(style)
    ensures Lookup(r, "arrowhead") == if emptyArrow then Some("empty") else None
  {
    var a := Empty().Set("color", colour).Set("style", style);
    if emptyArrow then a.Set("arrowhead", "empty") else a
  }

  const LegacyColours: seq<string> := [
    "black", "blue", "red", "green", "forestgreen", "cyan", "deeppink", "yellow", "darkorange",
    "darksalmon", "aquamarine", "bisque", "gold", "darkslategrey", "brown", "turquoise", "purple", "grey"]

  /** `LEGACY_EDGE_COLOR_SCHEME`: one `{"color": c}` entry per legacy colour. */
  const ColourScheme: seq<Attrs> := seq(|LegacyColours|, i requires 0 <= i < |LegacyColours| => ColourEntry(LegacyColours[i]))

  const Greys: seq<string> := ["black", "gray", "darkslategray"]
  const Styles: seq<string> := ["solid", "dashed", "dotted"]

  /** The (colour, style, empty arrowhead) of each entry of `LEGACY_EDGE_GRAYSCALE_SCHEME`. */
  const GreyLayout: seq<(string, string, bool)> := [
    ("black", "solid", false), ("black", "dashed", false), ("black", "dotted", false),
    ("gray", "solid", false), ("gray", "dashed", false), ("gray", "dotted", false),
    ("darkslategray", "solid", false), ("darkslategray", "dashed", false), ("darkslategray", "dotted", false),
    ("black", "solid", true), ("black", "dashed", true), ("black", "dotted", true),
    ("gray", "solid", true), ("gray", "dashed", true), ("gray", "dotted", true),
    ("darkslategray", "solid", true), ("darkslategray", "dashed", true), ("darkslategray", "dotted", true)]

  /** `LEGACY_EDGE_GRAYSCALE_SCHEME` */
  const GrayscaleScheme: seq<Attrs> :=
    seq(|GreyLayout|, i requires 0 <= i < |GreyLayout| => GreyEntry(GreyLayout[i].0, GreyLayout[i].1, GreyLayout[i].2))

  /**
    Entry `i` has style `i mod 3` and grey `i div 3 mod 3`, and the second half
    has an empty arrowhead: the palette runs through every combination once.
   */
  lemma GrayscaleLayout(i: int)
    requires 0 <= i < |GrayscaleScheme|
    ensures Lookup(GrayscaleScheme[i], "style") == Some(Styles[i % 3])
    ensures Lookup(GrayscaleScheme[i], "color") == Some(Greys[i / 3 % 3])
    ensures Lookup(GrayscaleScheme[i], "arrowhead") == if i >= 9 then Some("empty") else None
  {
    GreyLayoutPattern(i);
  }

  lemma GreyLayoutPattern(i: int)
    requires 0 <= i < |GreyLayout|
    ensures GreyLayout[i] == (Greys[i / 3 % 3], Styles[i % 3], i >= 9)
  {
  }

  /** Both palettes have 18 entries. */
  lemma SchemeSizes()
    ensures |ColourScheme| == |GrayscaleScheme| == 18
  {
  }

  // ----- simple -----

  /** `{"grouping": {"default", "unique"}}` */
  const LegacyFeatures: Dict<string, set<string>> := Empty().Set("grouping", {"default", "unique"})

  /** `get_setting('grouping')` */
  function GroupingSetting(settings: map<string, string>): Option<string> {
    if "theme.grouping" in settings then Some(settings["theme.grouping"]) else None
  }

  /** A `theme.grouping` setting is rejected exactly when it is neither `default` nor `unique`. */
  lemma GroupingValidated(settings: map<string, string>)
    ensures FirstInvalidFeature(LegacyFeatures.keys, LegacyFeatures.m, settings).None?
            <==> "theme.grouping" !in settings || settings["theme.grouping"] in {"default", "unique"}
  {
    assert LegacyFeatures.keys == ["grouping"] && LegacyFeatures.m == map["grouping" := {"default", "unique"}];
    assert ["grouping"][1..] == [];
    assert "theme." + "grouping" == "theme.grouping";
  }

  /** The unique group id with `grouping = unique`, the per-sink group id otherwise. */
  function GroupIdOf(grouping: Option<string>, e: EdgeView): (g: Option<int>)
    ensures grouping == Some("unique") ==> g == e.uniqueGroupId
    ensures grouping != Some("unique") ==> g == e.groupId
  {
    if grouping == Some("unique") then e.uniqueGroupId else e.groupId
  }

  /** Python's `int(a / b)`: the quotient truncated toward zero. */
  function TruncatedQuotient(a: int, b: int): int
    requires b > 0
  {
    if a >= 0 then a / b else -((-a) / b)
  }

  lemma MulAtLeast(d: int, n: int)
    requires d >= 1 && n > 0
    ensures d * n >= n
  {
    assert d * n == (d - 1) * n + n;
    assert (d - 1) * n >= 0;
  }

  /** Euclidean division has only one quotient and remainder. */
  lemma DivModUnique(x: int, n: int, q: int, r: int)
    requires n > 0 && x == q * n + r && 0 <= r < n
    ensures x / n == q && x % n == r
  {
    var q', r' := x / n, x % n;
    assert q * n + r == q' * n + r';
    assert (q - q') * n == r' - r;
    if q - q' >= 1 {
      MulAtLeast(q - q', n);
    } else if q' - q >= 1 {
      MulAtLeast(q' - q, n);
    }
  }

  /** The wrap-around warning fires exactly for ids past the end of the palette. */
  lemma WrapsIff(g: int, n: int)
    requires n > 0
    ensures TruncatedQuotient(g, n) > 0 <==> g >= n
  {
    if g >= n {
      DivModUnique(g, n, (g - n) / n + 1, (g - n) % n);
    } else if g >= 0 {
      DivModUnique(g, n, 0, g);
    }
  }

  datatype LegacyError = GroupIdTypeError   // `None / len(scheme)` raises `TypeError`

  /** The attributes an edge gets, and whether the wrap-around warnings are logged. */
  datatype Coloured = Coloured(attributes: Attrs, warned: bool)

  /** `AGGraphvizThemeSimple.compute_edge_attributes` over `scheme`. */
  function SimpleEdge(scheme: seq<Attrs>, grouping: Option<string>, e: EdgeView): (r: Result<Coloured, LegacyError>)
    requires |scheme| > 0
    ensures r.Failure? <==> GroupIdOf(grouping, e).None?
  {
    match GroupIdOf(grouping, e)
    case None => Failure(GroupIdTypeError)
    case Some(g) => Success(Coloured(scheme[g % |scheme|], TruncatedQuotient(g, |scheme|) > 0))
  }

  /**
    An edge with group id `g` takes entry `g mod |scheme|`; the warnings are
    logged exactly when `g` is past the end; the warning changes nothing.
   */
  lemma SimpleEdgeFacts(scheme: seq<Attrs>, grouping: Option<string>, e: EdgeView)
    requires |scheme| > 0 && GroupIdOf(grouping, e).Some?
    ensures var g := GroupIdOf(grouping, e).value; var r := SimpleEdge(scheme, grouping, e);
      && r.Success?
      && r.value.attributes == scheme[g % |scheme|]
      && (r.value.warned <==> g >= |scheme|)
      && (0 <= g < |scheme| ==> r.value.attributes == scheme[g])
  {
    WrapsIff(GroupIdOf(grouping, e).value, |scheme|);
  }

  /** Ids `|scheme|` apart share an entry: the palette repeats. */
  lemma {:induction false} Periodic(n: int, g: int, k: nat)
    requires n > 0
    ensures (g + k * n) % n == g % n
    decreases k
  {
    if k > 0 {
      Periodic(n, g, k - 1);
      assert g + k * n == (g + (k - 1) * n) + n;
      ShiftByModulus(g + (k - 1) * n, n);
    }
  }

  lemma ShiftByModulus(a: int, n: int)
    requires n > 0
    ensures (a + n) % n == a % n
  {
    DivModUnique(a + n, n, a / n + 1, a % n);
  }

  /** Two edges whose group ids are a multiple of the palette apart get the same attributes. */
  lemma SimpleEdgeRepeats(scheme: seq<Attrs>, grouping: Option<string>, e1: EdgeView, e2: EdgeView, k: nat)
    requires |scheme| > 0 && GroupIdOf(grouping, e1).Some?
    requires GroupIdOf(grouping, e2) == Some(GroupIdOf(grouping, e1).value + k * |scheme|)
    ensures SimpleEdge(scheme, grouping, e2).value.attributes == SimpleEdge(scheme, grouping, e1).value.attributes
  {
    Periodic(|scheme|, GroupIdOf(grouping, e1).value, k);
  }

  /** With the colour palette an edge is drawn in the legacy colour its id selects. */
  lemma SimpleColour(grouping: Option<string>, e: EdgeView)
    requires GroupIdOf(grouping, e).Some?
    ensures Lookup(SimpleEdge(ColourScheme, grouping, e).value.attributes, "color")
            == Some(LegacyColours[GroupIdOf(grouping, e).value % 18])
  {
    var i := GroupIdOf(grouping, e).value % 18;
    assert ColourScheme[i] == ColourEntry(LegacyColours[i]);
  }

  /** `compute_node_attributes`: only a type of exactly `pattern` is styled. */
  function LegacyNodeAttributes(v: VertexView): (r: Option<Attrs>)
    ensures r.Some? <==> v.vertexType == "pattern"
    ensures r.Some? ==> Lookup(r.value, "shape") == Some("box3d") && Lookup(r.value, "fillcolor") == Some("gray")
                        && Lookup(r.value, "style") == Some("filled")
  {
    if v.vertexType == "pattern" then Some(Empty().Set("shape", "box3d").Set("fillcolor", "gray").Set("style", "filled"))
    else None
  }

  // ----- classic -----

  const Dashed: Attrs := Empty().Set("style", "dashed")

  /** `AGGraphvizThemeClassic.compute_edge_attributes` over `scheme`. */
  function ClassicEdge(scheme: seq<Attrs>, grouping: Option<string>, e: EdgeView): Result<Coloured, LegacyError>
    requires |scheme| > 0
  {
    match SimpleEdge(scheme, grouping, e)
    case Failure(err) => Failure(err)
    case Success(c) =>
      // `or {}` changes nothing: simple always returns a dict.
      var a := c.attributes;
      Success(Coloured(if e.IsRecovery() then a.Union(Dashed) else a, c.warned))
  }

  /**
    Classic fails exactly when simple does and warns when it does; it dashes
    recovery edges and otherwise passes simple's attributes through.
   */
  lemma ClassicLookup(scheme: seq<Attrs>, grouping: Option<string>, e: EdgeView, k: string)
    requires |scheme| > 0
    ensures ClassicEdge(scheme, grouping, e).Failure? <==> SimpleEdge(scheme, grouping, e).Failure?
    ensures SimpleEdge(scheme, grouping, e).Success? ==>
      && ClassicEdge(scheme, grouping, e).value.warned == SimpleEdge(scheme, grouping, e).value.warned
      && Lookup(ClassicEdge(scheme, grouping, e).value.attributes, k)
         == if k == "style" && e.IsRecovery() then Some("dashed")
            else Lookup(SimpleEdge(scheme, grouping, e).value.attributes, k)
  {
  }

  /** A non-recovery edge gets exactly simple's attributes. */
  lemma ClassicNonRecovery(scheme: seq<Attrs>, grouping: Option<string>, e: EdgeView)
    requires |scheme| > 0 && !e.IsRecovery()
    ensures ClassicEdge(scheme, grouping, e) == SimpleEdge(scheme, grouping, e)
  {
  }

  /** A recovery edge that already has a style keeps the key where it was, with the value dashed. */
  lemma ClassicKeepsKeyOrder(scheme: seq<Attrs>, grouping: Option<string>, e: EdgeView)
    requires |scheme| > 0 && e.IsRecovery() && SimpleEdge(scheme, grouping, e).Success?
    requires "style" in SimpleEdge(scheme, grouping, e).value.attributes.m
    ensures ClassicEdge(scheme, grouping, e).value.attributes
            == SimpleEdge(scheme, grouping, e).value.attributes.Set("style", "dashed")
  {
    assert Dashed.keys == ["style"];
    assert ["style"][1..] == [];
  }
}
