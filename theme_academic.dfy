/**
  The academic themes: `chi`, the minimal theme under another name, and
  `swiss`, the minimal theme's edges with nodes coloured from the `pastel19`
  scheme by the first of its type patterns the lowercased vertex type contains.
 */
module ThemeAcademic {
  import opened Wrappers
  import opened Dicts
  import opened Strings
  import opened GraphvizWriter
  import opened ThemeBasic

  /** `AGGraphvizThemeCHI` */
  const ChiTheme: Theme<ColourState> := MinimalTheme.(name := "chi")

  /** CHI is the minimal theme in everything but its name. */
  lemma ChiIsMinimal()
    ensures ChiTheme.name == "chi"
    ensures ChiTheme.(name := MinimalTheme.name) == MinimalTheme
  {
  }

  /** The Swiss node defaults are the basic theme's: `pastel19`, filled, no outline, colour 9. */
  const SwissDefaults: Attrs := NodeDefaults

  /** The fill colour of the first case the lowercased type `t` matches, as written; `None` if none does. */
  function SwissFill(t: string): Option<string> {
    if ContainsAnyOf(t, ["secretKey"]) then Some("1")
    else if ContainsAnyOf(t, ["public"]) then Some("2")
    else if ContainsAnyOf(t, ["publicKey"]) then Some("3")
    else if ContainsAnyOf(t, ["privateKey"]) then Some("4")
    else if ContainsAnyOf(t, ["algorithm"]) then Some("5")
    else if ContainsAnyOf(t, ["comms"]) then Some("6")
    else if ContainsAnyOf(t, ["entity"]) then Some("7")
    else if ContainsAnyOf(t, ["secret", "secretVec"]) then Some("8")
    else None
  }

  /**
    The defaults, the matched fill colour laid over them, and for a `vec` type
    a diagonal-hatched box. Union with a dict literal is written as one `Set`
    per entry, in the literal's order.
   */
  function SwissAttributes(fill: Option<string>, vec: bool): Attrs {
    var a := if fill.Some? then SwissDefaults.Set("fillcolor", fill.value) else SwissDefaults;
    if vec then a.Set("shape", "box").Set("penwidth", "1").Set("style", "filled, diagonals") else a
  }

  /** `AGGraphvizThemeSwiss.compute_node_attributes` */
  function SwissNodeAttributes(v: VertexView): Attrs {
    var t := Lower(v.vertexType);
    SwissAttributes(SwissFill(t), ContainsAnyOf(t, ["vec"]))
  }

  /** The entries of the Swiss attributes, per case. */
  lemma SwissMap(fill: Option<string>, vec: bool)
    ensures var base := if fill.Some? then SwissDefaults.m["fillcolor" := fill.value] else SwissDefaults.m;
      SwissAttributes(fill, vec).m
      == if vec then base["shape" := "box"]["penwidth" := "1"]["style" := "filled, diagonals"] else base
  {
  }

  /** Colour 9 when no case matches; `vec` types become hatched boxes with a visible outline. */
  lemma SwissLookup(fill: Option<string>, vec: bool)
    ensures Lookup(SwissAttributes(fill, vec), "fillcolor") == Some(fill.GetOr("9"))
    ensures Lookup(SwissAttributes(fill, vec), "colorscheme") == Some("pastel19")
    ensures Lookup(SwissAttributes(fill, vec), "shape") == if vec then Some("box") else None
    ensures Lookup(SwissAttributes(fill, vec), "penwidth") == Some(if vec then "1" else "0")
    ensures Lookup(SwissAttributes(fill, vec), "style") == Some(if vec then "filled, diagonals" else "filled")
  {
    SwissMap(fill, vec);
    NotADefault();
  }

  /** A singleton needle list is a plain substring test. */
  lemma ContainsOne(t: string, needle: string)
    ensures ContainsAnyOf(t, [needle]) <==> Contains(t, needle)
  {
    if Contains(t, needle) {
      assert Contains(t, [needle][0]);
    }
  }

  /** A two-needle list is either substring test. */
  lemma ContainsTwo(t: string, a: string, b: string)
    ensures ContainsAnyOf(t, [a, b]) <==> Contains(t, a) || Contains(t, b)
  {
    if Contains(t, a) {
      assert Contains(t, [a, b][0]);
    } else if Contains(t, b) {
      assert Contains(t, [a, b][1]);
    }
  }

  lemma HasUpper(needle: string, j: int)
    requires 0 <= j < |needle| && IsAsciiUpper(needle[j])
    ensures HasAsciiUpper(needle)
  {
  }

  /** No lowercased type contains `secretKey`, `publicKey` or `privateKey`. */
  lemma MixedCaseNeedlesMiss(s: string)
    ensures !ContainsAnyOf(Lower(s), ["secretKey"])
    ensures !ContainsAnyOf(Lower(s), ["publicKey"])
    ensures !ContainsAnyOf(Lower(s), ["privateKey"])
    ensures !Contains(Lower(s), "secretVec")
  {
    HasUpper("secretKey", 6);
    HasUpper("publicKey", 6);
    HasUpper("privateKey", 7);
    HasUpper("secretVec", 6);
    LowerNeverContainsUpper(s, "secretKey");
    LowerNeverContainsUpper(s, "publicKey");
    LowerNeverContainsUpper(s, "privateKey");
    LowerNeverContainsUpper(s, "secretVec");
    ContainsOne(Lower(s), "secretKey");
    ContainsOne(Lower(s), "publicKey");
    ContainsOne(Lower(s), "privateKey");
  }

  /** As written, fill colours 1, 3 and 4 are never chosen. */
  lemma SwissNeverOneThreeFour(s: string)
    ensures SwissFill(Lower(s)) !in {Some("1"), Some("3"), Some("4")}
  {
    MixedCaseNeedlesMiss(s);
  }

  /** So no Swiss node is filled with colour 1, 3 or 4. */
  lemma SwissNodeColours(v: VertexView)
    ensures Lookup(SwissNodeAttributes(v), "fillcolor") !in {Some("1"), Some("3"), Some("4")}
  {
    var t := Lower(v.vertexType);
    SwissNeverOneThreeFour(v.vertexType);
    SwissLookup(SwissFill(t), ContainsAnyOf(t, ["vec"]));
  }

  /**
    The cases as intended: the patterns in lower case, as the type they are
    matched against is, and `publickey` tried before the `public` it contains.
   */
  function IntendedSwissFill(t: string): Option<string> {
    if ContainsAnyOf(t, ["secretkey"]) then Some("1")
    else if ContainsAnyOf(t, ["publickey"]) then Some("3")
    else if ContainsAnyOf(t, ["public"]) then Some("2")
    else if ContainsAnyOf(t, ["privatekey"]) then Some("4")
    else if ContainsAnyOf(t, ["algorithm"]) then Some("5")
    else if ContainsAnyOf(t, ["comms"]) then Some("6")
    else if ContainsAnyOf(t, ["entity"]) then Some("7")
    else if ContainsAnyOf(t, ["secret", "secretvec"]) then Some("8")
    else None
  }

  function IntendedSwissNodeAttributes(v: VertexView): Attrs {
    var t := Lower(v.vertexType);
    SwissAttributes(IntendedSwissFill(t), ContainsAnyOf(t, ["vec"]))
  }

  /** Secret keys get colour 1, other public keys colour 3, and private keys that are not public colour 4. */
  lemma IntendedKeyColours(t: string)
    ensures Contains(t, "secretkey") ==> IntendedSwissFill(t) == Some("1")
    ensures !Contains(t, "secretkey") && Contains(t, "publickey") ==> IntendedSwissFill(t) == Some("3")
    ensures !Contains(t, "secretkey") && !Contains(t, "public") && Contains(t, "privatekey")
            ==> IntendedSwissFill(t) == Some("4")
  {
    ContainsOne(t, "secretkey");
    ContainsOne(t, "publickey");
    ContainsOne(t, "public");
    ContainsOne(t, "privatekey");
    if Contains(t, "publickey") {
      // A public key is also public: the as-written order stops there.
      ContainsPrefix(t, "publickey", "public");
    }
  }

  /** So, as intended, secret keys are filled with colour 1 and the other public keys with colour 3. */
  lemma IntendedNodeKeyColours(v: VertexView)
    ensures Contains(Lower(v.vertexType), "secretkey") ==> Lookup(IntendedSwissNodeAttributes(v), "fillcolor") == Some("1")
    ensures !Contains(Lower(v.vertexType), "secretkey") && Contains(Lower(v.vertexType), "publickey")
            ==> Lookup(IntendedSwissNodeAttributes(v), "fillcolor") == Some("3")
  {
    var t := Lower(v.vertexType);
    IntendedKeyColours(t);
    SwissLookup(IntendedSwissFill(t), ContainsAnyOf(t, ["vec"]));
  }

  /** The two versions agree on every type that names none of the three kinds of key. */
  lemma IntendedAgreesElsewhere(s: string)
    requires !Contains(Lower(s), "secretkey") && !Contains(Lower(s), "publickey") && !Contains(Lower(s), "privatekey")
    ensures IntendedSwissFill(Lower(s)) == SwissFill(Lower(s))
  {
    var t := Lower(s);
    MixedCaseNeedlesMiss(s);
    ContainsOne(t, "secretkey");
    ContainsOne(t, "publickey");
    ContainsOne(t, "privatekey");
    // `secret` covers `secretvec`, and `secretVec` never matches.
    if Contains(t, "secretvec") {
      ContainsPrefix(t, "secretvec", "secret");
    }
    ContainsTwo(t, "secret", "secretVec");
    ContainsTwo(t, "secret", "secretvec");
  }

  /** `swiss`: the minimal theme's edges, and a node hook declared with the extra `label` parameter. */
  const SwissTheme: Theme<ColourState> := MinimalTheme.(name := "swiss", nodeHook := ThreeParameterOverride)
}
