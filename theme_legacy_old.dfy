/**
  The older legacy `simple` and `classic` themes. Their palettes list the same
  entries as the newer ones, they always colour by the per-sink group id, they
  declare no features, and they keep the writer's default node hook.
 */
module ThemeLegacyOld {
  import opened Wrappers
  import opened GraphvizWriter
  import opened ThemeLegacy

  /** `AGGraphvizThemeSimple.compute_edge_attributes` of the older file over `scheme`. */
  function OldSimpleEdge(scheme: seq<Attrs>, e: EdgeView): (r: Result<Coloured, LegacyError>)
    requires |scheme| > 0
    ensures r.Failure? <==> e.groupId.None?
  {
    match e.groupId
    case None => Failure(GroupIdTypeError)
    case Some(g) => Success(Coloured(scheme[g % |scheme|], TruncatedQuotient(g, |scheme|) > 0))
  }

  /** The older simple theme behaves as the newer one does without `grouping = unique`. */
  lemma OldSimpleAgrees(scheme: seq<Attrs>, grouping: Option<string>, e: EdgeView)
    requires |scheme| > 0 && grouping != Some("unique")
    ensures OldSimpleEdge(scheme, e) == SimpleEdge(scheme, grouping, e)
  {
  }

  /**
    An edge with group id `g` takes entry `g mod |scheme|`, and the warnings
    are logged exactly when `g` is past the end of the palette.
   */
  lemma OldSimpleFacts(scheme: seq<Attrs>, e: EdgeView)
    requires |scheme| > 0 && e.groupId.Some?
    ensures OldSimpleEdge(scheme, e).Success?
    ensures OldSimpleEdge(scheme, e).value.attributes == scheme[e.groupId.value % |scheme|]
    ensures OldSimpleEdge(scheme, e).value.warned <==> e.groupId.value >= |scheme|
  {
    OldSimpleAgrees(scheme, None, e);
    SimpleEdgeFacts(scheme, None, e);
  }

  /** `AGGraphvizThemeClassic.compute_edge_attributes` of the older file over `scheme`. */
  function OldClassicEdge(scheme: seq<Attrs>, e: EdgeView): Result<Coloured, LegacyError>
    requires |scheme| > 0
  {
    match OldSimpleEdge(scheme, e)
    case Failure(err) => Failure(err)
    case Success(c) =>
      // `or {}` changes nothing: simple always returns a dict.
      var a := c.attributes;
      Success(Coloured(if e.IsRecovery() then a.Union(Dashed) else a, c.warned))
  }

  /** The older classic theme behaves as the newer one does without `grouping = unique`. */
  lemma OldClassicAgrees(scheme: seq<Attrs>, grouping: Option<string>, e: EdgeView)
    requires |scheme| > 0 && grouping != Some("unique")
    ensures OldClassicEdge(scheme, e) == ClassicEdge(scheme, grouping, e)
  {
    OldSimpleAgrees(scheme, grouping, e);
  }

  /** Classic dashes recovery edges and otherwise passes simple's attributes through. */
  lemma OldClassicLookup(scheme: seq<Attrs>, e: EdgeView, k: string)
    requires |scheme| > 0
    ensures OldClassicEdge(scheme, e).Failure? <==> e.groupId.None?
    ensures e.groupId.Some? ==>
      Lookup(OldClassicEdge(scheme, e).value.attributes, k)
      == if k == "style" && e.IsRecovery() then Some("dashed") else Lookup(OldSimpleEdge(scheme, e).value.attributes, k)
  {
    OldClassicAgrees(scheme, None, e);
    OldSimpleAgrees(scheme, None, e);
    ClassicLookup(scheme, None, e, k);
  }

  /** The inherited node hook returns `None`, so nodes keep the writer's defaults. */
  const OldLegacyNodeHook: NodeHook := NodeHook((v: VertexView, name: string) => None)
}
