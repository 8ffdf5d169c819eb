/** The change notifications a scene node receives, and the fit node's
    decision table for them (FitToCylinderObject3D.OnInvalidate). */
module Invalidation {

  /** The InvalidateType flags the fit node tests; every other flag of the
      scene framework is `Other`. */
  datatype InvalidateType = Children | Matrix | Mesh | Properties | Other

  /** InvalidateArgs: which node raised the change, and its kinds. */
  datatype InvalidateArgs = InvalidateArgs(source: object?, flags: set<InvalidateType>)

  /** What OnInvalidate does before its final call to the base handler. */
  datatype Response =
    | Rebuild                 // await Rebuild()
    | ResetCacheAndForward    // reset the cached node-matrix key, call the base handler
    | Forward                 // nothing beyond the final base-handler call

  /** Does the change touch the geometry below this node? */
  predicate Structural(flags: set<InvalidateType>)
  {
    Children in flags || Matrix in flags || Mesh in flags
  }

  /** The if / else-if chain of OnInvalidate. `fromSelf` is
      `invalidateType.Source == this`; `locked` is `RebuildLocked`. */
  function Dispatch(flags: set<InvalidateType>, fromSelf: bool, locked: bool): (r: Response)
    // the notification Rebuild itself sends (Matrix, from this node) cannot
    // start another rebuild of this node
    ensures fromSelf && Properties !in flags ==> r != Rebuild
    // while a rebuild is running, outside changes never start another one
    ensures locked && !fromSelf ==> r != Rebuild
    // a change carrying none of the four watched flags is only forwarded
    ensures flags <= {Other} ==> r == Forward
    // an outside geometry change while unlocked always rebuilds, and so does
    // a property change of this node
    ensures (Structural(flags) && !fromSelf && !locked) || (Properties in flags && fromSelf) ==> r == Rebuild
    // the cases above are the only ones that rebuild
    ensures r == Rebuild ==> (Structural(flags) && !fromSelf && !locked) || (Properties in flags && fromSelf)
    // the cache key is reset exactly when one of the four watched flags is
    // present and no rebuild happens
    ensures r == ResetCacheAndForward <==> r != Rebuild && (Structural(flags) || Properties in flags)
  {
    if Structural(flags) && !fromSelf && !locked then
      Rebuild
    else if Properties in flags && fromSelf then
      Rebuild
    else if Properties in flags || Matrix in flags || Mesh in flags || Children in flags then
      ResetCacheAndForward
    else
      Forward
  }
}
