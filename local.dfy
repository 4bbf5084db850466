/**
 Endpoint (local) protocol trees (src/protocol/local.rs). Every endpoint
 node carries its IO marker, its label and the role it belongs to.
 */
module Local {
  import opened Wrappers
  import opened Protocol

  datatype Local<I, R, M> =
    | EpSend(io: I, lbl: Label, role: R, msg: M, cont: Local<I, R, M>)
    | EpRecv(io: I, lbl: Label, role: R, msg: M, cont: Local<I, R, M>)
    | EpEnd(io: I, lbl: Label, role: R)
    | EpChoice(io: I, lbl: Label, role: R, left: Local<I, R, M>, right: Local<I, R, M>)
    | EpPar(io: I, lbl: Label, role: R, left: Local<I, R, M>, right: Local<I, R, M>)
    | EpSkip(io: I, lbl: Label, role: R)

  /**
   `IsSkip<T, IO, Me>` (`IsEpSkipVariant`): true for an `EpSkip` of role `me`,
   false for every other variant whatever its role, and undefined (no impl)
   for an `EpSkip` of another role or for a node over another IO marker.
   */
  function IsSkip<I(==), R(==), M>(e: Local<I, R, M>, io: I, me: R): (r: Option<bool>)
    ensures r.Some? <==> e.io == io && (e.EpSkip? ==> e.role == me)
    ensures r == Some(true) <==> e.EpSkip? && e.io == io && e.role == me
  {
    if e.io != io then None
    else match e
      case EpSkip(_, _, role) => if role == me then Some(true) else None
      case EpSend(_, _, _, _, _) => Some(false)
      case EpRecv(_, _, _, _, _) => Some(false)
      case EpEnd(_, _, _) => Some(false)
      case EpChoice(_, _, _, _, _) => Some(false)
      case EpPar(_, _, _, _, _) => Some(false)
  }

  /** `IsEnd<T, IO, Me>` (`IsEpEndVariant`): the same case analysis for `EpEnd`. */
  function IsEnd<I(==), R(==), M>(e: Local<I, R, M>, io: I, me: R): (r: Option<bool>)
    ensures r.Some? <==> e.io == io && (e.EpEnd? ==> e.role == me)
    ensures r == Some(true) <==> e.EpEnd? && e.io == io && e.role == me
  {
    if e.io != io then None
    else match e
      case EpEnd(_, _, role) => if role == me then Some(true) else None
      case EpSend(_, _, _, _, _) => Some(false)
      case EpRecv(_, _, _, _, _) => Some(false)
      case EpSkip(_, _, _) => Some(false)
      case EpChoice(_, _, _, _, _) => Some(false)
      case EpPar(_, _, _, _, _) => Some(false)
  }

  /** A node is never classified as both a skip and an end. */
  lemma SkipAndEndExclusive<I, R, M>(e: Local<I, R, M>, io: I, me: R)
    ensures !(IsSkip(e, io, me) == Some(true) && IsEnd(e, io, me) == Some(true))
  {
  }

  datatype SkipTypeMarker = IsEpSkipType | IsNotEpSkipType

  /**
   `GetEpSkipTypeMarker` (routed through `IsEpSkipTypeImpl`): every impl binds
   the node's role and IO marker to `Me` and `IO`, so the marker exists only
   for a node of role `me` over `io`.
   */
  function SkipMarker<I(==), R(==), M>(e: Local<I, R, M>, io: I, me: R): (r: Option<SkipTypeMarker>)
    ensures r.Some? <==> e.io == io && e.role == me
    ensures r == Some(IsEpSkipType) <==> e.EpSkip? && e.io == io && e.role == me
  {
    if e.io != io || e.role != me then None
    else if e.EpSkip? then Some(IsEpSkipType)
    else Some(IsNotEpSkipType)
  }

  /** Wherever the marker exists it agrees with `IsSkip`. */
  lemma SkipMarkerAgreesWithIsSkip<I, R, M>(e: Local<I, R, M>, io: I, me: R)
    requires SkipMarker(e, io, me).Some?
    ensures IsSkip(e, io, me) == Some(SkipMarker(e, io, me).value == IsEpSkipType)
  {
  }

  /** Every node of `e` is over `io` and belongs to `me`. */
  predicate Observes<I(==), R(==), M>(e: Local<I, R, M>, io: I, me: R)
  {
    e.io == io && e.role == me &&
    match e
    case EpSend(_, _, _, _, t) => Observes(t, io, me)
    case EpRecv(_, _, _, _, t) => Observes(t, io, me)
    case EpEnd(_, _, _) => true
    case EpChoice(_, _, _, a, b) => Observes(a, io, me) && Observes(b, io, me)
    case EpPar(_, _, _, a, b) => Observes(a, io, me) && Observes(b, io, me)
    case EpSkip(_, _, _) => true
  }
}
