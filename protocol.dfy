/**
 Global protocol trees (src/protocol.rs). Each Rust combinator type becomes a
 constructor; the type parameters for the IO marker, the role and the message
 become the datatype's type parameters `I`, `R` and `M`. Every node carries its
 IO marker and its label.
 */
module Protocol {
  import opened Wrappers

  /** A protocol label; `EmptyLabel` is the default label of the source. */
  datatype Label = EmptyLabel | Named(name: string)

  datatype Global<I, R, M> =
    | TEnd(io: I, lbl: Label)
    | TInteract(io: I, lbl: Label, role: R, msg: M, cont: Global<I, R, M>)
    | TRec(io: I, lbl: Label, body: Global<I, R, M>)
    | TChoice(io: I, lbl: Label, left: Global<I, R, M>, right: Global<I, R, M>)
    | TPar(io: I, lbl: Label, left: Global<I, R, M>, right: Global<I, R, M>, disjoint: bool)

  /** `IS_EMPTY`: only `TEnd` is the empty session. */
  function IsEmpty<I, R, M>(p: Global<I, R, M>): (r: bool)
    ensures r <==> p.TEnd?
  {
    match p
    case TEnd(_, _) => true
    case TInteract(_, _, _, _, _) => false
    case TRec(_, _, _) => false
    case TChoice(_, _, _, _) => false
    case TPar(_, _, _, _, _) => false
  }

  /**
   `Compose`: `rhs` replaces every `TEnd` leaf of `p`. The label of a `TEnd`
   that is replaced is lost; every other node keeps its label, its IO marker
   and (for `TPar`) its disjointness brand.
   */
  function Compose<I, R, M>(p: Global<I, R, M>, rhs: Global<I, R, M>): (r: Global<I, R, M>)
    ensures p.TEnd? ==> r == rhs
    ensures !p.TEnd? ==> r.io == p.io && r.lbl == p.lbl
    ensures IsEmpty(r) <==> IsEmpty(p) && IsEmpty(rhs)
    ensures p.TPar? ==> r.TPar? && r.disjoint == p.disjoint
  {
    match p
    case TEnd(_, _) => rhs
    case TInteract(io, l, role, h, t) => TInteract(io, l, role, h, Compose(t, rhs))
    case TRec(io, l, s) => TRec(io, l, Compose(s, rhs))
    case TChoice(io, l, a, b) => TChoice(io, l, Compose(a, rhs), Compose(b, rhs))
    case TPar(io, l, a, b, v) => TPar(io, l, Compose(a, rhs), Compose(b, rhs), v)
  }

  /** Composition is associative. */
  lemma {:induction false} ComposeAssociative<I, R, M>(p: Global<I, R, M>, q: Global<I, R, M>, s: Global<I, R, M>)
    ensures Compose(Compose(p, q), s) == Compose(p, Compose(q, s))
  {
    match p
    case TEnd(_, _) =>
    case TInteract(_, _, _, _, t) => ComposeAssociative(t, q, s);
    case TRec(_, _, b) => ComposeAssociative(b, q, s);
    case TChoice(_, _, a, b) => ComposeAssociative(a, q, s); ComposeAssociative(b, q, s);
    case TPar(_, _, a, b, _) => ComposeAssociative(a, q, s); ComposeAssociative(b, q, s);
  }

  /** Closing a protocol with a labelled `TEnd` and then composing is composing directly. */
  lemma ComposeThroughEnd<I, R, M>(p: Global<I, R, M>, io: I, l: Label, q: Global<I, R, M>)
    ensures Compose(Compose(p, TEnd(io, l)), q) == Compose(p, q)
  {
    ComposeAssociative(p, TEnd(io, l), q);
  }

  /** Well-formedness: every node of `p` is over the IO marker `io` (the `TSession<IO>` bounds). */
  predicate OverIO<I(==), R, M>(p: Global<I, R, M>, io: I)
  {
    p.io == io &&
    match p
    case TEnd(_, _) => true
    case TInteract(_, _, _, _, t) => OverIO(t, io)
    case TRec(_, _, s) => OverIO(s, io)
    case TChoice(_, _, a, b) => OverIO(a, io) && OverIO(b, io)
    case TPar(_, _, a, b, _) => OverIO(a, io) && OverIO(b, io)
  }

  /** `Compose<Rhs: TSession<IO>>: TSession<IO>`: composing two trees over one marker stays over it. */
  lemma {:induction false} ComposeOverIO<I, R, M>(p: Global<I, R, M>, q: Global<I, R, M>, io: I)
    requires OverIO(p, io) && OverIO(q, io)
    ensures OverIO(Compose(p, q), io)
  {
    match p
    case TEnd(_, _) =>
    case TInteract(_, _, _, _, t) => ComposeOverIO(t, q, io);
    case TRec(_, _, b) => ComposeOverIO(b, q, io);
    case TChoice(_, _, a, b) => ComposeOverIO(a, q, io); ComposeOverIO(b, q, io);
    case TPar(_, _, a, b, _) => ComposeOverIO(a, q, io); ComposeOverIO(b, q, io);
  }

  // ---------------------------------------------------------------------
  // n-ary builders: right folds over a list of branches that end in `TEnd`.

  /** `ToTChoice`: `Nil` is `TEnd<IO>`, `Cons<H, T>` is `TChoice<IO, EmptyLabel, H, ToTChoice(T)>`. */
  function ToTChoice<I, R, M>(io: I, bs: seq<Global<I, R, M>>): (r: Global<I, R, M>)
    ensures r.io == io && r.lbl == EmptyLabel
    ensures bs == [] <==> r.TEnd?
    ensures bs != [] ==> r.TChoice? && r.left == bs[0]
  {
    if bs == [] then TEnd(io, EmptyLabel)
    else TChoice(io, EmptyLabel, bs[0], ToTChoice(io, bs[1..]))
  }

  /** `ToTPar`: the same fold with `TPar` nodes that are not yet branded disjoint. */
  function ToTPar<I, R, M>(io: I, bs: seq<Global<I, R, M>>): (r: Global<I, R, M>)
    ensures r.io == io && r.lbl == EmptyLabel
    ensures bs == [] <==> r.TEnd?
    ensures bs != [] ==> r.TPar? && r.left == bs[0] && !r.disjoint
  {
    if bs == [] then TEnd(io, EmptyLabel)
    else TPar(io, EmptyLabel, bs[0], ToTPar(io, bs[1..]), false)
  }

  /**
   The inverse of `ToTChoice`: walks the right spine of unlabelled choices over
   `io` and returns their left branches, provided the spine ends in an
   unlabelled `TEnd` over `io`.
   */
  function FromTChoice<I(==), R, M>(io: I, g: Global<I, R, M>): Option<seq<Global<I, R, M>>>
  {
    match g
    case TEnd(io', l) => if io' == io && l == EmptyLabel then Some([]) else None
    case TChoice(io', l, a, b) =>
      if io' == io && l == EmptyLabel then
        match FromTChoice(io, b)
        case Some(bs) => Some([a] + bs)
        case None => None
      else None
    case TInteract(_, _, _, _, _) => None
    case TRec(_, _, _) => None
    case TPar(_, _, _, _, _) => None
  }

  /** The inverse of `ToTPar`: the same walk over unbranded `TPar` nodes. */
  function FromTPar<I(==), R, M>(io: I, g: Global<I, R, M>): Option<seq<Global<I, R, M>>>
  {
    match g
    case TEnd(io', l) => if io' == io && l == EmptyLabel then Some([]) else None
    case TPar(io', l, a, b, v) =>
      if io' == io && l == EmptyLabel && !v then
        match FromTPar(io, b)
        case Some(bs) => Some([a] + bs)
        case None => None
      else None
    case TInteract(_, _, _, _, _) => None
    case TRec(_, _, _) => None
    case TChoice(_, _, _, _) => None
  }

  /** `ToTChoice` builds exactly one unlabelled choice per branch, ending in `TEnd`, and nothing else does. */
  lemma {:induction false} ToTChoiceRoundTrip<I, R, M>(io: I, bs: seq<Global<I, R, M>>, g: Global<I, R, M>)
    ensures FromTChoice(io, g) == Some(bs) <==> ToTChoice(io, bs) == g
  {
    if ToTChoice(io, bs) == g {
      if bs != [] {
        ToTChoiceRoundTrip(io, bs[1..], ToTChoice(io, bs[1..]));
        assert [bs[0]] + bs[1..] == bs;
      }
    }
    if FromTChoice(io, g) == Some(bs) {
      match g
      case TEnd(_, _) =>
      case TChoice(_, _, a, b) =>
        var rest := FromTChoice(io, b).value;
        ToTChoiceRoundTrip(io, rest, b);
        assert bs[1..] == rest;
    }
  }

  /** `ToTPar` builds exactly one unbranded parallel node per branch, ending in `TEnd`, and nothing else does. */
  lemma {:induction false} ToTParRoundTrip<I, R, M>(io: I, bs: seq<Global<I, R, M>>, g: Global<I, R, M>)
    ensures FromTPar(io, g) == Some(bs) <==> ToTPar(io, bs) == g
  {
    if ToTPar(io, bs) == g {
      if bs != [] {
        ToTParRoundTrip(io, bs[1..], ToTPar(io, bs[1..]));
        assert [bs[0]] + bs[1..] == bs;
      }
    }
    if FromTPar(io, g) == Some(bs) {
      match g
      case TEnd(_, _) =>
      case TPar(_, _, a, b, _) =>
        var rest := FromTPar(io, b).value;
        ToTParRoundTrip(io, rest, b);
        assert bs[1..] == rest;
    }
  }

  /** A fold of branches that are all over `io` is over `io`. */
  lemma {:induction false} ToTChoiceOverIO<I, R, M>(io: I, bs: seq<Global<I, R, M>>)
    requires forall k | 0 <= k < |bs| :: OverIO(bs[k], io)
    ensures OverIO(ToTChoice(io, bs), io)
  {
    if bs != [] {
      ToTChoiceOverIO(io, bs[1..]);
    }
  }

  lemma {:induction false} ToTParOverIO<I, R, M>(io: I, bs: seq<Global<I, R, M>>)
    requires forall k | 0 <= k < |bs| :: OverIO(bs[k], io)
    ensures OverIO(ToTPar(io, bs), io)
  {
    if bs != [] {
      ToTParOverIO(io, bs[1..]);
    }
  }
}
