/**
 Role and label extraction (src/introspection.rs). Both folds follow the
 continuation of `TInteract`, the body of `TRec` and only the LEFT branch of
 `TChoice` and `TPar`, as the source does.
 */
module Introspection {
  import opened Protocol
  import opened Base

  /**
   Role presence: `me` performs some interaction anywhere in `g`, in either
   branch of every choice and parallel node. This is the full counterpart of
   the left-only `RolesOf`.
   */
  predicate Acts<I, R(==), M>(me: R, g: Global<I, R, M>)
  {
    match g
    case TEnd(_, _) => false
    case TInteract(_, _, r, _, t) => r == me || Acts(me, t)
    case TRec(_, _, s) => Acts(me, s)
    case TChoice(_, _, a, b) => Acts(me, a) || Acts(me, b)
    case TPar(_, _, a, b, _) => Acts(me, a) || Acts(me, b)
  }

  /** `RolesOf`: the acting roles in preorder, following only left branches. */
  function RolesOf<I, R(==), M>(g: Global<I, R, M>): (r: seq<R>)
    ensures forall x | x in r :: Acts(x, g)
    ensures g.TEnd? ==> r == []
  {
    match g
    case TEnd(_, _) => []
    case TInteract(_, _, role, _, t) => [role] + RolesOf(t)
    case TRec(_, _, s) => RolesOf(s)
    case TChoice(_, _, a, _) => RolesOf(a)
    case TPar(_, _, a, _, _) => RolesOf(a)
  }

  /** The `TEnd` leaf reached by following continuations, bodies and left branches. */
  function LeftEnd<I, R, M>(g: Global<I, R, M>): (e: Global<I, R, M>)
    ensures e.TEnd?
  {
    match g
    case TEnd(_, _) => g
    case TInteract(_, _, _, _, t) => LeftEnd(t)
    case TRec(_, _, s) => LeftEnd(s)
    case TChoice(_, _, a, _) => LeftEnd(a)
    case TPar(_, _, a, _, _) => LeftEnd(a)
  }

  /**
   `LabelsOf`: every node's label in preorder, following only left branches.
   The list starts with the node's own label and ends with the label of the
   leftmost `TEnd`.
   */
  function LabelsOf<I, R, M>(g: Global<I, R, M>): (r: seq<Label>)
    ensures |r| >= 1 && r[0] == g.lbl
    ensures r[|r| - 1] == LeftEnd(g).lbl
  {
    match g
    case TEnd(_, l) => [l]
    case TInteract(_, l, _, _, t) => [l] + LabelsOf(t)
    case TRec(_, l, s) => [l] + LabelsOf(s)
    case TChoice(_, l, a, _) => [l] + LabelsOf(a)
    case TPar(_, l, a, _, _) => [l] + LabelsOf(a)
  }

  /** `LabelsOf` over a branch list: `Nil` has none, `Cons<H, T>` has those of its head only. */
  function LabelsOfList<I, R, M>(bs: seq<Global<I, R, M>>): (r: seq<Label>)
    ensures bs == [] <==> r == []
    ensures bs != [] ==> r[0] == bs[0].lbl
  {
    if bs == [] then [] else LabelsOf(bs[0])
  }

  /** The label check of the uniqueness assertion: no label occurs twice in `LabelsOf(g)`. */
  predicate UniqueLabels<I, R, M>(g: Global<I, R, M>)
  {
    Unique(LabelsOf(g))
  }

  /** The roles of a composition are the roles of the left operand followed by those of the right. */
  lemma {:induction false} RolesOfCompose<I, R, M>(p: Global<I, R, M>, q: Global<I, R, M>)
    ensures RolesOf(Compose(p, q)) == RolesOf(p) + RolesOf(q)
  {
    match p
    case TEnd(_, _) =>
    case TInteract(_, _, r, _, t) =>
      RolesOfCompose(t, q);
      assert [r] + (RolesOf(t) + RolesOf(q)) == ([r] + RolesOf(t)) + RolesOf(q);
    case TRec(_, _, s) => RolesOfCompose(s, q);
    case TChoice(_, _, a, _) => RolesOfCompose(a, q);
    case TPar(_, _, a, _, _) => RolesOfCompose(a, q);
  }

  /** All labels but the last. */
  function DropLast<T>(s: seq<T>): seq<T>
    requires |s| >= 1
  {
    s[..|s| - 1]
  }

  /** Composition drops the label of the leftmost `TEnd` and appends the labels of the right operand. */
  lemma {:induction false} LabelsOfCompose<I, R, M>(p: Global<I, R, M>, q: Global<I, R, M>)
    ensures LabelsOf(Compose(p, q)) == DropLast(LabelsOf(p)) + LabelsOf(q)
  {
    match p
    case TEnd(_, _) =>
    case TInteract(_, l, _, _, t) => LabelsOfCompose(t, q); ConsStep(l, LabelsOf(t), LabelsOf(q));
    case TRec(_, l, s) => LabelsOfCompose(s, q); ConsStep(l, LabelsOf(s), LabelsOf(q));
    case TChoice(_, l, a, _) => LabelsOfCompose(a, q); ConsStep(l, LabelsOf(a), LabelsOf(q));
    case TPar(_, l, a, _, _) => LabelsOfCompose(a, q); ConsStep(l, LabelsOf(a), LabelsOf(q));
  }

  lemma ConsStep<T>(x: T, s: seq<T>, u: seq<T>)
    requires |s| >= 1
    ensures [x] + (DropLast(s) + u) == DropLast([x] + s) + u
  {
    assert DropLast([x] + s) == [x] + DropLast(s);
  }

  /** The n-ary builders contribute one `EmptyLabel` and then the labels of their first branch. */
  lemma LabelsOfBuilders<I, R, M>(io: I, bs: seq<Global<I, R, M>>)
    ensures LabelsOf(ToTChoice(io, bs)) == [EmptyLabel] + LabelsOfList(bs)
    ensures LabelsOf(ToTPar(io, bs)) == [EmptyLabel] + LabelsOfList(bs)
  {
  }
}
