/**
 Static checks of src/lib.rs: role-list concatenation, membership,
 disjointness and the `AssertDisjoint` rebranding of a parallel node.
 Membership is real membership here; `ContainsAsWritten`,
 `NotContainsAsWritten` and `DisjointAsWritten` keep the encoding as
 written, which never compares an element and holds for the empty list.
 */
module StaticChecks {
  import opened Wrappers
  import opened Protocol
  import opened Introspection

  /** `ConcatRoles`: `Nil ++ b = b`, `Cons<H, T> ++ b = Cons<H, T ++ b>`. */
  function ConcatRoles<R>(a: seq<R>, b: seq<R>): (r: seq<R>)
    ensures r == a + b
  {
    if a == [] then b else [a[0]] + ConcatRoles(a[1..], b)
  }

  /**
   `Contains`, corrected: false for the empty list and true when the head or
   the tail holds the element. The impls as written are `ContainsAsWritten`.
   */
  function Contains<R(==)>(s: seq<R>, x: R): (r: bool)
    ensures r <==> x in s
  {
    if s == [] then false else s[0] == x || Contains(s[1..], x)
  }

  /** `NotContains`: `x` is not one of the elements of `s`. */
  function NotContains<R(==)>(s: seq<R>, x: R): (r: bool)
    ensures r <==> x !in s
  {
    if s == [] then true else s[0] != x && NotContains(s[1..], x)
  }

  /** `Disjoint<A, B>`: no element of `a` occurs in `b`. */
  function Disjoint<R(==)>(a: seq<R>, b: seq<R>): (r: bool)
    ensures r <==> forall x | x in a :: x !in b
  {
    if a == [] then true else NotContains(b, a[0]) && Disjoint(a[1..], b)
  }

  /** The one-directional primitive is symmetric in effect. */
  lemma DisjointSymmetric<R>(a: seq<R>, b: seq<R>)
    ensures Disjoint(a, b) == Disjoint(b, a)
  {
  }

  /** Both directions, as `AssertDisjoint` demands them. */
  predicate BranchesDisjoint<I, R(==), M>(a: Global<I, R, M>, b: Global<I, R, M>)
  {
    Disjoint(RolesOf(a), RolesOf(b)) && Disjoint(RolesOf(b), RolesOf(a))
  }

  /**
   `AssertDisjoint`: an unbranded `TPar` whose branches' role lists are
   disjoint is rebranded disjoint; a branded `TPar` is returned unchanged;
   anything else has no implementation and is rejected.
   */
  function AssertDisjoint<I, R(==), M>(g: Global<I, R, M>): (r: Option<Global<I, R, M>>)
    ensures r.Some? <==> g.TPar? && (g.disjoint || BranchesDisjoint(g.left, g.right))
    ensures r.Some? ==> r.value == g.(disjoint := true)
  {
    match g
    case TPar(io, l, a, b, v) =>
      if v then Some(g)
      else if Disjoint(RolesOf(a), RolesOf(b)) && Disjoint(RolesOf(b), RolesOf(a)) then Some(TPar(io, l, a, b, true))
      else None
    case TEnd(_, _) => None
    case TInteract(_, _, _, _, _) => None
    case TRec(_, _, _) => None
    case TChoice(_, _, _, _) => None
  }

  /** Re-asserting an asserted node is a no-op. */
  lemma AssertDisjointIdempotent<I, R, M>(g: Global<I, R, M>)
    requires AssertDisjoint(g).Some?
    ensures AssertDisjoint(AssertDisjoint(g).value) == AssertDisjoint(g)
  {
  }

  /** Two parallel branches that share an acting role on their left spines are rejected. */
  lemma SharedRoleRejected<I, R, M>(io: I, l: Label, a: Global<I, R, M>, b: Global<I, R, M>, x: R)
    requires x in RolesOf(a) && x in RolesOf(b)
    ensures AssertDisjoint(TPar(io, l, a, b, false)) == None
  {
  }

  /**
   The meaning of the disjointness brand: every parallel node branded
   disjoint has branches whose role lists are disjoint in both directions.
   */
  predicate BrandSound<I, R(==), M>(g: Global<I, R, M>)
  {
    match g
    case TEnd(_, _) => true
    case TInteract(_, _, _, _, t) => BrandSound(t)
    case TRec(_, _, s) => BrandSound(s)
    case TChoice(_, _, a, b) => BrandSound(a) && BrandSound(b)
    case TPar(_, _, a, b, v) => (v ==> BranchesDisjoint(a, b)) && BrandSound(a) && BrandSound(b)
  }

  /**
   The assertion brands soundly: rebranding a node whose branches are sound
   gives a sound node, and a node already sound stays sound.
   */
  lemma AssertDisjointSound<I, R, M>(g: Global<I, R, M>)
    requires AssertDisjoint(g).Some?
    ensures !g.disjoint && BrandSound(g.left) && BrandSound(g.right) ==> BrandSound(AssertDisjoint(g).value)
    ensures BrandSound(g) ==> BrandSound(AssertDisjoint(g).value)
  {
  }

  /**
   Composition as written keeps the brand of every parallel node, even where
   the continuation puts the same role into both branches: a node branded by
   the assertion stops being sound, and the assertion accepts it again.
   */
  lemma ComposeBreaksBrand<I, R, M>(io: I, x: R, y: R, z: R, h: M)
    requires x != y
    ensures var p := TPar(io, EmptyLabel, TInteract(io, EmptyLabel, x, h, TEnd(io, EmptyLabel)),
                                          TInteract(io, EmptyLabel, y, h, TEnd(io, EmptyLabel)), false);
            var c := Compose(AssertDisjoint(p).value, TInteract(io, EmptyLabel, z, h, TEnd(io, EmptyLabel)));
            && AssertDisjoint(p).Some? && BrandSound(AssertDisjoint(p).value)
            && !BrandSound(c) && AssertDisjoint(c) == Some(c)
  {
    var q := TInteract(io, EmptyLabel, z, h, TEnd(io, EmptyLabel));
    var p := TPar(io, EmptyLabel, TInteract(io, EmptyLabel, x, h, TEnd(io, EmptyLabel)),
                                  TInteract(io, EmptyLabel, y, h, TEnd(io, EmptyLabel)), false);
    assert RolesOf(p.left) == [x] && RolesOf(p.right) == [y];
    assert BranchesDisjoint(p.left, p.right);
    var b := AssertDisjoint(p).value;
    assert b == p.(disjoint := true);
    assert Compose(b.left, q) == TInteract(io, EmptyLabel, x, h, Compose(TEnd(io, EmptyLabel), q));
    assert Compose(b.right, q) == TInteract(io, EmptyLabel, y, h, Compose(TEnd(io, EmptyLabel), q));
    var c := Compose(b, q);
    assert c == TPar(io, EmptyLabel, TInteract(io, EmptyLabel, x, h, q), TInteract(io, EmptyLabel, y, h, q), true);
    assert RolesOf(q) == [z];
    assert RolesOf(c.left) == [x, z] && RolesOf(c.right) == [y, z];
    assert z in RolesOf(c.right);
  }

  /**
   Composition that re-checks the brand: like `Compose`, except that a branded
   parallel node keeps its brand only while its composed branches stay disjoint.
   */
  function ComposeChecked<I, R(==), M>(p: Global<I, R, M>, rhs: Global<I, R, M>): (r: Global<I, R, M>)
    ensures BrandSound(rhs) ==> BrandSound(r)
    ensures p.TEnd? ==> r == rhs
    ensures !p.TEnd? ==> r.io == p.io && r.lbl == p.lbl
  {
    match p
    case TEnd(_, _) => rhs
    case TInteract(io, l, role, h, t) => TInteract(io, l, role, h, ComposeChecked(t, rhs))
    case TRec(io, l, s) => TRec(io, l, ComposeChecked(s, rhs))
    case TChoice(io, l, a, b) => TChoice(io, l, ComposeChecked(a, rhs), ComposeChecked(b, rhs))
    case TPar(io, l, a, b, v) =>
      var ca, cb := ComposeChecked(a, rhs), ComposeChecked(b, rhs);
      TPar(io, l, ca, cb, v && BranchesDisjoint(ca, cb))
  }

  /** Wherever composition as written keeps its brands sound, the re-checking composition is the same. */
  lemma {:induction false} ComposeCheckedAgrees<I, R, M>(p: Global<I, R, M>, q: Global<I, R, M>)
    requires BrandSound(Compose(p, q))
    ensures ComposeChecked(p, q) == Compose(p, q)
  {
    match p
    case TEnd(_, _) =>
    case TInteract(_, _, _, _, t) => ComposeCheckedAgrees(t, q);
    case TRec(_, _, s) => ComposeCheckedAgrees(s, q);
    case TChoice(_, _, a, b) => ComposeCheckedAgrees(a, q); ComposeCheckedAgrees(b, q);
    case TPar(_, _, a, b, _) => ComposeCheckedAgrees(a, q); ComposeCheckedAgrees(b, q);
  }

  // ---------------------------------------------------------------------
  // The encoding as written: `NotContains<X> for Cons<H, T>` only asks
  // `T: NotContains<X>` and never compares `H` with `X`.

  function NotContainsAsWritten<R>(s: seq<R>, x: R): bool
  {
    if s == [] then true else NotContainsAsWritten(s[1..], x)
  }

  function DisjointAsWritten<R>(a: seq<R>, b: seq<R>): bool
  {
    if a == [] then true else NotContainsAsWritten(b, a[0]) && DisjointAsWritten(a[1..], b)
  }

  lemma {:induction false} NotContainsAsWrittenAcceptsAll<R>(s: seq<R>, x: R)
    ensures NotContainsAsWritten(s, x)
  {
    if s != [] {
      NotContainsAsWrittenAcceptsAll(s[1..], x);
    }
  }

  /** Disjointness as written holds of every pair of lists. */
  lemma {:induction false} DisjointAsWrittenAcceptsAll<R>(a: seq<R>, b: seq<R>)
    ensures DisjointAsWritten(a, b)
  {
    if a != [] {
      NotContainsAsWrittenAcceptsAll(b, a[0]);
      DisjointAsWrittenAcceptsAll(a[1..], b);
    }
  }

  // `Contains<X> for Nil` holds outright and `Contains<X> for Cons<H, T>`
  // only asks `T: Contains<X>`, so containment as written holds of every list.

  function ContainsAsWritten<R>(s: seq<R>, x: R): bool
  {
    if s == [] then true else ContainsAsWritten(s[1..], x)
  }

  lemma {:induction false} ContainsAsWrittenAcceptsAll<R>(s: seq<R>, x: R)
    ensures ContainsAsWritten(s, x)
  {
    if s != [] {
      ContainsAsWrittenAcceptsAll(s[1..], x);
    }
  }

  /** The empty list "contains" every element as written, and none by `Contains`. */
  lemma AsWrittenContainsInEmpty<R>(x: R)
    ensures ContainsAsWritten([], x) && !Contains([], x)
  {
  }

  /** The same role in both lists: accepted as written, rejected by `Disjoint`. */
  lemma AsWrittenAcceptsOverlap<R>(x: R)
    ensures DisjointAsWritten([x], [x]) && !Disjoint([x], [x])
  {
    DisjointAsWrittenAcceptsAll([x], [x]);
  }
}
