/**
 Label-uniqueness check over lists (src/protocol/base.rs, duplicated in
 src/protocol.rs). A type-level list `Cons<H, T>` / `Nil` becomes a `seq`.
 */
module Base {

  /** `NotInList`: `x` differs from every element of `s`. */
  predicate NotIn<T(==)>(x: T, s: seq<T>)
  {
    if s == [] then true else x != s[0] && NotIn(x, s[1..])
  }

  /** `UniqueList`: no element of `s` occurs again further on. */
  predicate Unique<T(==)>(s: seq<T>)
  {
    if s == [] then true else NotIn(s[0], s[1..]) && Unique(s[1..])
  }

  lemma {:induction false} NotInIsNonMembership<T>(x: T, s: seq<T>)
    ensures NotIn(x, s) <==> x !in s
  {
    if s != [] {
      NotInIsNonMembership(x, s[1..]);
      assert s == [s[0]] + s[1..];
    }
  }

  /** `Unique` holds exactly when no two distinct positions hold equal elements. */
  lemma {:induction false} UniqueIsPairwiseDistinct<T>(s: seq<T>)
    ensures Unique(s) <==> forall i, j | 0 <= i < j < |s| :: s[i] != s[j]
  {
    if s != [] {
      UniqueIsPairwiseDistinct(s[1..]);
      NotInIsNonMembership(s[0], s[1..]);
      if Unique(s) {
        forall i, j | 0 <= i < j < |s| ensures s[i] != s[j] {
          if i == 0 {
            assert s[j] == s[1..][j - 1];
          } else {
            assert s[i] == s[1..][i - 1] && s[j] == s[1..][j - 1];
          }
        }
      }
      if forall i, j | 0 <= i < j < |s| :: s[i] != s[j] {
        forall i, j | 0 <= i < j < |s[1..]| ensures s[1..][i] != s[1..][j] {
          assert s[1..][i] == s[i + 1] && s[1..][j] == s[j + 1];
        }
        forall k | 0 <= k < |s[1..]| ensures s[1..][k] != s[0] {
          assert s[1..][k] == s[k + 1];
        }
      }
    }
  }

  /** Removing the element at any position of a unique list keeps it unique. */
  lemma RemovePreservesUnique<T>(s: seq<T>, k: nat)
    requires Unique(s) && k < |s|
    ensures Unique(s[..k] + s[k + 1..])
  {
    var t := s[..k] + s[k + 1..];
    UniqueIsPairwiseDistinct(s);
    forall i, j | 0 <= i < j < |t| ensures t[i] != t[j] {
      var i' := if i < k then i else i + 1;
      var j' := if j < k then j else j + 1;
      assert t[i] == s[i'] && t[j] == s[j'] && i' < j';
    }
    UniqueIsPairwiseDistinct(t);
  }

  /** Prepending an element that already occurs in the list breaks uniqueness. */
  lemma PrependDuplicateBreaksUnique<T>(x: T, s: seq<T>)
    requires x in s
    ensures !Unique([x] + s)
  {
    assert ([x] + s)[1..] == s;
    NotInIsNonMembership(x, s);
  }

  // ---------------------------------------------------------------------
  // The check as written: `NotSame<B> for A` holds whenever `A: NotTypeEq<B>`,
  // and `NotTypeEq<B>` is implemented for every pair, including `A == A`.

  /** `NotSame` as written: every pair of types passes. */
  predicate NotSameAsWritten<T>(a: T, b: T)
  {
    true
  }

  predicate NotInAsWritten<T>(x: T, s: seq<T>)
  {
    if s == [] then true else NotSameAsWritten(x, s[0]) && NotInAsWritten(x, s[1..])
  }

  predicate UniqueAsWritten<T>(s: seq<T>)
  {
    if s == [] then true else NotInAsWritten(s[0], s[1..]) && UniqueAsWritten(s[1..])
  }

  /** The uniqueness check as written accepts every list. */
  lemma {:induction false} UniqueAsWrittenAcceptsAll<T>(s: seq<T>)
    ensures UniqueAsWritten(s)
  {
    if s != [] {
      NotInAsWrittenAcceptsAll(s[0], s[1..]);
      UniqueAsWrittenAcceptsAll(s[1..]);
    }
  }

  lemma {:induction false} NotInAsWrittenAcceptsAll<T>(x: T, s: seq<T>)
    ensures NotInAsWritten(x, s)
  {
    if s != [] {
      NotInAsWrittenAcceptsAll(x, s[1..]);
    }
  }

  /** A list with a repeated element passes the check as written and fails `Unique`. */
  lemma AsWrittenAcceptsRepeat<T>(x: T, y: T)
    ensures UniqueAsWritten([x, x, y]) && !Unique([x, x, y])
  {
    UniqueAsWrittenAcceptsAll([x, x, y]);
    PrependDuplicateBreaksUnique(x, [x, y]);
    assert [x] + [x, y] == [x, x, y];
  }
}
