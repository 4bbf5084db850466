# Besedarium session types in Dafny

Besedarium is a Rust library for multiparty session types. In Rust it lives entirely at the type
level. A *global* protocol is built from five combinators:

- `TEnd`, the end of the protocol;
- `TInteract`, one role sends a message, then the protocol continues;
- `TRec`, recursion;
- `TChoice`, binary choice;
- `TPar`, binary parallel composition, branded with a disjointness flag.

Every node carries an IO marker and a label. Protocols are composed sequentially. n-ary choice and
parallel composition are right folds over a type-level list. Compile-time checks ask that labels be
unique and that parallel branches use disjoint roles. A global protocol is *projected* onto one role,
giving a *local* endpoint type. Its nodes are send, receive, end, choice, parallel and skip. Skip and
end endpoints can be classified.

This project models the types as Dafny datatype values, and the traits that compute on them as
recursive functions. A trait that only exists for some types (a constraint that fails to compile)
becomes a function returning `Option`, where `None` means "rejected at compile time". The role, message
and IO marker types are type parameters; roles are compared with `==`, which is what `RoleEq` gives the
library.

Modules:

- `Wrappers` defines `Option`.
- `Base` has type-level lists: uniqueness and non-membership.
- `Protocol` has the global combinators, composition, emptiness and the n-ary folds with their inverses.
- `Introspection` has the role and label extraction.
- `StaticChecks` has role-list concatenation, containment, disjointness and the disjointness assertion.
- `Local` has the endpoint types and the skip/end classifiers.
- `Projection` has the projection of `src/lib.rs` and the presence-refined projection of parallel
  composition that the tests expect.
- `Examples` has concrete protocols from the repository's tests, evaluated in the model.

## Model

| member | source | states |
|---|---|---|
| Protocol.IsEmpty | src/protocol.rs:77-96 | a protocol is empty exactly when it is `TEnd` |
| Protocol.Compose | src/protocol.rs:93-191 | composing after `TEnd` yields the right operand; every other node keeps its IO, label and disjointness flag; the result is empty iff both operands are |
| Protocol.ComposeAssociative | src/protocol.rs:116-191 | sequential composition is associative |
| Protocol.ComposeThroughEnd | src/protocol.rs:93-96 | composing with a `TEnd` in the middle is the same as leaving it out, whatever its label |
| Protocol.OverIO | src/protocol.rs:77-82 | the `TSession<IO>` bounds: every node of the protocol, at every depth, carries the given IO marker |
| Protocol.ComposeOverIO | src/protocol.rs:77-82 | composition of two protocols that are both over one IO marker is over that marker (the `Rhs: TSession<IO>` bound) |
| Protocol.ToTChoice | src/protocol.rs:203-211 | the fold of an empty list is `TEnd`, otherwise a `TChoice` with an empty label whose left branch is the head |
| Protocol.ToTPar | src/protocol.rs:213-221 | the same for `TPar`, and the result is branded not disjoint |
| Protocol.ToTChoiceRoundTrip | src/protocol.rs:203-211 | the fold is invertible: decoding `g` yields `bs` exactly when folding `bs` yields `g` |
| Protocol.ToTParRoundTrip | src/protocol.rs:213-221 | the same round trip for the parallel fold |
| Protocol.ToTChoiceOverIO | src/protocol.rs:203-211 | folding branches that are all over one IO marker gives a choice over that marker |
| Protocol.ToTParOverIO | src/protocol.rs:213-221 | folding branches that are all over one IO marker gives a parallel composition over that marker |
| Base.NotIn | src/protocol/base.rs:51-60 | `NotInList` with its intended comparison: the empty list holds, and a cons cell holds when its head differs from the element and its tail holds |
| Base.Unique | src/protocol/base.rs:43-49 | `UniqueList` with its intended comparison: the empty list holds, and a cons cell holds when its head is not in its tail and its tail is unique |
| Base.NotSameAsWritten | src/protocol/base.rs:62-72 | `NotSame` as written: it holds of every pair of types, equal ones included, because of the blanket `NotTypeEq` impl |
| Base.NotInAsWritten | src/protocol/base.rs:51-72 | `NotInList` as written: the empty list holds, and a cons cell holds when `NotSameAsWritten` and the tail hold |
| Base.UniqueAsWritten | src/protocol/base.rs:43-72 | `UniqueList` as written: the empty list holds, and a cons cell holds when the tail passes `NotInAsWritten` of the head and is itself unique as written |
| Base.NotInIsNonMembership | src/protocol/base.rs:51-60 | the recursive non-membership check holds iff the element is not in the list |
| Base.UniqueIsPairwiseDistinct | src/protocol/base.rs:43-49 | the recursive uniqueness check holds iff any two positions hold different elements |
| Base.RemovePreservesUnique | src/protocol/base.rs:43-49 | removing one element from a unique list leaves it unique |
| Base.PrependDuplicateBreaksUnique | src/protocol/base.rs:43-60 | putting an element already in the list in front of it breaks uniqueness |
| Base.UniqueAsWrittenAcceptsAll | src/protocol/base.rs:62-72 | with the blanket `NotTypeEq` impl, uniqueness as written holds of every list |
| Base.NotInAsWrittenAcceptsAll | src/protocol/base.rs:51-72 | with the blanket `NotTypeEq` impl, non-membership as written holds of every element and list |
| Base.AsWrittenAcceptsRepeat | src/protocol/base.rs:43-72 | `[x, x, y]` passes uniqueness as written but is not unique |
| Introspection.Acts | test_containsrole.rs:48-70 | role presence: the role initiates some interaction anywhere in the protocol, in either branch of every choice and parallel node; a receiver is not present, since a global interaction names only its acting role |
| Introspection.UniqueLabels | src/introspection.rs:53-60 | the label-uniqueness check: the label list `LabelsOf(g)` is `Unique` |
| Introspection.RolesOf | src/introspection.rs:20-51 | every role listed is a role that acts somewhere in the protocol; `TEnd` has none |
| Introspection.RolesOfCompose | src/introspection.rs:20-51 | the roles of a composition are the roles of the left operand followed by those of the right |
| Introspection.LeftEnd | src/introspection.rs:61-92 | the left-most spine of a protocol ends in a `TEnd` |
| Introspection.LabelsOf | src/introspection.rs:61-92 | the label list starts with the node's own label and ends with the label of the left-most `TEnd` |
| Introspection.LabelsOfList | src/introspection.rs:93-102 | a list of protocols has no labels iff it is empty, and otherwise starts with the head's label |
| Introspection.LabelsOfCompose | src/introspection.rs:61-92 | the labels of a composition are those of the left operand without its final `TEnd` label, followed by those of the right operand |
| Introspection.LabelsOfBuilders | src/introspection.rs:61-102 | the labels of an n-ary fold are the empty label followed by the labels of the branch list |
| StaticChecks.ConcatRoles | src/lib.rs:336-348 | concatenation of role lists is sequence concatenation |
| StaticChecks.Contains | src/lib.rs:350-353 | corrected containment: it holds iff the element is in the list, so it fails for the empty list (the impls as written hold for every list; see Findings) |
| StaticChecks.ContainsAsWrittenAcceptsAll | src/lib.rs:351-353 | the containment impls as written hold for every element and every list, the empty one included |
| StaticChecks.AsWrittenContainsInEmpty | src/lib.rs:352 | the empty list contains every element as written, and none by the corrected `Contains` |
| StaticChecks.ContainsAsWritten | src/lib.rs:351-353 | `Contains` as written: the empty list holds, and a cons cell holds whenever its tail does, without comparing the head |
| StaticChecks.NotContainsAsWritten | src/lib.rs:355-357 | `NotContains` as written: the empty list holds, and a cons cell holds whenever its tail does, without comparing the head |
| StaticChecks.DisjointAsWritten | src/lib.rs:359-366 | `Disjoint` as written: the empty first list holds, and a cons cell holds when the second list passes `NotContainsAsWritten` of the head and the tail is disjoint as written |
| StaticChecks.BranchesDisjoint | src/lib.rs:381-388 | the where-clause of the assertion: the role lists of the two branches are `Disjoint` in both directions |
| StaticChecks.BrandSound | src/protocol.rs:169-180 | the meaning of the `IsDisjoint` brand: every parallel node branded disjoint has `BranchesDisjoint` branches, at every depth |
| StaticChecks.NotContains | src/lib.rs:355-357 | non-containment holds iff the element is not in the list |
| StaticChecks.Disjoint | src/lib.rs:359-366 | two role lists are disjoint iff no element of the first is in the second |
| StaticChecks.DisjointSymmetric | src/lib.rs:359-366 | disjointness does not depend on the order of the lists |
| StaticChecks.AssertDisjoint | src/lib.rs:378-391 | the assertion accepts exactly the `TPar` nodes that are already branded disjoint or whose branches' role lists are disjoint in both directions, and rebrands them disjoint |
| StaticChecks.AssertDisjointIdempotent | src/lib.rs:389-391 | asserting disjointness of an accepted node again changes nothing |
| StaticChecks.AssertDisjointSound | src/lib.rs:381-391 | the assertion brands soundly: a node whose branches have sound brands, or that is already sound, comes out with every disjoint brand backed by disjoint branch roles |
| StaticChecks.ComposeBreaksBrand | src/protocol.rs:186-190 | composing a freshly asserted disjoint node with an interaction of any role leaves it branded while both branches now list that role, and the assertion accepts it again |
| StaticChecks.ComposeChecked | src/protocol.rs:186-190 | corrected composition: it keeps IO and label like `Compose`, and the result has sound brands whenever the continuation does |
| StaticChecks.ComposeCheckedAgrees | src/protocol.rs:93-191 | wherever composition as written leaves every brand sound, the corrected composition gives the same protocol |
| StaticChecks.SharedRoleRejected | src/lib.rs:381-388 | an unbranded parallel composition whose branches list a common role is rejected |
| StaticChecks.NotContainsAsWrittenAcceptsAll | src/lib.rs:355-357 | the non-containment impls as written hold for every element and list |
| StaticChecks.DisjointAsWrittenAcceptsAll | src/lib.rs:355-366 | disjointness as written holds for every pair of lists |
| StaticChecks.AsWrittenAcceptsOverlap | src/lib.rs:355-366 | `[x]` and `[x]` pass disjointness as written but are not disjoint |
| Local.IsSkip | src/protocol/local.rs:163-185 | the classifier is defined when the IO matches and, for a skip, the role matches; it answers true exactly for the skip of that role |
| Local.IsEnd | src/protocol/local.rs:187-209 | the same for the end classifier and `EpEnd` |
| Local.SkipAndEndExclusive | src/protocol/local.rs:163-215 | no endpoint is classified as both skip and end |
| Local.SkipMarker | src/protocol/local.rs:120-149 | the marker is defined when IO and role match, and is the skip marker exactly for `EpSkip` |
| Local.SkipMarkerAgreesWithIsSkip | src/protocol/local.rs:120-227 | where the marker is defined, it agrees with the skip classifier |
| Projection.Project | src/lib.rs:476-585 | projection is defined exactly on recursion-free protocols; it keeps the node's IO and label, is owned by the projected role, and never yields a skip |
| Projection.ProjectInteract | src/lib.rs:499-532 | an interaction becomes a send exactly when the projected role performs it, and a receive otherwise, with the same message, label and IO, continuing with the projection of the continuation |
| Projection.ProjectChoice | src/lib.rs:541-561 | a choice becomes an endpoint choice whose branches are the projections of the two branches |
| Projection.ProjectPar | src/lib.rs:563-585 | a parallel composition becomes an endpoint parallel node whose branches are the projections of the two branches, whatever the disjointness flag |
| Local.Observes | src/lib.rs:472-478 | the `EpSession<IO, Me>` bound: every node of the endpoint, at every depth, carries the given IO marker and belongs to the given role |
| Projection.ProjectObserves | src/lib.rs:476-478 | the projection of a protocol over one IO marker is an endpoint over that marker for the projected role at every node (`EpSession<IO, Me>`) |
| Projection.Observe | src/lib.rs:505-521 | each global interaction is seen by a role as its own send or as a receive of the same message |
| Projection.ObserveAppend | src/lib.rs:505-521 | observing a concatenation of steps is concatenating the observations |
| Projection.ProjectActions | src/lib.rs:476-585 | the send and receive actions of the projection are exactly the role's view of the global interactions, in order |
| Projection.ActsIffStep | tests/label_preservation_tests.rs:150-164 | a role acts in a protocol iff some global interaction is performed by it |
| Projection.NonActorOnlyReceives | src/lib.rs:505-532 | a role that performs nothing only receives in its projection |
| Projection.ProjectParBranch | tests/projection_tests.rs:228-251 | a branch the role is absent from becomes an endpoint classified as that role's skip, under the given label; a present branch of a recursion-free protocol gives an endpoint of the role, and never a skip when the role acts in it |
| Projection.ProjectParBranchPresent | tests/projection_tests.rs:232-241 | a present branch with no parallel node is projected exactly as `Project` projects it |
| Projection.ProjectPresence | tests/label_preservation_tests.rs:144-168 | the presence-refined projection is defined on recursion-free protocols and owned by the projected role; a parallel node the role is absent from becomes a skip with that node's IO and label; the result is a skip exactly at such a node; every other node keeps its IO and label |
| Projection.PresenceParRules | tests/label_preservation_tests.rs:150-157 | at a parallel node, a role in both branches runs both refined projections under `EpPar`, and a role in exactly one branch gets that branch's refined projection unwrapped |
| Projection.PresenceSends | tests/label_preservation_tests.rs:144-168 | the refined projection sends exactly the messages the role initiates anywhere in the protocol, in order |
| Projection.PresenceSendsAsProject | src/lib.rs:476-585 | the refined projection and the projection of src/lib.rs send the same messages in the same order |
| Projection.SentOfObserve | src/lib.rs:505-521 | a role's view of a list of steps sends exactly the messages of the steps it initiates |
| Projection.NonActorOwnsNothing | tests/label_preservation_tests.rs:159-164 | a role that acts nowhere initiates no step |
| Projection.PresenceAgreesWithoutPar | tests/label_preservation_tests.rs:68-142 | without parallel composition the refined projection is the projection of src/lib.rs |
| Projection.PresenceOfActorIsNotSkip | tests/label_preservation_tests.rs:150-157 | a role that acts somewhere is never classified as skip in its refined projection |
| Projection.ProjectClassifiers | tests/projection_tests.rs:200-226 | a projection is never a skip, is an end iff the protocol is `TEnd`, and carries the non-skip marker |
| Examples.ComposeLabelExamples | tests/label_tests.rs:107-314 | composition replaces a `TEnd` label and keeps interaction, recursion, choice, parallel and nested labels |
| Examples.LabelsOfExamples | tests/introspection_tests.rs:53-162 | the label lists of each combinator, and `[L1, L1, EmptyLabel]` for the nested protocol |
| Examples.RolesOfExamples | tests/introspection_tests.rs:201-235 | the role lists of one and two interactions |
| Examples.LabelRepeatAcceptedAsWritten | tests/compile.rs:321-334 | the positive label-uniqueness protocol has a repeated label, and uniqueness as written still accepts it |
| Examples.SharedClientAcceptedAsWritten | tests/compile.rs:254-261 | the parallel downloads protocol shares its client, so it is rejected, while disjointness as written accepts its role lists |
| Examples.DuplicateLabelsRejected | tests/trybuild/duplicate_labels_choice.rs:1-13 | a choice repeating label `L1` fails label uniqueness |
| Examples.DuplicateRolesRejected | tests/trybuild/duplicate_roles_par.rs:1-9 | a parallel composition with the client in both branches is rejected |
| Examples.NaryDisjointAccepted | tests/compile.rs:96-104 | the three-branch parallel composition over distinct roles is accepted and branded disjoint |
| Examples.NaryOverlapAcceptedByLeftFold | tests/compile.rs:106-115 | the overlapping three-branch composition is accepted, because only the first branch's roles are compared with the left-most roles of the rest |
| Examples.ManualFourWayDiffers | tests/compile.rs:180-203 | the hand-nested four-way choice is not the fold of the four branches |
| Examples.MixedIOChoiceNotOverHttp | tests/trybuild/mixed_io_choice.rs:1-6 | a choice with an MQTT branch is not a protocol over HTTP |
| Examples.InteractionProjections | tests/projection_tests.rs:67-170 | sender, receiver, uninvolved role and end projections with labels preserved |
| Examples.ChoiceProjection | tests/label_preservation_tests.rs:115-141 | a choice projects to an endpoint choice under the choice's label |
| Examples.ParProjections | tests/label_preservation_tests.rs:144-168 | with presence, Alice and Bob get their own branch and Charlie a skip labelled with the parallel label; src/lib.rs gives `EpPar` |
| Examples.EmptyParProjection | tests/trybuild/empty_par.rs:1-17 | the empty parallel fold projects to an end for any role |
| Examples.ClassifierExamples | tests/projection_tests.rs:200-226 | the skip and end classifiers on skip, end and send endpoints |

## Left out

- The macros `tlist!`, `tchoice!`, `tpar!`, `extract_roles!`, `assert_disjoint!` and `assert_unique_labels!` are not modelled as macros. The model uses their results: a branch list becomes a `seq` that goes to `ToTChoice`/`ToTPar`, and an assertion becomes a call to a check function.
- Rust's trait machinery is not modelled: phantom data, sealing, `Default`/`Debug` derivations, the `TSession`/`EpSession` marker traits. They carry no behaviour. The sealed constructors are public here.
- The unfolding of recursion in `TRec` is not modelled. Like `src/lib.rs`, the projection has no case for `TRec`, so `Project` is undefined on every protocol containing one.
- The projection in `src/lib.rs` (lines 476-585) builds endpoints without labels. The model's projection carries labels as `src/protocol/local.rs` and the tests do.
- Parallel projection has two forms in the model. `Project` follows `src/lib.rs`: every parallel node becomes `EpPar`. `ProjectPresence` is the refinement the tests expect. The repository obtains it only for the tested protocols, through special-case impls in `src/protocol/test_overrides.rs`; that file is not part of this model. `ProjectPresence`, its contract and `PresenceParRules` state the general rule that those impls are instances of. A role acting in both branches gets `EpPar`, a role acting in one branch gets that branch's projection, and a role acting in neither gets a skip.
- Role presence is taken to be "the role performs an interaction". Receivers are not recorded in a global interaction, so only the acting role is present.
- `RolesOf` folds only the left branch of choice and parallel nodes, as the source does. `AssertDisjoint` on an n-ary parallel composition therefore compares only the first branch with the second branch's left-most roles. The model keeps this behaviour and shows it in `Examples.NaryOverlapAcceptedByLeftFold`, but does not correct it.
- Simplification of skips and ends after projection, `src/main.rs`, `src/protocol/transforms.rs` and the test helpers are not part of this model.
- `Compose` stays as written and keeps every brand, because that is what src/protocol.rs:189 does. The introspection lemmas are stated about it. `ComposeChecked` is the corrected composition: it differs only in the brands and agrees with `Compose` wherever the brands stay sound (`ComposeCheckedAgrees`).
- The `IsDisjoint` brand of `TPar` is a `bool` in the model. The source accepts any type there, and `AssertDisjoint` has impls only for `FalseB` and `TrueB`. A node with another brand, such as the `()` of tests/label_preservation_tests.rs:148, has no assertion impl in the source, but the model treats it as unbranded (`false`) and checks it like one.
- Compile-time type equality (`TypeEq`, `assert_type_eq!`) is modelled as datatype equality.
- Well-formedness over one IO marker, which Rust enforces by the trait bounds, is the predicate `OverIO`. Protocols that break it can be built and are classified by that predicate, not rejected by construction.

## Findings

| source | as written | input that shows it | evidently intended | confidence | as-written member | corrected member |
|---|---|---|---|---|---|---|
| src/lib.rs:355-357 | `NotContains` for a cons cell only recurses on the tail and never compares the head with the element, so every list "does not contain" every element and `Disjoint` accepts any two role lists | role lists `[TClient]` and `[TClient]`, e.g. the parallel downloads protocol in tests/compile.rs:254-261, which is accepted | non-containment should fail when the head equals the element, so overlapping branches are rejected | not executed | StaticChecks.AsWrittenAcceptsOverlap | StaticChecks.AssertDisjoint |
| src/lib.rs:352-353 | `Contains` holds for `Nil` and, for a cons cell, whenever it holds for the tail, so every list "contains" every element, the empty list included | `Contains` of any element in the empty list `Nil` | containment should fail for `Nil` and hold for a cons cell when the head equals the element or the tail contains it | not executed | StaticChecks.AsWrittenContainsInEmpty | StaticChecks.Contains |
| src/protocol.rs:186-190 | composing a parallel node keeps its `IsDisjoint` brand while composing the continuation into both branches, so a node branded disjoint by the assertion stays branded when the continuation adds one role to both branches; the assertion then accepts it unchanged | `TPar` of an interaction by `x` and one by `y`, asserted disjoint, then composed with an interaction by `z` | the brand should mean disjoint branches (src/protocol.rs:174-176, src/lib.rs:42), so composition should re-check or drop it | not executed | StaticChecks.ComposeBreaksBrand | StaticChecks.ComposeChecked |
| src/protocol/base.rs:69-72 | `NotTypeEq` has a blanket impl for all pairs including equal types, so `NotSame`, `NotInList` and `UniqueList` hold for every list | labels `[L1, L1, EmptyLabel]` of the choice in tests/trybuild/duplicate_labels_choice.rs and tests/compile.rs:321-334 | `NotTypeEq` should exclude the pair of a type with itself, so repeated labels are rejected | not executed | Base.AsWrittenAcceptsRepeat | Base.UniqueIsPairwiseDistinct |
