/**
 Concrete protocols from the repository's tests, evaluated in the model. The
 roles, messages and IO markers are the marker types of the tests.
 */
module Examples {
  import opened Wrappers
  import opened Base
  import opened Protocol
  import opened Introspection
  import opened StaticChecks
  import opened Local
  import opened Projection

  datatype Role = Alice | Bob | Charlie | TClient | TServer | TBroker | TWorker | DummyRole
  datatype Msg = Message | Response | Publish | Notify | Subscribe
  datatype IO = Http | Mqtt | Db | Mixed

  type G = Global<IO, Role, Msg>
  type E = Local<IO, Role, Msg>

  const L1: Label := Named("L1")
  const L2: Label := Named("L2")
  const L3: Label := Named("L3")

  function Act(l: Label, r: Role, h: Msg, t: G): G { TInteract(Http, l, r, h, t) }
  function Done(l: Label): G { TEnd(Http, l) }
  function Skip(l: Label, r: Role): E { EpSkip(Http, l, r) }
  const NoBranches: seq<G> := []
  function Stop(l: Label, r: Role): E { EpEnd(Http, l, r) }

  /** tests/label_tests.rs: composition keeps the top label unless the left operand is `TEnd`. */
  lemma ComposeLabelExamples()
    ensures Compose(Done(L1), Act(L2, TClient, Message, Done(L3))).lbl == L2
    ensures Compose(Act(L1, TClient, Message, Done(EmptyLabel)), Act(L2, TServer, Response, Done(EmptyLabel))).lbl == L1
    ensures Compose(TRec(Http, L1, Done(EmptyLabel)), Act(L2, TServer, Response, Done(EmptyLabel))).lbl == L1
    ensures Compose(TChoice(Http, L1, Act(L2, TClient, Message, Done(EmptyLabel)), Act(L3, TServer, Response, Done(EmptyLabel))),
                    Act(L2, TServer, Response, Done(EmptyLabel))).lbl == L1
    ensures Compose(TPar(Http, L1, Act(L2, TClient, Message, Done(EmptyLabel)), Act(L3, TServer, Response, Done(EmptyLabel)), false),
                    Act(L2, TServer, Response, Done(EmptyLabel))).lbl == L1
    ensures Compose(TChoice(Http, L3, TRec(Http, L2, Act(L1, TClient, Message, Done(EmptyLabel))), Done(EmptyLabel)),
                    Act(EmptyLabel, TServer, Response, Done(EmptyLabel))).lbl == L3
  {
  }

  /** tests/introspection_tests.rs: label lists of each combinator and of the nested example. */
  lemma LabelsOfExamples()
    ensures LabelsOf(Done(L1)) == [L1]
    ensures LabelsOf(Act(L1, TClient, Message, Done(L2))) == [L1, L2]
    ensures LabelsOf(TRec(Http, L1, Done(L2))) == [L1, L2]
    ensures LabelsOf(TChoice(Http, L1, Act(L2, TClient, Message, Done(L3)), Done(EmptyLabel))) == [L1, L2, L3]
    ensures LabelsOf(TPar(Http, L1, Act(L2, TClient, Message, Done(L3)), Done(EmptyLabel), false)) == [L1, L2, L3]
    ensures LabelsOf(TPar(Http, L1, Act(L1, TClient, Message, Done(EmptyLabel)),
                          TChoice(Http, L2, TRec(Http, L2, Act(L3, TServer, Response, Done(EmptyLabel))),
                                  Act(L3, TClient, Message, Done(EmptyLabel))), false)) == [L1, L1, EmptyLabel]
  {
  }

  /** tests/introspection_tests.rs: role lists. */
  lemma RolesOfExamples()
    ensures RolesOf(Act(L1, TClient, Message, Done(EmptyLabel))) == [TClient]
    ensures RolesOf(Act(L1, TClient, Message, Act(L2, TServer, Response, Done(EmptyLabel)))) == [TClient, TServer]
  {
  }

  /** tests/trybuild/duplicate_labels_choice.rs: a repeated label is rejected. */
  lemma DuplicateLabelsRejected()
    ensures !UniqueLabels(TChoice(Http, L1, Act(L1, TClient, Message, Done(EmptyLabel)),
                                  Act(L1, TServer, Response, Done(EmptyLabel))))
  {
    assert LabelsOf(TChoice(Http, L1, Act(L1, TClient, Message, Done(EmptyLabel)),
                            Act(L1, TServer, Response, Done(EmptyLabel)))) == [L1, L1, EmptyLabel];
  }

  /**
   tests/compile.rs, the positive label-uniqueness module: the choice's own
   label reappears on its first branch, so the labels are not unique, yet the
   blanket inequality of src/protocol/base.rs lets the check pass.
   */
  lemma LabelRepeatAcceptedAsWritten()
    ensures var g := TChoice(Http, L1, Act(L1, TClient, Message, Done(EmptyLabel)),
                              Act(L2, TServer, Response, Done(EmptyLabel)));
            !UniqueLabels(g) && UniqueAsWritten(LabelsOf(g))
  {
    var g := TChoice(Http, L1, Act(L1, TClient, Message, Done(EmptyLabel)),
                      Act(L2, TServer, Response, Done(EmptyLabel)));
    assert LabelsOf(g) == [L1, L1, EmptyLabel];
    UniqueAsWrittenAcceptsAll(LabelsOf(g));
  }

  /**
   tests/compile.rs, the parallel downloads module: both branches are performed
   by the client, so the corrected check rejects the composition, while the
   role lists pass the disjointness test of src/lib.rs as written.
   */
  lemma SharedClientAcceptedAsWritten()
    ensures var a, b := Act(EmptyLabel, TClient, Message, Done(EmptyLabel)), Act(EmptyLabel, TClient, Publish, Done(EmptyLabel));
            && AssertDisjoint(ToTPar(Http, [a, b])) == None
            && DisjointAsWritten(RolesOf(a), RolesOf(b)) && DisjointAsWritten(RolesOf(b), RolesOf(a))
  {
    var a, b := Act(EmptyLabel, TClient, Message, Done(EmptyLabel)), Act(EmptyLabel, TClient, Publish, Done(EmptyLabel));
    DisjointAsWrittenAcceptsAll(RolesOf(a), RolesOf(b));
    DisjointAsWrittenAcceptsAll(RolesOf(b), RolesOf(a));
  }

  /** tests/trybuild/duplicate_roles_par.rs: the same client in both branches is rejected. */
  lemma DuplicateRolesRejected()
    ensures AssertDisjoint(ToTPar(Http, [Act(EmptyLabel, TClient, Message, Done(EmptyLabel)),
                                         Act(EmptyLabel, TClient, Publish, Done(EmptyLabel))])) == None
  {
  }

  /** tests/compile.rs, the n-ary disjoint parallel composition: accepted and branded. */
  lemma NaryDisjointAccepted()
    ensures var p := ToTPar(Http, [Act(EmptyLabel, TClient, Message, Done(EmptyLabel)),
                                   Act(EmptyLabel, TWorker, Notify, Done(EmptyLabel)),
                                   Act(EmptyLabel, TBroker, Subscribe, Done(EmptyLabel))]);
            AssertDisjoint(p) == Some(p.(disjoint := true))
  {
  }

  /**
   tests/compile.rs, the commented-out n-ary overlap: the third branch repeats
   the client of the first, but the left-only `RolesOf` of the nested right
   operand sees only the second branch, so the check accepts it.
   */
  lemma NaryOverlapAcceptedByLeftFold()
    ensures var p := ToTPar(Http, [Act(EmptyLabel, TClient, Message,
                                        TChoice(Http, EmptyLabel, Act(EmptyLabel, TServer, Response, Done(EmptyLabel)),
                                                TRec(Http, EmptyLabel, Act(EmptyLabel, TBroker, Publish, Done(EmptyLabel))))),
                                   Act(EmptyLabel, TWorker, Notify, Done(EmptyLabel)),
                                   Act(EmptyLabel, TClient, Subscribe, Done(EmptyLabel))]);
            AssertDisjoint(p).Some?
  {
  }

  /** tests/compile.rs: the hand-nested four-way choice is not the fold of its four branches. */
  lemma ManualFourWayDiffers()
    ensures var a, b, c, d := Act(EmptyLabel, TClient, Message, Done(EmptyLabel)), Act(EmptyLabel, TServer, Response, Done(EmptyLabel)),
                              Act(EmptyLabel, TBroker, Publish, Done(EmptyLabel)), Act(EmptyLabel, TWorker, Notify, Done(EmptyLabel));
            ToTChoice(Http, [a, b, c, d]) != TChoice(Http, EmptyLabel, a, TChoice(Http, EmptyLabel, b, TChoice(Http, EmptyLabel, c, d)))
  {
    var a, b, c, d := Act(EmptyLabel, TClient, Message, Done(EmptyLabel)), Act(EmptyLabel, TServer, Response, Done(EmptyLabel)),
                      Act(EmptyLabel, TBroker, Publish, Done(EmptyLabel)), Act(EmptyLabel, TWorker, Notify, Done(EmptyLabel));
    var manual := TChoice(Http, EmptyLabel, a, TChoice(Http, EmptyLabel, b, TChoice(Http, EmptyLabel, c, d)));
    assert FromTChoice(Http, manual) == None;
    ToTChoiceRoundTrip(Http, [a, b, c, d], manual);
  }

  /** tests/trybuild/mixed_io_choice.rs: a choice mixing an HTTP and an MQTT branch is not over HTTP. */
  lemma MixedIOChoiceNotOverHttp()
    ensures !OverIO(ToTChoice(Http, [Act(EmptyLabel, TClient, Message, Done(EmptyLabel)),
                                     TInteract(Mqtt, EmptyLabel, TBroker, Publish, TEnd(Mqtt, EmptyLabel))]), Http)
  {
  }

  /** tests/projection_tests.rs and tests/label_preservation_tests.rs: sends, receives and uninvolved roles. */
  lemma InteractionProjections()
    ensures Project(Alice, Act(L1, Alice, Message, Done(L2))) == Some(EpSend(Http, L1, Alice, Message, EpEnd(Http, L2, Alice)))
    ensures Project(Bob, Act(L1, Alice, Message, Done(L2))) == Some(EpRecv(Http, L1, Bob, Message, EpEnd(Http, L2, Bob)))
    ensures Project(Charlie, Act(L1, Alice, Message, Act(L2, Bob, Response, Done(L3))))
         == Some(EpRecv(Http, L1, Charlie, Message, EpRecv(Http, L2, Charlie, Response, EpEnd(Http, L3, Charlie))))
    ensures Project(Alice, Done(L1)) == Some(EpEnd(Http, L1, Alice))
  {
  }

  /** tests/label_preservation_tests.rs, the choice: Alice offers both branches under the choice's label. */
  lemma ChoiceProjection()
    ensures Project(Alice, TChoice(Http, L1, Act(L2, Alice, Message, Done(L3)), Act(L2, Bob, Response, Done(L3))))
         == Some(EpChoice(Http, L1, Alice, EpSend(Http, L2, Alice, Message, EpEnd(Http, L3, Alice)),
                                          EpRecv(Http, L2, Alice, Response, EpEnd(Http, L3, Alice))))
  {
  }

  /**
   tests/label_preservation_tests.rs, the parallel node: with presence, Alice
   gets her branch unwrapped and Charlie a skip under the parallel label; the
   projection of src/lib.rs keeps both branches under `EpPar`.
   */
  lemma ParProjections()
    ensures var p := TPar(Http, L1, Act(L2, Alice, Message, Done(L3)), Act(L2, Bob, Response, Done(L3)), false);
            && ProjectPresence(Alice, p) == Some(EpSend(Http, L2, Alice, Message, EpEnd(Http, L3, Alice)))
            && ProjectPresence(Bob, p) == Some(EpSend(Http, L2, Bob, Response, EpEnd(Http, L3, Bob)))
            && ProjectPresence(Charlie, p) == Some(EpSkip(Http, L1, Charlie))
            && Project(Alice, p) == Some(EpPar(Http, L1, Alice, EpSend(Http, L2, Alice, Message, EpEnd(Http, L3, Alice)),
                                                              EpRecv(Http, L2, Alice, Response, EpEnd(Http, L3, Alice))))
  {
  }

  /**
   tests/trybuild/empty_par.rs: the fold of the empty branch list `Nil`
   projects to an end. The test writes it as `tpar!(Http;)`, which the macro's
   one-or-more branch pattern does not accept; the lemma is about the bare
   `Nil` fold.
   */
  lemma EmptyParProjection()
    ensures Project(DummyRole, ToTPar(Http, NoBranches)) == Some(EpEnd(Http, EmptyLabel, DummyRole))
  {
  }

  /** tests/projection_tests.rs: the skip and end classifiers. */
  lemma ClassifierExamples()
    ensures IsSkip(Skip(EmptyLabel, Alice), Http, Alice) == Some(true)
    ensures IsSkip(Stop(EmptyLabel, Alice), Http, Alice) == Some(false)
    ensures IsSkip(EpSend(Http, EmptyLabel, Alice, Message, EpEnd(Http, EmptyLabel, Alice)), Http, Alice) == Some(false)
    ensures IsEnd(Stop(EmptyLabel, Alice), Http, Alice) == Some(true)
    ensures IsEnd(Skip(EmptyLabel, Alice), Http, Alice) == Some(false)
    ensures IsEnd(EpSend(Http, EmptyLabel, Alice, Message, EpEnd(Http, EmptyLabel, Alice)), Http, Alice) == Some(false)
  {
  }
}
