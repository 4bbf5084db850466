/**
 Projection of a global protocol onto one role (`ProjectRole` and its helpers
 `ProjectInteract`, `ProjectChoice`, `ProjectPar`, src/lib.rs), producing the
 labelled endpoint trees of src/protocol/local.rs. Role equality (`RoleEq`)
 is `==` on the role type. src/lib.rs implements `ProjectRole` for `TEnd`,
 `TInteract`, `TChoice` and `TPar` only, so projecting a tree that contains a
 `TRec` has no implementation: `Project` returns `None` for it.
 */
module Projection {
  import opened Wrappers
  import opened Protocol
  import opened Introspection
  import opened Local

  /** No `TRec` node occurs in `g`. */
  predicate RecFree<I, R, M>(g: Global<I, R, M>)
  {
    match g
    case TEnd(_, _) => true
    case TInteract(_, _, _, _, t) => RecFree(t)
    case TRec(_, _, _) => false
    case TChoice(_, _, a, b) => RecFree(a) && RecFree(b)
    case TPar(_, _, a, b, _) => RecFree(a) && RecFree(b)
  }

  /** No `TPar` node occurs in `g`. */
  predicate ParFree<I, R, M>(g: Global<I, R, M>)
  {
    match g
    case TEnd(_, _) => true
    case TInteract(_, _, _, _, t) => ParFree(t)
    case TRec(_, _, s) => ParFree(s)
    case TChoice(_, _, a, b) => ParFree(a) && ParFree(b)
    case TPar(_, _, _, _, _) => false
  }

  /** The number of nodes of `g`; it measures the mutual recursion below. */
  function Size<I, R, M>(g: Global<I, R, M>): (n: nat)
    ensures n >= 1
  {
    match g
    case TEnd(_, _) => 1
    case TInteract(_, _, _, _, t) => 1 + Size(t)
    case TRec(_, _, s) => 1 + Size(s)
    case TChoice(_, _, a, b) => 1 + Size(a) + Size(b)
    case TPar(_, _, a, b, _) => 1 + Size(a) + Size(b)
  }

  /**
   `ProjectRole<Me, IO, G>`: `TEnd` becomes `EpEnd`; a `TInteract` dispatches
   on `RoleEq` to `ProjectInteract`; `TChoice` and `TPar` go to their helpers.
   The result belongs to `me`, is over `g`'s IO marker and keeps `g`'s label.
   */
  function Project<I, R(==), M>(me: R, g: Global<I, R, M>): (r: Option<Local<I, R, M>>)
    ensures r.Some? <==> RecFree(g)
    ensures r.Some? ==> r.value.io == g.io && r.value.role == me && r.value.lbl == g.lbl
    ensures r.Some? ==> !r.value.EpSkip?
    decreases Size(g), 1
  {
    match g
    case TEnd(io, l) => Some(EpEnd(io, l, me))
    case TInteract(io, l, role, h, t) => ProjectInteract(me == role, me, io, l, h, t)
    case TRec(_, _, _) => None
    case TChoice(io, l, a, b) => ProjectChoice(me, io, l, a, b)
    case TPar(io, l, a, b, _) => ProjectPar(me, io, l, a, b)
  }

  /** `ProjectInteract<Flag, ...>`: a send when `me` is the acting role, a receive otherwise. */
  function ProjectInteract<I, R(==), M>(isMe: bool, me: R, io: I, l: Label, h: M, t: Global<I, R, M>): (r: Option<Local<I, R, M>>)
    ensures r.Some? <==> RecFree(t)
    ensures r.Some? ==> (r.value.EpSend? <==> isMe) && (r.value.EpRecv? <==> !isMe)
    ensures r.Some? ==> r.value.io == io && r.value.lbl == l && r.value.role == me && r.value.msg == h
    ensures r.Some? ==> Project(me, t) == Some(r.value.cont)
    decreases Size(t) + 1, 0
  {
    match Project(me, t)
    case None => None
    case Some(e) => Some(if isMe then EpSend(io, l, me, h, e) else EpRecv(io, l, me, h, e))
  }

  /** `ProjectChoice`: every role offers both branches, each projected onto it. */
  function ProjectChoice<I, R(==), M>(me: R, io: I, l: Label, a: Global<I, R, M>, b: Global<I, R, M>): (r: Option<Local<I, R, M>>)
    ensures r.Some? <==> RecFree(a) && RecFree(b)
    ensures r.Some? ==> r.value.EpChoice? && r.value.io == io && r.value.lbl == l && r.value.role == me
    ensures r.Some? ==> Project(me, a) == Some(r.value.left) && Project(me, b) == Some(r.value.right)
    decreases Size(a) + Size(b) + 1, 0
  {
    var pa, pb := Project(me, a), Project(me, b);
    if pa.Some? && pb.Some? then Some(EpChoice(io, l, me, pa.value, pb.value)) else None
  }

  /** `ProjectPar`: both branches run in parallel, each projected onto `me`. */
  function ProjectPar<I, R(==), M>(me: R, io: I, l: Label, a: Global<I, R, M>, b: Global<I, R, M>): (r: Option<Local<I, R, M>>)
    ensures r.Some? <==> RecFree(a) && RecFree(b)
    ensures r.Some? ==> r.value.EpPar? && r.value.io == io && r.value.lbl == l && r.value.role == me
    ensures r.Some? ==> Project(me, a) == Some(r.value.left) && Project(me, b) == Some(r.value.right)
    decreases Size(a) + Size(b) + 1, 0
  {
    var pa, pb := Project(me, a), Project(me, b);
    if pa.Some? && pb.Some? then Some(EpPar(io, l, me, pa.value, pb.value)) else None
  }

  /** A projection is over one IO marker and belongs to `me` at every node. */
  lemma {:induction false} ProjectObserves<I, R, M>(me: R, g: Global<I, R, M>, io: I)
    requires RecFree(g) && OverIO(g, io)
    ensures Observes(Project(me, g).value, io, me)
    decreases Size(g)
  {
    match g
    case TEnd(_, _) =>
    case TInteract(_, _, _, _, t) => ProjectObserves(me, t, io);
    case TChoice(_, _, a, b) => ProjectObserves(me, a, io); ProjectObserves(me, b, io);
    case TPar(_, _, a, b, _) => ProjectObserves(me, a, io); ProjectObserves(me, b, io);
  }

  // ---------------------------------------------------------------------
  // The message steps of a global tree and the actions of an endpoint tree.

  datatype Step<R, M> = Step(role: R, msg: M)
  datatype Action<M> = Sent(msg: M) | Received(msg: M)

  /** Every interaction of `g` in preorder, across both branches of every node. */
  function Steps<I, R, M>(g: Global<I, R, M>): seq<Step<R, M>>
  {
    match g
    case TEnd(_, _) => []
    case TInteract(_, _, r, h, t) => [Step(r, h)] + Steps(t)
    case TRec(_, _, s) => Steps(s)
    case TChoice(_, _, a, b) => Steps(a) + Steps(b)
    case TPar(_, _, a, b, _) => Steps(a) + Steps(b)
  }

  /** Every send and receive of `e` in preorder, across both branches of every node. */
  function Actions<I, R, M>(e: Local<I, R, M>): seq<Action<M>>
  {
    match e
    case EpSend(_, _, _, h, t) => [Sent(h)] + Actions(t)
    case EpRecv(_, _, _, h, t) => [Received(h)] + Actions(t)
    case EpEnd(_, _, _) => []
    case EpChoice(_, _, _, a, b) => Actions(a) + Actions(b)
    case EpPar(_, _, _, a, b) => Actions(a) + Actions(b)
    case EpSkip(_, _, _) => []
  }

  /** What `me` does at each step: it sends what it initiates and receives everything else. */
  function Observe<R(==), M>(me: R, ss: seq<Step<R, M>>): (r: seq<Action<M>>)
    ensures |r| == |ss|
    ensures forall k | 0 <= k < |ss| :: r[k] == if ss[k].role == me then Sent(ss[k].msg) else Received(ss[k].msg)
  {
    if ss == [] then []
    else [if ss[0].role == me then Sent(ss[0].msg) else Received(ss[0].msg)] + Observe(me, ss[1..])
  }

  lemma ObserveAppend<R, M>(me: R, s: seq<Step<R, M>>, t: seq<Step<R, M>>)
    ensures Observe(me, s + t) == Observe(me, s) + Observe(me, t)
  {
  }

  /**
   Sender/receiver duality over the whole tree: the projection onto `me`
   sends exactly the messages of the interactions `me` initiates and receives
   every other message, in the same order and with the same payloads.
   */
  lemma {:induction false} ProjectActions<I, R, M>(me: R, g: Global<I, R, M>)
    requires RecFree(g)
    ensures Actions(Project(me, g).value) == Observe(me, Steps(g))
    decreases Size(g)
  {
    match g
    case TEnd(_, _) =>
    case TInteract(_, _, r, h, t) =>
      ProjectActions(me, t);
      ObserveAppend(me, [Step(r, h)], Steps(t));
    case TChoice(_, _, a, b) =>
      ProjectActions(me, a); ProjectActions(me, b);
      ObserveAppend(me, Steps(a), Steps(b));
    case TPar(_, _, a, b, _) =>
      ProjectActions(me, a); ProjectActions(me, b);
      ObserveAppend(me, Steps(a), Steps(b));
  }

  /** A role acts in `g` exactly when it is the role of one of `g`'s steps. */
  lemma {:induction false} ActsIffStep<I, R, M>(me: R, g: Global<I, R, M>)
    ensures Acts(me, g) <==> exists st | st in Steps(g) :: st.role == me
  {
    match g
    case TEnd(_, _) =>
    case TInteract(_, _, r, h, t) =>
      ActsIffStep(me, t);
      assert Steps(g) == [Step(r, h)] + Steps(t);
      if r == me {
        assert Step(r, h) in Steps(g);
      }
    case TRec(_, _, s) => ActsIffStep(me, s);
    case TChoice(_, _, a, b) =>
      ActsIffStep(me, a); ActsIffStep(me, b);
      assert Steps(g) == Steps(a) + Steps(b);
    case TPar(_, _, a, b, _) =>
      ActsIffStep(me, a); ActsIffStep(me, b);
      assert Steps(g) == Steps(a) + Steps(b);
  }

  /** A role that never acts only receives (tests/projection_tests.rs, the uninvolved role). */
  lemma NonActorOnlyReceives<I, R, M>(me: R, g: Global<I, R, M>)
    requires RecFree(g) && !Acts(me, g)
    ensures forall k | 0 <= k < |Actions(Project(me, g).value)| :: Actions(Project(me, g).value)[k].Received?
  {
    ProjectActions(me, g);
    ActsIffStep(me, g);
    forall k | 0 <= k < |Steps(g)| ensures Steps(g)[k].role != me {
      assert Steps(g)[k] in Steps(g);
    }
  }

  // ---------------------------------------------------------------------
  // The presence-based refinement of the parallel case that the tests of
  // the labelled types expect.

  /**
   `ProjectParBranch<Flag, Me, IO, G>`: a branch in which `me` is present is
   projected; an absent one becomes an `EpSkip` carrying the parallel node's
   IO marker and label.
   */
  function ProjectParBranch<I, R(==), M>(present: bool, me: R, io: I, l: Label, g: Global<I, R, M>): (r: Option<Local<I, R, M>>)
    ensures !present ==> r.Some? && IsSkip(r.value, io, me) == Some(true) && r.value.lbl == l
    ensures present && RecFree(g) ==> r.Some? && r.value.role == me
    ensures present && Acts(me, g) && r.Some? ==> !r.value.EpSkip?
    decreases Size(g) + 1, 0
  {
    if present then ProjectPresence(me, g) else Some(EpSkip(io, l, me))
  }

  /** A present branch without parallel nodes is projected exactly as by `Project`. */
  lemma ProjectParBranchPresent<I, R, M>(me: R, io: I, l: Label, g: Global<I, R, M>)
    requires ParFree(g)
    ensures ProjectParBranch(true, me, io, l, g) == Project(me, g)
  {
    PresenceAgreesWithoutPar(me, g);
  }

  /**
   Projection in which a parallel node is refined by presence: a role present
   in both branches runs both, a role present in one branch gets that branch's
   projection unwrapped, and a role present in neither gets an `EpSkip` with
   the parallel node's IO marker and label. Every other node is projected as
   by `Project`. A skip appears exactly at a parallel node the role is absent from.
   */
  function ProjectPresence<I, R(==), M>(me: R, g: Global<I, R, M>): (r: Option<Local<I, R, M>>)
    ensures RecFree(g) ==> r.Some?
    ensures r.Some? ==> r.value.role == me
    ensures g.TPar? && !Acts(me, g) ==> r == Some(EpSkip(g.io, g.lbl, me))
    ensures r.Some? ==> (r.value.EpSkip? <==> g.TPar? && !Acts(me, g))
    ensures r.Some? && !g.TPar? ==> r.value.io == g.io && r.value.lbl == g.lbl
    decreases Size(g), 1
  {
    match g
    case TEnd(io, l) => Some(EpEnd(io, l, me))
    case TInteract(io, l, role, h, t) =>
      (match ProjectPresence(me, t)
       case None => None
       case Some(e) => Some(if me == role then EpSend(io, l, me, h, e) else EpRecv(io, l, me, h, e)))
    case TRec(_, _, _) => None
    case TChoice(io, l, a, b) =>
      var pa, pb := ProjectPresence(me, a), ProjectPresence(me, b);
      if pa.Some? && pb.Some? then Some(EpChoice(io, l, me, pa.value, pb.value)) else None
    case TPar(io, l, a, b, _) =>
      if Acts(me, a) && Acts(me, b) then
        var pa, pb := ProjectPresence(me, a), ProjectPresence(me, b);
        if pa.Some? && pb.Some? then Some(EpPar(io, l, me, pa.value, pb.value)) else None
      else if Acts(me, a) then ProjectParBranch(true, me, io, l, a)
      else ProjectParBranch(Acts(me, b), me, io, l, b)
  }

  /**
   The parallel rules of the refinement: a role in both branches runs both
   refined projections under the parallel node, and a role in exactly one
   branch gets that branch's refined projection with no parallel node around it.
   */
  lemma PresenceParRules<I, R, M>(me: R, g: Global<I, R, M>)
    requires g.TPar?
    ensures Acts(me, g.left) && Acts(me, g.right) && RecFree(g) ==>
      ProjectPresence(me, g) == Some(EpPar(g.io, g.lbl, me, ProjectPresence(me, g.left).value, ProjectPresence(me, g.right).value))
    ensures Acts(me, g.left) && !Acts(me, g.right) ==> ProjectPresence(me, g) == ProjectPresence(me, g.left)
    ensures !Acts(me, g.left) && Acts(me, g.right) ==> ProjectPresence(me, g) == ProjectPresence(me, g.right)
  {
  }

  /** Without parallel nodes the refinement is the projection of src/lib.rs. */
  lemma {:induction false} PresenceAgreesWithoutPar<I, R, M>(me: R, g: Global<I, R, M>)
    requires ParFree(g)
    ensures ProjectPresence(me, g) == Project(me, g)
    decreases Size(g)
  {
    match g
    case TEnd(_, _) =>
    case TInteract(_, _, _, _, t) => PresenceAgreesWithoutPar(me, t);
    case TRec(_, _, _) =>
    case TChoice(_, _, a, b) => PresenceAgreesWithoutPar(me, a); PresenceAgreesWithoutPar(me, b);
  }

  /** The messages of the sends in an action trace, in order. */
  function SentMsgs<M>(acts: seq<Action<M>>): seq<M>
  {
    if acts == [] then []
    else (if acts[0].Sent? then [acts[0].msg] else []) + SentMsgs(acts[1..])
  }

  /** The messages of the steps `me` initiates, in order. */
  function OwnMsgs<R(==), M>(me: R, ss: seq<Step<R, M>>): seq<M>
  {
    if ss == [] then []
    else (if ss[0].role == me then [ss[0].msg] else []) + OwnMsgs(me, ss[1..])
  }

  lemma {:induction false} SentMsgsAppend<M>(s: seq<Action<M>>, t: seq<Action<M>>)
    ensures SentMsgs(s + t) == SentMsgs(s) + SentMsgs(t)
  {
    if s != [] {
      assert (s + t)[1..] == s[1..] + t;
      SentMsgsAppend(s[1..], t);
    } else {
      assert s + t == t;
    }
  }

  lemma {:induction false} OwnMsgsAppend<R, M>(me: R, s: seq<Step<R, M>>, t: seq<Step<R, M>>)
    ensures OwnMsgs(me, s + t) == OwnMsgs(me, s) + OwnMsgs(me, t)
  {
    if s != [] {
      assert (s + t)[1..] == s[1..] + t;
      OwnMsgsAppend(me, s[1..], t);
    } else {
      assert s + t == t;
    }
  }

  /** A role's observation of a step list sends exactly the messages it initiates. */
  lemma {:induction false} SentOfObserve<R, M>(me: R, ss: seq<Step<R, M>>)
    ensures SentMsgs(Observe(me, ss)) == OwnMsgs(me, ss)
  {
    if ss != [] {
      assert Observe(me, ss)[1..] == Observe(me, ss[1..]);
      SentOfObserve(me, ss[1..]);
    }
  }

  /** A role that acts nowhere in `g` initiates none of its steps. */
  lemma NonActorOwnsNothing<I, R, M>(me: R, g: Global<I, R, M>)
    requires !Acts(me, g)
    ensures OwnMsgs(me, Steps(g)) == []
  {
    ActsIffStep(me, g);
    NoOwnStep(me, Steps(g));
  }

  lemma {:induction false} NoOwnStep<R, M>(me: R, ss: seq<Step<R, M>>)
    requires forall st | st in ss :: st.role != me
    ensures OwnMsgs(me, ss) == []
  {
    if ss != [] {
      assert ss[0] in ss;
      assert forall st | st in ss[1..] :: st in ss;
      NoOwnStep(me, ss[1..]);
    }
  }

  /**
   The refinement drops only branches the role does not act in, so its sends
   are exactly the messages the role initiates anywhere in the protocol.
   */
  lemma {:induction false} PresenceSends<I, R, M>(me: R, g: Global<I, R, M>)
    requires RecFree(g)
    ensures SentMsgs(Actions(ProjectPresence(me, g).value)) == OwnMsgs(me, Steps(g))
    decreases Size(g)
  {
    match g
    case TEnd(_, _) =>
    case TInteract(io, l, r, h, t) =>
      PresenceSends(me, t);
      var e := ProjectPresence(me, t).value;
      var x := if me == r then Sent(h) else Received(h);
      assert Actions(ProjectPresence(me, g).value) == [x] + Actions(e);
      assert ([x] + Actions(e))[1..] == Actions(e);
      assert ([Step(r, h)] + Steps(t))[1..] == Steps(t);
    case TChoice(_, _, a, b) =>
      PresenceSends(me, a);
      PresenceSends(me, b);
      SentMsgsAppend(Actions(ProjectPresence(me, a).value), Actions(ProjectPresence(me, b).value));
      OwnMsgsAppend(me, Steps(a), Steps(b));
    case TPar(_, _, a, b, _) =>
      OwnMsgsAppend(me, Steps(a), Steps(b));
      if Acts(me, a) && Acts(me, b) {
        PresenceSends(me, a);
        PresenceSends(me, b);
        SentMsgsAppend(Actions(ProjectPresence(me, a).value), Actions(ProjectPresence(me, b).value));
      } else if Acts(me, a) {
        PresenceSends(me, a);
        NonActorOwnsNothing(me, b);
      } else if Acts(me, b) {
        PresenceSends(me, b);
        NonActorOwnsNothing(me, a);
      } else {
        NonActorOwnsNothing(me, a);
        NonActorOwnsNothing(me, b);
      }
  }

  /** The refinement and the projection of src/lib.rs send the same messages in the same order. */
  lemma PresenceSendsAsProject<I, R, M>(me: R, g: Global<I, R, M>)
    requires RecFree(g)
    ensures SentMsgs(Actions(ProjectPresence(me, g).value)) == SentMsgs(Actions(Project(me, g).value))
  {
    PresenceSends(me, g);
    ProjectActions(me, g);
    SentOfObserve(me, Steps(g));
  }

  /** A role that acts in some branch never sees a skip at the top of its projection. */
  lemma PresenceOfActorIsNotSkip<I, R, M>(me: R, g: Global<I, R, M>)
    requires RecFree(g) && Acts(me, g)
    ensures IsSkip(ProjectPresence(me, g).value, ProjectPresence(me, g).value.io, me) == Some(false)
  {
  }

  /** The classifiers are defined on every projection and never call it a skip. */
  lemma ProjectClassifiers<I, R, M>(me: R, g: Global<I, R, M>)
    requires RecFree(g)
    ensures IsSkip(Project(me, g).value, g.io, me) == Some(false)
    ensures IsEnd(Project(me, g).value, g.io, me) == Some(g.TEnd?)
    ensures SkipMarker(Project(me, g).value, g.io, me) == Some(IsNotEpSkipType)
  {
  }
}
