/**
 What happens to one continuation while queued operations are issued and calls are answered: nothing, except that a
 queued operation is issued and that an answered call's caller is resumed with what the answer means.
 */
module EventLoopServing {
  import opened Common
  import opened Pipeline
  import opened EventLoopModel
  import opened EventLoopInvariants
  import opened EventLoopParts
  import opened EventLoopSafety
  import opened EventLoopRuns
  import opened EventLoopAccounting
  import opened EventLoopOutcomes
  import opened EventLoopQuery

  /** Where a continuation stands: with what it has been resumed, whether it is registered, and its open call. */
  datatype Standing = Standing(outcomes: seq<Outcome>, active: bool, call: Option<CallbackData>)

  function StandingOf(s: State, id: ID): Standing {
    Standing(Outcomes(s, id), id in s.active, if id in s.outstanding then Some(s.outstanding[id]) else None)
  }

  /** What libnfs will say to the queued operation when it is executed. */
  function CodeOf(q: seq<PendingOperation>, id: ID): int {
    if q == [] then 0 else if q[0].cb.id == id then q[0].rc else CodeOf(q[1..], id)
  }

  lemma {:induction false} CodeAt(q: seq<PendingOperation>, i: int)
    requires 0 <= i < |q| && forall a, b :: 0 <= a < b < |q| ==> q[a].cb.id != q[b].cb.id
    ensures CodeOf(q, q[i].cb.id) == q[i].rc
  {
    if i > 0 {
      assert q[0].cb.id != q[i].cb.id;
      CodeAt(q[1..], i - 1);
    }
  }

  lemma {:induction false} CodeWithout(q: seq<PendingOperation>, i: int, id: ID)
    requires 0 <= i < |q| && q[i].cb.id != id
    ensures CodeOf(RemoveAt(q, i), id) == CodeOf(q, id)
  {
    if i > 0 {
      CodeWithout(q[1..], i - 1, id);
      assert RemoveAt(q, i)[1..] == RemoveAt(q[1..], i - 1);
    } else {
      assert RemoveAt(q, 0) == q[1..];
    }
  }

  /** Queued operations have been issued: one that libnfs rejected has had its caller resumed with the code, unless the
      caller had been resumed before; nobody else has been resumed or unregistered, and no other call changed. */
  ghost predicate Served(s: State, s': State, id: ID) {
    var before, after := StandingOf(s, id), StandingOf(s', id);
    var queued, queued', rc := id in PendingIDs(s.pending), id in PendingIDs(s'.pending), CodeOf(s.pending, id);
    && (queued' ==> queued && CodeOf(s'.pending, id) == rc)
    && if !queued || queued' then after == before
       else if rc >= 0 then after == before.(call := after.call)
       else after == Standing(if before.outcomes == [] then [Threw(Code(-rc))] else before.outcomes, false, before.call)
  }

  lemma ServedTwice(a: State, b: State, c: State, id: ID)
    requires Served(a, b, id) && Served(b, c, id)
    ensures Served(a, c, id)
  {
    hide StandingOf, PendingIDs, CodeOf;
  }

  lemma ServedNothing(s: State, s': State, id: ID)
    requires s'.pending == s.pending && StandingOf(s', id) == StandingOf(s, id)
    ensures Served(s, s', id)
  {
    hide StandingOf, PendingIDs, CodeOf;
  }

  lemma ExecuteAtServes(s: State, i: int, id: ID, detached: set<ID>)
    requires Inv(s, detached, None) && 0 <= i < |s.pending|
    ensures Served(s, ExecuteAt(s, i), id)
  {
    hide ResumedOnce, RetainsMatch, NoneLost, BuffersMatch, HandlesMatch, SlotsFit, Execute, CodeOf;
    var op := s.pending[i];
    QueuedIsGated(s, i);
    QueueAfterRemoval(s.pending, i);
    QueuedFlag(s, i, detached);
    CodeAt(s.pending, i);
    ExecutedStanding(s.(pending := RemoveAt(s.pending, i)), op, id);
    if id != op.cb.id {
      CodeWithout(s.pending, i, id);
    }
  }

  lemma QueuedFlag(s: State, i: int, detached: set<ID>)
    requires Inv(s, detached, None) && 0 <= i < |s.pending|
    ensures s.pending[i].cb.id in s.hasResumed <==> Outcomes(s, s.pending[i].cb.id) != []
  {
    HeadOfRest(s, i);
    assert s.pending[i].cb.id in HeldIDs(s, None);
  }

  lemma ExecutedStanding(s: State, op: PendingOperation, id: ID)
    requires op.cb.id in s.hasResumed <==> Outcomes(s, op.cb.id) != []
    ensures var before, after := StandingOf(s, id), StandingOf(Execute(s, op), id);
            if id != op.cb.id then after == before
            else if op.rc >= 0 then after == before.(call := Some(op.cb))
            else after == Standing(if before.outcomes == [] then [Threw(Code(-op.rc))] else before.outcomes, false,
                                   before.call)
  {
    hide Framed;
  }

  lemma {:induction false} IssueFromServes(s: State, i: nat, id: ID, detached: set<ID>)
    requires Inv(s, detached, None) && s.context
    ensures Served(s, IssueFrom(s, i), id)
    decreases |s.pending| - i
  {
    hide Inv, Execute, DepthOf, Served, Framed;
    if i >= |s.pending| {
      ServedNothing(s, s, id);
    } else {
      var c := s.pending[i].cb.category;
      if s.inFlight.Get(c) < DepthOf(s, c) {
        ExecuteAtInv(s, i, detached);
        ExecuteAtServes(s, i, id, detached);
        ExecuteAtFields(s, i);
        IssueFromServes(ExecuteAt(s, i), i, id, detached);
        ServedTwice(s, ExecuteAt(s, i), IssueFrom(s, i), id);
      } else {
        IssueFromServes(s, i + 1, id, detached);
      }
    }
  }

  /** Issuing resumes exactly the callers of the queued operations that libnfs rejects, with the code it gives. */
  lemma IssuingServes(s: State, id: ID, detached: set<ID>)
    requires Inv(s, detached, None)
    ensures Served(s, IssuePending(s), id)
  {
    hide Inv, IssueFrom, Served, Framed;
    if s.context {
      IssueFromServes(s, 0, id, detached);
    } else {
      ServedNothing(s, s, id);
    }
  }

  // ---- answers --------------------------------------------------------------------------------

  lemma TakenStanding(s: State, r: Reply, ok: bool, id: ID)
    requires r.id in s.outstanding
    ensures var s1 := RecordCompletion(Taken(s, r), s.outstanding[r.id].category, ok);
            && s1.pending == s.pending
            && StandingOf(s1, id) == if id == r.id then Standing(Outcomes(s, id), false, None) else StandingOf(s, id)
  {
    hide Record, EndedBuffers;
  }

  lemma ResumedStanding(s: State, id: ID, o: Outcome, x: ID)
    ensures x != id ==> StandingOf(Resume(s, id, o), x) == StandingOf(s, x)
    ensures StandingOf(Resume(s, id, o), x) == StandingOf(s, x).(outcomes := Outcomes(Resume(s, id, o), x))
    ensures Resume(s, id, o).pending == s.pending
  {
  }

  /** An answer resumes its caller with what it means, unless the caller had been resumed before, and otherwise does to
      everybody what issuing does. */
  lemma AnswerServes(s: State, r: Reply, id: ID, detached: set<ID>)
    requires Inv(s, detached, None) && r.id in s.outstanding
    ensures var s', before := Callback(s, r), StandingOf(s, id);
            if id != r.id then Served(s, s', id)
            else
              && id !in PendingIDs(s'.pending)
              && StandingOf(s', id)
                 == Standing(if before.outcomes == []
                             then [Meaning(s.outstanding[id].kind.Exports?, r.status, r.handled)]
                             else before.outcomes, false, None)
  {
    hide WellFormed, ResumedOnce, RetainsMatch, NoneLost, BuffersMatch, HandlesMatch, SlotsFit, IssuePending, Framed,
         StandingOf, Taken, RecordCompletion, PendingIDs, Meaning, Resume, ReplyOutcome, Outcomes, CodeOf;
    var cb := s.outstanding[r.id];
    var ok := ReplySucceeds(cb.kind, r);
    var s1 := RecordCompletion(Taken(s, r), cb.category, ok);
    OutstandingFacts(s, r.id, detached);
    TakenInv(s, r, ok, detached);
    TakenStanding(s, r, ok, id);
    IssuingServes(s1, id, detached + StillWaiting(s, r.id));
    AnswerMeans(s, r, detached);
    CallbackParts(s, r);
    ResumedStanding(IssuePending(s1), r.id, ReplyOutcome(cb.kind, r), id);
    OutcomesOf(s, id);
    OutcomesOf(Callback(s, r), id);
  }

  lemma OutcomesOf(s: State, id: ID)
    ensures StandingOf(s, id).outcomes == Outcomes(s, id)
  {
  }

  lemma CallbackParts(s: State, r: Reply)
    requires r.id in s.outstanding
    ensures var cb := s.outstanding[r.id];
            Callback(s, r)
            == Resume(IssuePending(RecordCompletion(Taken(s, r), cb.category, ReplySucceeds(cb.kind, r))), r.id,
                      ReplyOutcome(cb.kind, r))
  {
    hide IssuePending, Framed, RecordCompletion, TakeReply, ReplyOutcome, ReplySucceeds;
  }

  /** The standing of a call's continuation after these replies: its caller is resumed with the first one's meaning. */
  function Settled(before: Standing, query: bool, reply: Option<Reply>): Standing {
    match reply
    case None => before
    case Some(r) =>
      Standing(if before.outcomes == [] then [Meaning(query, r.status, r.handled)] else before.outcomes, false, None)
  }

  /** No answer on a context is for a continuation that has no call on it and none to make. */
  predicate Idle(s: State, id: ID, onRpc: bool) {
    id !in PendingIDs(s.pending) && (id in s.outstanding ==> s.outstanding[id].kind.Exports? != onRpc)
  }

  lemma IdleStays(s: State, s': State, id: ID, onRpc: bool)
    requires Idle(s, id, onRpc) && Served(s, s', id)
    ensures Idle(s', id, onRpc) && StandingOf(s', id) == StandingOf(s, id)
  {
    hide PendingIDs, CodeOf;
  }

  lemma {:induction false} AnswersSpare(s: State, replies: seq<Reply>, onRpc: bool, id: ID, detached: set<ID>)
    requires Inv(s, detached, None) && Idle(s, id, onRpc)
    ensures var s' := CallbackAll(s, replies, onRpc); Idle(s', id, onRpc) && StandingOf(s', id) == StandingOf(s, id)
    decreases |replies|
  {
    hide Inv, Callback, Served, StandingOf, Framed, PendingIDs;
    if replies != [] {
      var r := replies[0];
      if Answers(s, r, onRpc) {
        AnswerServes(s, r, id, detached);
        CallbackInv(s, r, detached);
        IdleStays(s, Callback(s, r), id, onRpc);
        AnswersSpare(Callback(s, r), replies[1..], onRpc, id, detached - {r.id});
      } else {
        AnswersSpare(s, replies[1..], onRpc, id, detached);
      }
    }
  }

  /** Of the replies that a context delivers for an outstanding call, the first decides with what its caller is resumed;
      without one nothing happens to it. */
  lemma {:induction false} AnswersSettle(s: State, replies: seq<Reply>, onRpc: bool, id: ID, detached: set<ID>)
    requires Inv(s, detached, None) && id in s.outstanding && s.outstanding[id].kind.Exports? == onRpc
    ensures var s' := CallbackAll(s, replies, onRpc);
            && StandingOf(s', id) == Settled(StandingOf(s, id), onRpc, FirstReply(replies, id))
            && id !in PendingIDs(s'.pending)
    decreases |replies|
  {
    hide Inv, Callback, Served, Framed, PendingIDs, Meaning, Outcomes;
    OutstandingNotQueued(s, id, detached);
    if replies != [] {
      var r := replies[0];
      if r.id == id {
        AnswerServes(s, r, id, detached);
        CallbackInv(s, r, detached);
        AnswersSpare(Callback(s, r), replies[1..], onRpc, id, detached - {id});
      } else if Answers(s, r, onRpc) {
        AnswerServes(s, r, id, detached);
        CallbackInv(s, r, detached);
        IdleStays(s, Callback(s, r), id, !onRpc);
        AnswersSettle(Callback(s, r), replies[1..], onRpc, id, detached - {r.id});
      } else {
        AnswersSettle(s, replies[1..], onRpc, id, detached);
      }
    }
  }

  lemma OutstandingNotQueued(s: State, id: ID, detached: set<ID>)
    requires Inv(s, detached, None) && id in s.outstanding
    ensures id !in PendingIDs(s.pending)
  {
  }

  /** The answers on the query's context do to everybody else what issuing does. */
  lemma {:induction false} QueryAnswersServe(s: State, replies: seq<Reply>, id: ID, detached: set<ID>)
    requires Inv(s, detached, None) && id !in Queries(s)
    ensures Served(s, CallbackAll(s, replies, true), id)
    decreases |replies|
  {
    hide Inv, Callback, Served, Framed, PendingIDs, StandingOf, OnContext;
    if replies == [] {
      ServedNothing(s, s, id);
    } else {
      var r := replies[0];
      OnOneContext(s.outstanding, r.id);
      if Answers(s, r, true) {
        AnswerServes(s, r, id, detached);
        CallbackInv(s, r, detached);
        AnswerEndsQuery(s, r, detached);
        QueryAnswersServe(Callback(s, r), replies[1..], id, detached - {r.id});
        ServedTwice(s, Callback(s, r), CallbackAll(s, replies, true), id);
      } else {
        QueryAnswersServe(s, replies[1..], id, detached);
      }
    }
  }

  // ---- destroying contexts --------------------------------------------------------------------

  /** Destroying the query's context resumes the query's caller if libnfs answers it then, and else leaves it. */
  lemma CleanupServes(s: State, replies: seq<Reply>, id: ID)
    requires Inv(s, {}, None) && QueryKnown(s)
    ensures var s' := CleanupExports(s, replies);
            if s.exports == Some(id)
            then id !in PendingIDs(s'.pending)
                 && StandingOf(s', id) == Settled(StandingOf(s, id), true, FirstReply(replies, id)).(call := None)
            else Served(s, s', id)
  {
    hide Inv, CallbackAll, Served, StandingOf, PendingIDs, OnContext, Grows, Meaning;
    OnOneContext(s.outstanding, id);
    CallOf(s, id);
    if s.exports.Some? {
      var s0 := s.(exports := None);
      HistoryInv(s, s0, {}, None);
      SameStanding(s, s0, id);
      LostStanding(CallbackAll(s0, replies, true), CleanupExports(s, replies), id);
      if s.exports.value == id {
        AnswersSettle(s0, replies, true, id, {});
      } else {
        ServedNothing(s, s0, id);
        QueryAnswersServe(s0, replies, id, {});
        ServedTwice(s, s0, CallbackAll(s0, replies, true), id);
        StillNoQuery(s0, replies, id);
        ServedNothing(CallbackAll(s0, replies, true), CleanupExports(s, replies), id);
        ServedTwice(s, CallbackAll(s0, replies, true), CleanupExports(s, replies), id);
      }
    } else {
      SameStanding(s, CleanupExports(s, replies), id);
      ServedNothing(s, CleanupExports(s, replies), id);
    }
  }

  lemma StillNoQuery(s: State, replies: seq<Reply>, id: ID)
    requires Inv(s, {}, None) && id !in Queries(s)
    ensures id !in Queries(CallbackAll(s, replies, true))
  {
    hide Inv, CallbackAll, OnContext;
    QueriesShrink(s, replies, {});
  }

  lemma {:induction false} QueriesShrink(s: State, replies: seq<Reply>, detached: set<ID>)
    requires Inv(s, detached, None)
    ensures Queries(CallbackAll(s, replies, true)) <= Queries(s)
    decreases |replies|
  {
    hide Inv, Callback, OnContext, Framed;
    if replies != [] {
      if Answers(s, replies[0], true) {
        AnswerEndsQuery(s, replies[0], detached);
        CallbackInv(s, replies[0], detached);
        QueriesShrink(Callback(s, replies[0]), replies[1..], detached - {replies[0].id});
      } else {
        QueriesShrink(s, replies[1..], detached);
      }
    }
  }

  lemma SameStanding(s: State, s': State, id: ID)
    requires s'.delivered == s.delivered && s'.active == s.active && s'.outstanding == s.outstanding
    ensures StandingOf(s', id) == StandingOf(s, id)
  {
  }

  lemma LostStanding(s: State, s': State, id: ID)
    requires s'.delivered == s.delivered && s'.active == s.active
    requires s'.outstanding == s.outstanding - OnContext(s.outstanding, true)
    ensures id !in Queries(s) ==> StandingOf(s', id) == StandingOf(s, id)
    ensures StandingOf(s, id).call.None? || StandingOf(s, id).call.value.kind.Exports? ==>
              StandingOf(s', id) == StandingOf(s, id).(call := None)
  {
  }

  lemma CallOf(s: State, id: ID)
    ensures StandingOf(s, id).call == if id in s.outstanding then Some(s.outstanding[id]) else None
  {
  }
}
