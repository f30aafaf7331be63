/** The export query: when its context is open, what ends it, and what the guarded shutdown leaves behind. */
module EventLoopQuery {
  import opened Common
  import opened Pipeline
  import opened AimdTheorems
  import opened EventLoopModel
  import opened EventLoopInvariants
  import opened EventLoopParts
  import opened EventLoopSafety
  import opened EventLoopRuns
  import opened EventLoopTheorems
  import opened EventLoopAccounting
  import opened EventLoopRequests

  /** The queries libnfs still owes an answer. */
  function Queries(s: State): set<ID> {
    OnContext(s.outstanding, true)
  }

  /** The loop holds the context of exactly the query that libnfs still owes an answer. */
  ghost predicate QueryKnown(s: State) {
    && Queries(s) == (if s.exports.Some? then {s.exports.value} else {})
    && !s.exportsDone
  }

  /** While the query's context is serviced or destroyed the query can have been answered already. */
  ghost predicate QueryEnded(s: State) {
    Queries(s) == {} && s.exportsDone
  }

  predicate Owed(m: map<ID, CallbackData>, id: ID) {
    id in m && m[id].kind.Exports?
  }

  lemma SameQueries(m: map<ID, CallbackData>, m': map<ID, CallbackData>)
    requires forall id :: Owed(m', id) <==> Owed(m, id)
    ensures OnContext(m', true) == OnContext(m, true)
  {
    forall id ensures id in OnContext(m', true) <==> id in OnContext(m, true) {
      assert Owed(m', id) <==> Owed(m, id);
    }
  }

  // ---- what leaves the query alone ------------------------------------------------------------

  /** The query's context, its answer and its flag are as they were. */
  ghost predicate QueryAlone(s: State, s': State) {
    Queries(s') == Queries(s) && s'.exports == s.exports && s'.exportsDone == s.exportsDone
  }

  lemma ExecuteAtLeavesQuery(s: State, i: int)
    requires Registered(s, None) && 0 <= i < |s.pending|
    ensures QueryAlone(s, ExecuteAt(s, i))
  {
    hide WellFormed, OnContext, PendingIDs, Framed, Execute, ExecuteAt;
    HeadOfRest(s, i);
    QueuedIsGated(s, i);
    ExecuteAtFields(s, i);
    SameQueries(s.outstanding, ExecuteAt(s, i).outstanding);
  }

  lemma ExecuteAtFields(s: State, i: int)
    requires 0 <= i < |s.pending|
    ensures var s', op := ExecuteAt(s, i), s.pending[i];
            && s'.outstanding == (if op.rc < 0 then s.outstanding else s.outstanding[op.cb.id := op.cb])
            && s'.exports == s.exports && s'.exportsDone == s.exportsDone && s'.context == s.context
  {
    hide Framed, RemoveAt, Execute;
    ExecuteLeavesFlag(s.(pending := RemoveAt(s.pending, i)), s.pending[i]);
  }

  lemma ExecuteLeavesFlag(s: State, op: PendingOperation)
    ensures var s' := Execute(s, op);
            s'.exports == s.exports && s'.exportsDone == s.exportsDone && s'.context == s.context
  {
    hide Framed, Grows, Outcomes, Retains;
  }

  lemma {:induction false} IssueFromLeavesQuery(s: State, i: nat, detached: set<ID>)
    requires Inv(s, detached, None) && s.context
    ensures QueryAlone(s, IssueFrom(s, i))
    decreases |s.pending| - i
  {
    hide WellFormed, ResumedOnce, RetainsMatch, NoneLost, BuffersMatch, HandlesMatch, SlotsFit, Execute, DepthOf,
         Queries, Framed;
    if i < |s.pending| {
      var c := s.pending[i].cb.category;
      if s.inFlight.Get(c) < DepthOf(s, c) {
        ExecuteAtInv(s, i, detached);
        ExecuteAtLeavesQuery(s, i);
        ExecuteAtFields(s, i);
        IssueFromLeavesQuery(ExecuteAt(s, i), i, detached);
      } else {
        IssueFromLeavesQuery(s, i + 1, detached);
      }
    }
  }

  lemma IssuingLeavesQuery(s: State, detached: set<ID>)
    requires Inv(s, detached, None)
    ensures QueryAlone(s, IssuePending(s))
  {
    hide Inv, IssueFrom, Queries, Framed;
    if s.context {
      IssueFromLeavesQuery(s, 0, detached);
    }
  }

  /** An answer takes its call from the queries; a query's answer sets the flag. */
  lemma AnswerEndsQuery(s: State, r: Reply, detached: set<ID>)
    requires Inv(s, detached, None) && r.id in s.outstanding
    ensures var s' := Callback(s, r);
            && Queries(s') == Queries(s) - {r.id} && s'.exports == s.exports
            && s'.exportsDone == (s.exportsDone || s.outstanding[r.id].kind.Exports?)
  {
    hide WellFormed, ResumedOnce, RetainsMatch, NoneLost, BuffersMatch, HandlesMatch, SlotsFit, IssuePending,
         OnContext, Framed, Record, EndedBuffers;
    var cb := s.outstanding[r.id];
    var s1 := RecordCompletion(Taken(s, r), cb.category, ReplySucceeds(cb.kind, r));
    TakenInv(s, r, ReplySucceeds(cb.kind, r), detached);
    IssuingLeavesQuery(s1, detached + StillWaiting(s, r.id));
    WithoutCall(s.outstanding, r.id);
  }

  lemma WithoutCall(m: map<ID, CallbackData>, id: ID)
    ensures OnContext(m - {id}, true) == OnContext(m, true) - {id}
  {
  }

  /** The first of the replies to this call. */
  function FirstReply(replies: seq<Reply>, id: ID): (r: Option<Reply>)
    ensures r == None <==> forall i :: 0 <= i < |replies| ==> replies[i].id != id
    ensures r.Some? ==> r.value in replies && r.value.id == id
  {
    if replies == [] then None
    else if replies[0].id == id then Some(replies[0])
    else FirstReply(replies[1..], id)
  }

  lemma {:induction false} NoneBeforeFirst(replies: seq<Reply>, id: ID, i: int)
    requires 0 <= i < |replies| && replies[i].id == id && forall j :: 0 <= j < i ==> replies[j].id != id
    ensures FirstReply(replies, id) == Some(replies[i])
  {
    if i > 0 {
      assert replies[0].id != id;
      NoneBeforeFirst(replies[1..], id, i - 1);
    }
  }

  lemma {:induction false} AnswersEndQuery(s: State, replies: seq<Reply>, onRpc: bool, detached: set<ID>)
    requires Inv(s, detached, None)
    ensures var s' := CallbackAll(s, replies, onRpc);
            && s'.exports == s.exports
            && (!onRpc ==> QueryAlone(s, s'))
            && (QueryEnded(s) ==> QueryEnded(s'))
            && (onRpc && QueryKnown(s) ==>
                  if s.exports.Some? && FirstReply(replies, s.exports.value).Some? then QueryEnded(s')
                  else QueryKnown(s'))
    decreases |replies|
  {
    hide Inv, Callback, OnContext, Framed;
    if replies != [] {
      var r, rest := replies[0], replies[1..];
      OnOneContext(s.outstanding, r.id);
      if Answers(s, r, onRpc) {
        AnswerEndsQuery(s, r, detached);
        CallbackInv(s, r, detached);
        AnswersEndQuery(Callback(s, r), rest, onRpc, detached - {r.id});
      } else {
        AnswersEndQuery(s, rest, onRpc, detached);
      }
    }
  }

  lemma OnOneContext(m: map<ID, CallbackData>, id: ID)
    ensures id in OnContext(m, true) <==> Owed(m, id)
  {
  }

  /** Cleaning up ends the query whether or not it has been answered. */
  lemma CleanupEndsQuery(s: State, replies: seq<Reply>)
    requires Inv(s, {}, None) && (QueryKnown(s) || QueryEnded(s))
    ensures QueryKnown(CleanupExports(s, replies)) && CleanupExports(s, replies).exports == None
  {
    hide Inv, CallbackAll, OnContext, Grows;
    if s.exports.Some? {
      LosingQueries(CallbackAll(s.(exports := None), replies, true).outstanding);
    }
  }

  lemma LosingQueries(m: map<ID, CallbackData>)
    ensures OnContext(m - OnContext(m, true), true) == {}
    ensures OnContext(m - OnContext(m, false), true) == OnContext(m, true)
  {
  }

  lemma DestroyLeavesQuery(s: State, replies: seq<Reply>, detached: set<ID>)
    requires Inv(s, detached, None) && s.context && s.active == map[] && s.pending == []
    ensures QueryAlone(s, DestroyContext(s, replies))
  {
    hide WellFormed, ResumedOnce, RetainsMatch, NoneLost, BuffersMatch, HandlesMatch, SlotsFit, CallbackAll,
         OnContext, Grows;
    var s1 := s.(context := false, trace := s.trace + [Destroy]);
    HandlesCall(s.trace, s.handles, s.openings, s.reopened, s.nextHandleID, Destroy);
    ContextGone(s);
    AnswersEndQuery(s1, replies, false, detached);
    LosingQueries(CallbackAll(s1, replies, false).outstanding);
  }

  lemma ErrorLeavesQuery(s: State, e: PosixError, replies: seq<Reply>)
    requires Inv(s, {}, None)
    ensures QueryAlone(s, ShutdownWithError(s, e, replies))
  {
    hide Inv, DestroyContext, OnContext, PendingIDs, Grows, DeliveredToAll;
    DetachInv(s);
    if s.context {
      DestroyLeavesQuery(Detach(s), replies, s.active.Keys);
    }
  }

  lemma ShutdownEndsQuery(s: State, rpcReplies: seq<Reply>, replies: seq<Reply>)
    requires Inv(s, {}, None) && QueryKnown(s) && (s.context || s.active != map[])
    ensures QueryKnown(PerformShutdown(s, rpcReplies, replies))
    ensures PerformShutdown(s, rpcReplies, replies).exports == None
  {
    hide Inv, CleanupExports, DestroyContext, OnContext, PendingIDs, Grows, DeliveredToAll, Restarted;
    var s0 := CleanupExports(s, rpcReplies);
    CleanupExportsInv(s, rpcReplies);
    CleanupEndsQuery(s, rpcReplies);
    DetachInv(s0);
    ForgetInv(s0);
    if s0.context {
      DestroyLeavesQuery(Detach(s0).(handles := map[]), replies, s0.active.Keys);
    }
  }

  lemma ForgetInv(s: State)
    requires Inv(Detach(s), s.active.Keys, None)
    ensures Inv(Detach(s).(handles := map[]), s.active.Keys, None)
  {
    hide WellFormed, ResumedOnce, RetainsMatch, NoneLost, BuffersMatch, HandlesMatch, SlotsFit, PendingIDs;
    HandlesForget(s.context, s.trace, s.handles, s.openings, s.reopened, s.nextHandleID, s.handles.Keys);
    assert s.handles - s.handles.Keys == map[];
  }

  lemma {:induction false} TimeoutsLeaveQuery(s: State, order: seq<ID>)
    ensures QueryAlone(s, TimeoutAll(s, order))
    decreases |order|
  {
    hide OnContext, Record, Grows;
    if order != [] {
      TimeoutsLeaveQuery(TimeoutOne(s, order[0]), order[1..]);
    }
  }

  // ---- every step ---------------------------------------------------------------------------

  lemma NewCallLeavesQuery(s: State, s': State, cb: CallbackData, accepted: bool)
    requires s'.outstanding == (if accepted then s.outstanding[cb.id := cb] else s.outstanding)
    requires cb.id !in s.outstanding
    ensures !cb.kind.Exports? || !accepted ==> Queries(s') == Queries(s)
    ensures cb.kind.Exports? && accepted ==> Queries(s') == Queries(s) + {cb.id}
  {
    hide OnContext;
    forall id ensures id in Queries(s') <==> id in Queries(s) || (id == cb.id && accepted && cb.kind.Exports?) {
      OnOneContext(s.outstanding, id);
      OnOneContext(s'.outstanding, id);
    }
  }

  lemma HandleKnown(s: State, h: ID, op: HandleOp, now: int, rc: int)
    requires Inv(s, {}, None) && QueryKnown(s)
    ensures QueryKnown(Apply(s, DoHandle(h, op, now, rc)))
  {
    hide Inv, Apply, OnContext, OnlyNew, Queries, Outcomes;
    NextIDHasNoPast(s);
    HandleAnswers(s, h, op, now, rc);
    var c := if op == ReadOwned || op == ReadInto || op == WriteOwned then Bulk else Metadata;
    NewCallLeavesQuery(s, Apply(s, DoHandle(h, op, now, rc)), CallbackData(s.nextID, Handle(h, op), c, now),
                       h in s.handles && s.context && rc >= 0);
  }

  lemma SubmitKnown(s: State, c: Category, now: int, rc: int)
    requires Inv(s, {}, None) && QueryKnown(s)
    ensures QueryKnown(Apply(s, DoSubmit(c, now, rc)))
  {
    hide Inv, Apply, OnContext, OnlyNew, DepthOf, Queries, Outcomes;
    NextIDHasNoPast(s);
    SubmitAnswers(s, c, now, rc);
    NewCallLeavesQuery(s, Apply(s, DoSubmit(c, now, rc)), CallbackData(s.nextID, Gated, c, now),
                       s.context && s.inFlight.Get(c) < DepthOf(s, c) && rc >= 0);
  }

  lemma MountKnown(s: State, now: int, rc: int)
    requires Inv(s, {}, None) && QueryKnown(s)
    ensures QueryKnown(Apply(s, DoMount(now, rc)))
  {
    hide Inv, Apply, OnContext, OnlyNew, Queries, Outcomes;
    NextIDHasNoPast(s);
    MountAnswers(s, now, rc);
    NewCallLeavesQuery(s, Apply(s, DoMount(now, rc)), CallbackData(s.nextID, Mount, Metadata, now),
                       s.context && rc >= 0);
  }

  lemma GetExportsKnown(s: State, available: bool, now: int, rc: int)
    requires Inv(s, {}, None) && QueryKnown(s)
    ensures QueryKnown(Apply(s, DoGetExports(available, now, rc)))
  {
    hide Inv, Apply, OnContext, OnlyNew, Queries, Outcomes;
    NextIDHasNoPast(s);
    GetExportsAnswers(s, available, now, rc);
    NewCallLeavesQuery(s, Apply(s, DoGetExports(available, now, rc)), CallbackData(s.nextID, Exports, Metadata, now),
                       s.context && s.exports.None? && available && rc >= 0);
  }

  lemma RequestKnown(s: State, step: Step)
    requires Inv(s, {}, None) && QueryKnown(s) && Request(step)
    ensures QueryKnown(Apply(s, step))
  {
    hide Inv, Apply, QueryKnown;
    match step
    case DoSubmit(c, now, rc) => SubmitKnown(s, c, now, rc);
    case DoHandle(h, op, now, rc) => HandleKnown(s, h, op, now, rc);
    case DoMount(now, rc) => MountKnown(s, now, rc);
    case DoGetExports(available, now, rc) => GetExportsKnown(s, available, now, rc);
    case _ => OpenKnown(s, step);
  }

  lemma OpenKnown(s: State, step: Step)
    requires step.DoOpen? && QueryKnown(s)
    ensures QueryKnown(Apply(s, step))
  {
    hide Apply, Queries;
    OpenLeavesQuery(s, step);
  }

  lemma OpenLeavesQuery(s: State, step: Step)
    requires step.DoOpen?
    ensures QueryAlone(s, Apply(s, step))
  {
    hide Grows, OnContext;
  }

  lemma StepKnown(s: State, step: Step)
    requires Inv(s, {}, None) && QueryKnown(s)
    ensures QueryKnown(Apply(s, step))
  {
    hide Inv, CallbackAll, CleanupExports, ShutdownWithError, PerformShutdown, TimeoutAll, Submit, CallHandle,
         CallMount, CallGetExports, OpenHandle, IssuePending, Grows, Queries;
    match step
    case DoIO(replies, result, destroyReplies) =>
      ServicedInv(s, replies, false);
      AnswersEndQuery(s, replies, false, {});
      ErrorLeavesQuery(CallbackAll(s, replies, false), ENOTCONN, destroyReplies);
      IssuingLeavesQuery(CallbackAll(s, replies, false), {});
    case DoRpc(replies, result, destroyReplies) =>
      ServicedInv(s, replies, true);
      AnswersEndQuery(s, replies, true, {});
      CleanupEndsQuery(CallbackAll(s, replies, true), destroyReplies);
    case DoTimeouts(now, order, rpcReplies) =>
      TimeoutAllInv(s, order);
      TimeoutsLeaveQuery(s, order);
      CleanupEndsQuery(TimeoutAll(s, order), rpcReplies);
    case DoShutdown(rpcReplies, replies) =>
      ShutdownKnown(s, rpcReplies, replies);
    case DoForget(h, replies) =>
      ForgetLeavesQuery(s, h, replies);
    case _ => RequestKnown(s, step);
  }

  lemma ShutdownKnown(s: State, rpcReplies: seq<Reply>, replies: seq<Reply>)
    requires Inv(s, {}, None) && QueryKnown(s)
    ensures QueryKnown(PerformShutdown(s, rpcReplies, replies))
  {
    hide Inv, Queries;
    if s.context || s.active != map[] {
      ShutdownEndsQuery(s, rpcReplies, replies);
    }
  }

  lemma ForgetLeavesQuery(s: State, h: ID, replies: seq<Reply>)
    requires Inv(s, {}, None)
    ensures QueryAlone(s, CloseFireAndForget(s, h, replies))
  {
    hide Inv, CallbackAll, OnContext, Grows;
    if h in s.handles && s.context {
      ClosedInv(s, h);
      AnswersEndQuery(s.(handles := s.handles - {h}, trace := s.trace + [Close(h, s.handles[h])]), replies, false, {});
    }
  }

  lemma {:induction false} RunKnown(s: State, steps: seq<Step>)
    requires Inv(s, {}, None) && QueryKnown(s)
    ensures QueryKnown(Run(s, steps))
    decreases |steps|
  {
    hide Inv, Apply, QueryKnown;
    if steps != [] {
      StepInv(s, steps[0]);
      StepKnown(s, steps[0]);
      RunKnown(Apply(s, steps[0]), steps[1..]);
    }
  }

  /** After every run the loop holds a query's context iff libnfs still owes that query, and no other, its answer. */
  lemma QueryHeldIff(timeout: int, steps: seq<Step>)
    ensures var s := After(timeout, steps);
            && !s.exportsDone
            && forall id :: s.exports == Some(id) <==> id in s.outstanding && s.outstanding[id].kind == Exports
  {
    hide Inv, Run, OnContext;
    KnownAfter(timeout, steps);
    var s := After(timeout, steps);
    forall id ensures s.exports == Some(id) <==> id in s.outstanding && s.outstanding[id].kind == Exports {
      OnOneContext(s.outstanding, id);
    }
  }

  lemma KnownAfter(timeout: int, steps: seq<Step>)
    ensures Inv(After(timeout, steps), {}, None) && QueryKnown(After(timeout, steps))
  {
    hide Inv, Run;
    InitInv(timeout);
    RunInv(timeout, steps);
    RunKnown(Init(timeout), steps);
  }

  // ---- what ends a query ------------------------------------------------------------------------

  /** An event that brings the query's answer ends it, whatever the service call returns; so does a failed call. Any
      other event of the query leaves it open. */
  lemma QueryEndsIff(timeout: int, steps: seq<Step>, replies: seq<Reply>, result: int, destroyReplies: seq<Reply>)
    ensures var s := After(timeout, steps); var s' := Apply(s, DoRpc(replies, result, destroyReplies));
            s.exports.Some? ==>
              if FirstReply(replies, s.exports.value).Some? || result < 0
              then s'.exports == None
              else s'.exports == s.exports && s.exports.value in s'.outstanding
  {
    hide Inv, Run, CallbackAll, CleanupExports, OnContext, Grows;
    KnownAfter(timeout, steps);
    var s := After(timeout, steps);
    ServicedInv(s, replies, true);
    AnswersEndQuery(s, replies, true, {});
    if s.exports.Some? {
      OnOneContext(CallbackAll(s, replies, true).outstanding, s.exports.value);
    }
  }

  /** Once it has ended, the next query is made: nothing but a missing context can refuse it. */
  lemma NextQueryIsMade(timeout: int, steps: seq<Step>, now: int, rc: int)
    requires After(timeout, steps).context && After(timeout, steps).exports == None
    ensures var s := After(timeout, steps); var s' := Apply(s, DoGetExports(true, now, rc));
            && s'.refused == s.refused && s'.nextID == s.nextID + 1
            && (rc >= 0 ==> s'.exports == Some(s.nextID) && s.nextID in s'.outstanding && s.nextID in s'.active)
  {
    hide Inv, Run, Apply;
    RunInv(timeout, steps);
    GetExportsAnswers(After(timeout, steps), true, now, rc);
  }

  // ---- what the guarded shutdown leaves ---------------------------------------------------------

  /** The guarded shutdown leaves a loop as after its start, but for the connection, the IDs and the histories: nobody
      registered or queued, no handle, no query, no call owed an answer, nothing counted, fresh controllers. */
  lemma ShutdownClearsAll(timeout: int, steps: seq<Step>, rpcReplies: seq<Reply>, replies: seq<Reply>)
    requires After(timeout, steps).context || After(timeout, steps).active != map[]
    ensures var s := Apply(After(timeout, steps), DoShutdown(rpcReplies, replies));
            && !s.context && s.active == map[] && s.pending == [] && s.handles == map[]
            && s.exports == None && !s.exportsDone && s.outstanding == map[]
            && s.inFlight == PerCategory(0, 0)
            && s.controllers == PerCategory(Control(2.0, 16.0, SlowStart, 1, 32), Control(2.0, 16.0, SlowStart, 1, 32))
  {
    hide Inv, Run, PerformShutdown, OnContext, Grows;
    var s := After(timeout, steps);
    var s' := PerformShutdown(s, rpcReplies, replies);
    KnownAfter(timeout, steps);
    ShutdownEndsQuery(s, rpcReplies, replies);
    PerformShutdownInv(s, rpcReplies, replies);
    RunDisconnected(Init(timeout), steps);
    ShutdownDisconnects(s, rpcReplies, replies);
    ShutdownResets(s, rpcReplies, replies);
    AnewIsDefault(s');
    QueueGone(s');
    forall id ensures id !in s'.outstanding {
      OnOneContext(s'.outstanding, id);
    }
  }

  lemma QueueGone(s: State)
    requires Inv(s, {}, None) && !s.context
    ensures s.pending == []
  {
  }

  lemma ShutdownResets(s: State, rpcReplies: seq<Reply>, replies: seq<Reply>)
    requires Inv(s, {}, None) && (s.context || s.active != map[])
    ensures var s' := PerformShutdown(s, rpcReplies, replies);
            && s'.handles == map[] && s'.inFlight == PerCategory(0, 0)
            && Anew(s'.controllers.bulk) && Anew(s'.controllers.metadata)
  {
    hide Inv, CleanupExports, Grows;
  }

  predicate Anew(k: Control) {
    k.depth == 2.0 && k.ssthresh == 16.0 && k.phase == SlowStart
  }

  lemma AnewIsDefault(s: State)
    requires Inv(s, {}, None) && Anew(s.controllers.bulk) && Anew(s.controllers.metadata)
    ensures s.controllers == PerCategory(Control(2.0, 16.0, SlowStart, 1, 32), Control(2.0, 16.0, SlowStart, 1, 32))
  {
    assert Slots(s, Bulk) && Slots(s, Metadata);
  }

  /** A failed event, unlike the guarded shutdown, forgets no handle: they stay registered without a context. */
  lemma FailedEventKeepsHandles(s: State, replies: seq<Reply>, result: int, destroyReplies: seq<Reply>)
    requires s.context && result < 0
    ensures var s' := Apply(s, DoIO(replies, result, destroyReplies));
            s'.handles == s.handles && s'.nextHandleID == s.nextHandleID && !s'.context
  {
    hide CallbackAll, Grows, OnContext, PendingIDs;
  }
}
