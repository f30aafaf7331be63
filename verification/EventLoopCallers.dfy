/** With what every caller is resumed by an event, a shutdown or a timeout scan, on every run. */
module EventLoopCallers {
  import opened Common
  import opened Pipeline
  import opened EventLoopModel
  import opened EventLoopInvariants
  import opened EventLoopParts
  import opened EventLoopSafety
  import opened EventLoopRuns
  import opened EventLoopTheorems
  import opened EventLoopAccounting
  import opened EventLoopBorrowing
  import opened EventLoopOutcomes
  import opened EventLoopRequests
  import opened EventLoopQuery
  import opened EventLoopServing

  lemma {:induction false} FirstOfTwo(a: seq<Reply>, b: seq<Reply>, id: ID)
    ensures FirstReply(a + b, id) == if FirstReply(a, id).Some? then FirstReply(a, id) else FirstReply(b, id)
    decreases |a|
  {
    if a == [] {
      assert a + b == b;
    } else {
      assert (a + b)[1..] == a[1..] + b;
      FirstOfTwo(a[1..], b, id);
    }
  }

  // ---- destruction ----------------------------------------------------------------------------

  /** What a registered caller is told when its context is destroyed: what the first answer to its call means if there
      is one, and the shutdown's own error otherwise. */
  function LastWord(s: State, replies: seq<Reply>, id: ID, e: PosixError): Outcome {
    var r := FirstReply(replies, id);
    if id in s.outstanding && !s.outstanding[id].kind.Exports? && r.Some?
    then Meaning(false, r.value.status, r.value.handled)
    else Threw(e)
  }

  lemma DestroySettles(s: State, replies: seq<Reply>, id: ID, detached: set<ID>)
    requires Inv(s, detached, None) && s.context && s.active == map[] && s.pending == []
    ensures Outcomes(DestroyContext(s, replies), id)
         == if id in s.outstanding && !s.outstanding[id].kind.Exports?
            then Settled(StandingOf(s, id), false, FirstReply(replies, id)).outcomes else Outcomes(s, id)
  {
    hide WellFormed, ResumedOnce, RetainsMatch, NoneLost, BuffersMatch, HandlesMatch, SlotsFit, CallbackAll,
         OnContext, Grows, Settled;
    var s1 := s.(context := false, trace := s.trace + [Destroy]);
    HandlesCall(s.trace, s.handles, s.openings, s.reopened, s.nextHandleID, Destroy);
    ContextGone(s);
    if id in s.outstanding && !s.outstanding[id].kind.Exports? {
      AnswersSettle(s1, replies, false, id, detached);
    } else {
      AnswersSpare(s1, replies, false, id, detached);
    }
  }

  lemma SnapshotResumed(s: State, ids: set<ID>, id: ID, o: Outcome)
    requires Inv(s, ids - s.hasResumed, None) && id in ids
    ensures Outcomes(ResumeAll(s, ids, o), id) == if Outcomes(s, id) == [] then [o] else Outcomes(s, id)
  {
    hide WellFormed, RetainsMatch, NoneLost, BuffersMatch, HandlesMatch, SlotsFit, Grows;
  }

  lemma RegisteredFacts(s: State, id: ID)
    requires Inv(s, {}, None) && id in s.active
    ensures Outcomes(s, id) == [] && id !in s.hasResumed && 1 <= id < s.nextID
  {
  }

  /** Whoever is registered when the registries are emptied is resumed with its last word. */
  lemma DetachedResumed(s: State, s1: State, replies: seq<Reply>, e: PosixError, id: ID)
    requires Inv(s, {}, None) && s.context && id in s.active
    requires s1 == Detach(s) || s1 == Detach(s).(handles := map[])
    ensures Outcomes(ResumeAll(DestroyContext(s1, replies), s.active.Keys, Threw(e)), id)
         == [LastWord(s, replies, id, e)]
  {
    hide Inv, DestroyContext, ResumeAll, PendingIDs, FirstReply, Meaning;
    DetachInv(s);
    ForgetInv(s);
    DestroyContextInv(s1, replies, s.active.Keys);
    RegisteredFacts(s, id);
    DestroySettles(s1, replies, id, s.active.Keys);
    SnapshotResumed(DestroyContext(s1, replies), s.active.Keys, id, Threw(e));
  }

  // ---- events of the mounted context ------------------------------------------------------------

  /** The caller of an outstanding call is resumed by an event with what the first reply to it means; a failed event
      destroys the context, which may bring that reply, and whoever got none is told ENOTCONN. */
  lemma EventResumes(timeout: int, steps: seq<Step>, replies: seq<Reply>, result: int, destroyReplies: seq<Reply>,
                     id: ID)
    requires var s := After(timeout, steps);
             id in s.active && id in s.outstanding && !s.outstanding[id].kind.Exports?
    ensures var s' := Apply(After(timeout, steps), DoIO(replies, result, destroyReplies));
            var r := FirstReply(if result < 0 then replies + destroyReplies else replies, id);
            Outcomes(s', id) == if r.Some? then [Meaning(false, r.value.status, r.value.handled)]
                                else if result < 0 then [Threw(ENOTCONN)] else []
  {
    hide Inv, Run, CallbackAll, ShutdownWithError, IssuePending, Grows, Meaning, FirstReply, PendingIDs;
    var s := After(timeout, steps);
    var s1 := CallbackAll(s, replies, false);
    RunInv(timeout, steps);
    NoContextMeansDown(timeout, steps);
    RegisteredFacts(s, id);
    ServicedInv(s, replies, false);
    AnswersSettle(s, replies, false, id, {});
    if result < 0 {
      FirstOfTwo(replies, destroyReplies, id);
      ErrorResumes(s1, ENOTCONN, destroyReplies, id);
    } else {
      IssuingServes(s1, id, {});
    }
  }

  /** An error shutdown tells every registered caller its last word and nobody else anything. */
  lemma ErrorResumes(s: State, e: PosixError, replies: seq<Reply>, id: ID)
    requires Inv(s, {}, None) && s.context
    ensures Outcomes(ShutdownWithError(s, e, replies), id)
         == if id in s.active then [LastWord(s, replies, id, e)] else Outcomes(s, id)
  {
    hide Inv, DestroyContext, Grows, LastWord, PendingIDs;
    if id in s.active {
      DetachedResumed(s, Detach(s), replies, e, id);
    } else {
      OthersKeep(s, Detach(s), replies, e, id);
    }
  }

  lemma OthersKeep(s: State, s1: State, replies: seq<Reply>, e: PosixError, id: ID)
    requires Inv(s, {}, None) && s.context && id !in s.active
    requires s1 == Detach(s) || s1 == Detach(s).(handles := map[])
    ensures Outcomes(ResumeAll(DestroyContext(s1, replies), s.active.Keys, Threw(e)), id) == Outcomes(s, id)
  {
    hide Inv, DestroyContext, PendingIDs, FirstReply, Meaning, Grows;
    DetachInv(s);
    ForgetInv(s);
    DestroySettles(s1, replies, id, s.active.Keys);
    if id in s.outstanding {
      ResumedBefore(s, id);
    }
  }

  lemma ResumedBefore(s: State, id: ID)
    requires Inv(s, {}, None) && id in s.outstanding && id !in s.active
    ensures Outcomes(s, id) != []
  {
    OutstandingFacts(s, id, {});
  }

  // ---- the guarded shutdown -----------------------------------------------------------------------

  lemma ShutdownTells(s: State, rpcReplies: seq<Reply>, replies: seq<Reply>, id: ID)
    requires Inv(s, {}, None) && s.context
    ensures var s0 := CleanupExports(s, rpcReplies);
            Outcomes(PerformShutdown(s, rpcReplies, replies), id)
            == if id in s0.active then [LastWord(s0, replies, id, ENOTCONN)] else Outcomes(s0, id)
  {
    hide Inv, DestroyContext, CleanupExports, Grows, LastWord, PendingIDs, Restarted;
    var s0 := CleanupExports(s, rpcReplies);
    var s1 := Detach(s0).(handles := map[]);
    CleanupExportsInv(s, rpcReplies);
    if id in s0.active {
      DetachedResumed(s0, s1, replies, ENOTCONN, id);
    } else {
      OthersKeep(s0, s1, replies, ENOTCONN, id);
    }
    SameOutcomes(ResumeAll(DestroyContext(s1, replies), s0.active.Keys, Threw(ENOTCONN)),
                 PerformShutdown(s, rpcReplies, replies), id);
  }

  lemma SameOutcomes(s: State, s': State, id: ID)
    requires s'.delivered == s.delivered
    ensures Outcomes(s', id) == Outcomes(s, id)
  {
  }

  lemma {:induction false} NotAnswered(s: State, replies: seq<Reply>)
    requires forall id :: id in Queries(s) ==> FirstReply(replies, id) == None
    ensures CallbackAll(s, replies, true) == s
    decreases |replies|
  {
    hide Callback, OnContext, Framed;
    if replies != [] {
      OnOneContext(s.outstanding, replies[0].id);
      assert forall id :: id in Queries(s) ==> FirstReply(replies[1..], id) == FirstReply(replies, id);
      NotAnswered(s, replies[1..]);
    }
  }

  /** Cleaning up issues nothing unless the query is answered in it. */
  lemma NobodyIssued(s: State, replies: seq<Reply>)
    requires QueryKnown(s) && (s.exports.Some? ==> FirstReply(replies, s.exports.value) == None)
    ensures CleanupExports(s, replies).pending == s.pending
  {
    hide CallbackAll, OnContext, Grows, FirstReply;
    if s.exports.Some? {
      NotAnswered(s.(exports := None), replies);
    }
  }

  /** The guarded shutdown tells the query's caller what the answer on the query's own context means, the callers of the
      other calls what the answers on the mounted one mean, and everybody else ENOTCONN. Only a queued operation can
      still be issued before, when the query's answer frees a slot. */
  lemma ShutdownResumes(timeout: int, steps: seq<Step>, rpcReplies: seq<Reply>, replies: seq<Reply>, id: ID)
    requires id in After(timeout, steps).active
    ensures var s := After(timeout, steps); var s' := Apply(s, DoShutdown(rpcReplies, replies));
            var freed := CleanupExports(s, rpcReplies);
            var issued := id in PendingIDs(s.pending) && id !in PendingIDs(freed.pending);
            var onQuery, onMount := FirstReply(rpcReplies, id), FirstReply(replies, id);
            && Outcomes(s', id)
               == (if s.exports == Some(id) && onQuery.Some?
                   then [Meaning(true, onQuery.value.status, onQuery.value.handled)]
                   else if issued && CodeOf(s.pending, id) < 0 then [Threw(Code(-CodeOf(s.pending, id)))]
                   else if s.exports != Some(id) && id in freed.outstanding && onMount.Some?
                   then [Meaning(false, onMount.value.status, onMount.value.handled)]
                   else [Threw(ENOTCONN)])
            && (id in s.outstanding && s.exports != Some(id) ==> id in freed.outstanding)
            && (issued ==> s.exports.Some? && FirstReply(rpcReplies, s.exports.value).Some?)
  {
    hide Inv, Run, CleanupExports, PerformShutdown, Grows, Meaning, PendingIDs, FirstReply, CodeOf, OnContext;
    var s := After(timeout, steps);
    KnownAfter(timeout, steps);
    NoContextMeansDown(timeout, steps);
    RegisteredFacts(s, id);
    CleanupEndsQuery(s, rpcReplies);
    OnOneContext(s.outstanding, id);
    OnOneContext(CleanupExports(s, rpcReplies).outstanding, id);
    if s.exports.None? || FirstReply(rpcReplies, s.exports.value).None? {
      NobodyIssued(s, rpcReplies);
    }
    if id in s.outstanding {
      OutstandingNotQueued(s, id, {});
    }
    ShutdownTells(s, rpcReplies, replies, id);
    CleanupServes(s, rpcReplies, id);
  }

  // ---- closing a forgotten handle ---------------------------------------------------------------

  /** Closing a handle for an owner that is gone waits for the answer: the calls that libnfs answers meanwhile resume
      their callers as in an event. */
  lemma ForgetResumes(timeout: int, steps: seq<Step>, h: ID, replies: seq<Reply>, id: ID)
    requires var s := After(timeout, steps);
             h in s.handles && id in s.active && id in s.outstanding && !s.outstanding[id].kind.Exports?
    ensures var s' := Apply(After(timeout, steps), DoForget(h, replies)); var r := FirstReply(replies, id);
            Outcomes(s', id) == if r.Some? then [Meaning(false, r.value.status, r.value.handled)] else []
  {
    hide Inv, Run, CallbackAll, Grows, Meaning, FirstReply, PendingIDs;
    var s := After(timeout, steps);
    RunInv(timeout, steps);
    NoContextMeansDown(timeout, steps);
    RegisteredFacts(s, id);
    ClosedInv(s, h);
    AnswersSettle(s.(handles := s.handles - {h}, trace := s.trace + [Close(h, s.handles[h])]), replies, false, id, {});
  }

  // ---- events of the query's context --------------------------------------------------------------

  /** The query's caller is resumed by an event of the query with what the first reply means; a failed event destroys
      the context, which may bring that reply. */
  lemma QueryResumes(timeout: int, steps: seq<Step>, replies: seq<Reply>, result: int, destroyReplies: seq<Reply>,
                     id: ID)
    requires var s := After(timeout, steps); s.exports == Some(id) && id in s.active
    ensures var s' := Apply(After(timeout, steps), DoRpc(replies, result, destroyReplies));
            var r := FirstReply(if result < 0 then replies + destroyReplies else replies, id);
            Outcomes(s', id) == if r.Some? then [Meaning(true, r.value.status, r.value.handled)] else []
  {
    hide Inv, Run, CallbackAll, CleanupExports, Grows, Meaning, FirstReply, PendingIDs, OnContext;
    var s := After(timeout, steps);
    var s1 := CallbackAll(s, replies, true);
    KnownAfter(timeout, steps);
    RegisteredFacts(s, id);
    OnOneContext(s.outstanding, id);
    ServicedInv(s, replies, true);
    AnswersSettle(s, replies, true, id, {});
    AnswersEndQuery(s, replies, true, {});
    FirstOfTwo(replies, destroyReplies, id);
    if FirstReply(replies, id).Some? {
      AnsweredQueryStays(s1, destroyReplies, id);
    } else if result < 0 {
      CleanupServes(s1, destroyReplies, id);
    }
  }

  lemma AnsweredQueryStays(s: State, replies: seq<Reply>, id: ID)
    requires Inv(s, {}, None) && QueryEnded(s)
    ensures Outcomes(CleanupExports(s, replies), id) == Outcomes(s, id)
  {
    hide Inv, CallbackAll, Grows, OnContext;
    if s.exports.Some? {
      NotAnswered(s.(exports := None), replies);
    }
  }

  // ---- timeouts -----------------------------------------------------------------------------------

  /** The registered continuations that have waited longer than the timeout, in the order the dictionary yields them. */
  ghost predicate Overdue(s: State, now: int, order: seq<ID>) {
    && (forall i, j :: 0 <= i < j < |order| ==> order[i] != order[j])
    && (forall id :: id in order <==> id in s.active && s.active[id].startTime + s.timeout < now)
  }

  /** A scan resumes with ETIMEDOUT exactly the registered continuations that have waited longer than the timeout, each
      for the first time; the others stay registered, unless they are queued and rejected by libnfs because the scan
      ends a query whose answer frees a slot. Without a timeout a scan does nothing. */
  lemma ScanTimesOut(timeout: int, steps: seq<Step>, now: int, order: seq<ID>, rpcReplies: seq<Reply>, id: ID)
    requires Overdue(After(timeout, steps), now, order)
    ensures var s := After(timeout, steps); var s' := Apply(s, DoTimeouts(now, order, rpcReplies));
            var late := timeout > 0 && id in s.active && s.active[id].startTime + timeout < now;
            && (Threw(ETIMEDOUT) in Outcomes(s', id) && Threw(ETIMEDOUT) !in Outcomes(s, id) <==> late)
            && (late ==> Outcomes(s', id) == [Threw(ETIMEDOUT)] && id !in s'.active)
            && (id in s.active && !late ==>
                  (id in s'.active && Outcomes(s', id) == [])
                  || (id in PendingIDs(s.pending) && CodeOf(s.pending, id) < 0
                      && Outcomes(s', id) == [Threw(Code(-CodeOf(s.pending, id)))]))
            && (timeout <= 0 ==> s' == s)
  {
    hide Inv, Run, CleanupExports, TimeoutAll, Grows, PendingIDs, CodeOf, OnContext, StandingOf;
    var s := After(timeout, steps);
    KnownAfter(timeout, steps);
    TimeoutStays(timeout, steps);
    OverdueIsExpired(s, now, order);
    if id in s.active {
      RegisteredFacts(s, id);
    }
    if timeout > 0 {
      ScanStanding(s, order, id);
      ScanServes(s, order, rpcReplies, id);
      TellsOutcomes(s, ScanForTimeouts(s, order, rpcReplies), id);
    }
  }

  lemma OverdueIsExpired(s: State, now: int, order: seq<ID>)
    requires Overdue(s, now, order)
    ensures Enumerates(order, Expired(s, now)) && Enumerates(order, set x | x in order)
    ensures forall x :: x in order ==> x in s.active
  {
    forall id ensures id in (set x | x in order) <==> id in Expired(s, now) {
    }
  }

  lemma TimeoutStays(timeout: int, steps: seq<Step>)
    ensures After(timeout, steps).timeout == timeout
  {
    hide Inv, Run, Kept;
    InitInv(timeout);
    NothingOpenYet(timeout);
    RunKept(Init(timeout), steps);
  }

  lemma TellsOutcomes(s: State, s': State, id: ID)
    ensures StandingOf(s, id).outcomes == Outcomes(s, id) && StandingOf(s', id).outcomes == Outcomes(s', id)
    ensures (StandingOf(s, id).active <==> id in s.active) && (StandingOf(s', id).active <==> id in s'.active)
  {
  }

  lemma ScanStanding(s: State, order: seq<ID>, id: ID)
    requires Inv(s, {}, None) && Enumerates(order, set x | x in order) && forall x :: x in order ==> x in s.active
    ensures var s1 := TimeoutAll(s, order);
            && s1.pending == s.pending && Inv(s1, {}, None)
            && StandingOf(s1, id) == if id in order then Standing([Threw(ETIMEDOUT)], false, StandingOf(s, id).call)
                                     else StandingOf(s, id)
  {
    hide Inv, TimeoutAll, Repeat;
    CountIsNatural(s, Bulk);
    CountIsNatural(s, Metadata);
    TimeoutAllInv(s, order);
    TimeoutAllIsTimedOut(s, order);
    if id in s.active {
      RegisteredFacts(s, id);
    }
    if id in order {
      assert [] + [Threw(ETIMEDOUT)] == [Threw(ETIMEDOUT)];
    }
  }

  /** What follows the timeouts, the end of a query whose caller has timed out, is issuing for everybody. */
  lemma ScanServes(s: State, order: seq<ID>, rpcReplies: seq<Reply>, id: ID)
    requires Inv(s, {}, None) && QueryKnown(s) && s.timeout > 0
    ensures var s1, s' := TimeoutAll(s, order), ScanForTimeouts(s, order, rpcReplies);
            var before, after, rc := StandingOf(s1, id), StandingOf(s', id), CodeOf(s1.pending, id);
            || (after.outcomes == before.outcomes && after.active == before.active)
            || (id in PendingIDs(s1.pending) && rc < 0 && !after.active
                && after.outcomes == if before.outcomes == [] then [Threw(Code(-rc))] else before.outcomes)
  {
    hide Inv, TimeoutAll, CleanupExports, PendingIDs, CodeOf, OnContext, StandingOf, Meaning;
    var s1 := TimeoutAll(s, order);
    TimeoutAllInv(s, order);
    TimeoutsLeaveQuery(s, order);
    CleanupServes(s1, rpcReplies, id);
    OnOneContext(s1.outstanding, id);
    TellsOutcomes(s1, s1, id);
    if s1.exports == Some(id) && id !in s1.active {
      ResumedBefore(s1, id);
    }
  }

  /** A scan ends the export query iff the query's caller is no longer registered or has waited longer than the
      timeout. */
  lemma ScanEndsQueryIff(timeout: int, steps: seq<Step>, now: int, order: seq<ID>, rpcReplies: seq<Reply>)
    requires Overdue(After(timeout, steps), now, order)
    ensures var s := After(timeout, steps); var s' := Apply(s, DoTimeouts(now, order, rpcReplies));
            s.exports.Some? ==>
              var id := s.exports.value;
              if timeout > 0 && (id in s.active ==> s.active[id].startTime + timeout < now)
              then s'.exports == None && id !in s'.outstanding
              else s'.exports == s.exports && id in s'.outstanding
  {
    hide Inv, Run, CleanupExports, TimeoutAll, Grows, OnContext, StandingOf;
    var s := After(timeout, steps);
    KnownAfter(timeout, steps);
    TimeoutStays(timeout, steps);
    OverdueIsExpired(s, now, order);
    StepKnown(s, DoTimeouts(now, order, rpcReplies));
    if s.exports.Some? {
      var id, s1 := s.exports.value, TimeoutAll(s, order);
      ScanStanding(s, order, id);
      TellsOutcomes(s, s1, id);
      TimeoutsLeaveQuery(s, order);
      CleanupEndsQuery(s1, rpcReplies);
      CleanupServes(s1, rpcReplies, id);
      OnOneContext(s.outstanding, id);
      OnOneContext(Apply(s, DoTimeouts(now, order, rpcReplies)).outstanding, id);
      TimeoutsKeepCalls(s, order);
      CallOf(s1, id);
      CallOf(CleanupExports(s1, rpcReplies), id);
    }
  }

  // ---- results are libnfs's own -------------------------------------------------------------------

  lemma DirectFresh(s: State, s1: State, cb: CallbackData, rc: int, e: PosixError)
    requires s1.delivered == s.delivered && s1.answers == s.answers
    ensures Fresh(s, CallDirectly(s1, cb, rc, e))
  {
    hide CallDirectly, Fresh, EndedBuffers;
    DirectFields(s1, cb, rc, e);
    if rc < 0 {
      FreshOne(s, CallDirectly(s1, cb, rc, e), cb.id, Threw(e));
    } else {
      FreshSame(s, CallDirectly(s1, cb, rc, e));
    }
  }

  lemma StartedQuietly(s: State, cb: CallbackData)
    ensures Started(s, cb).delivered == s.delivered && Started(s, cb).answers == s.answers
  {
  }

  lemma HandleFresh(s: State, h: ID, op: HandleOp, now: int, rc: int)
    ensures Fresh(s, CallHandle(s, h, op, now, rc))
  {
    hide CallDirectly, Started, Fresh, Quiet, Contained;
    var cb := CallbackData(s.nextID, Handle(h, op), HandleCategory(op), now);
    if h in s.handles && s.context {
      StartedQuietly(s, cb);
      DirectFresh(s, Touched(Started(s, cb), h, s.handles[h], op), cb, rc, Code(-rc));
    } else {
      FreshSame(s, CallHandle(s, h, op, now, rc));
    }
  }

  lemma MountFresh(s: State, now: int, rc: int)
    ensures Fresh(s, CallMount(s, now, rc))
  {
    hide CallDirectly, Started, Fresh, Quiet, Contained;
    var cb := CallbackData(s.nextID, Mount, Metadata, now);
    if s.context {
      StartedQuietly(s, cb);
      var s1 := Started(s, cb);
      DirectFresh(s, s1.(trace := s1.trace + [Issue(cb.id)]), cb, rc, Code(-rc));
    } else {
      FreshSame(s, CallMount(s, now, rc));
    }
  }

  lemma StartExportsFresh(s: State, now: int, rc: int)
    ensures Fresh(s, StartExports(s, now, rc))
  {
    hide CallDirectly, Started, Fresh, Quiet, Contained;
    var cb := CallbackData(s.nextID, Exports, Metadata, now);
    StartedQuietly(s, cb);
    var s1 := Started(s, cb);
    DirectFresh(s, s1.(exports := if rc < 0 then None else Some(cb.id), exportsDone := false), cb, rc, EIO);
  }

  lemma RefusedFresh(s: State, e: PosixError)
    ensures Fresh(s, Refuse(s, e))
  {
    hide Fresh, Quiet, Contained;
    FreshSame(s, Refuse(s, e));
  }

  lemma GetExportsFresh(s: State, rpcAvailable: bool, now: int, rc: int)
    ensures Fresh(s, CallGetExports(s, rpcAvailable, now, rc))
  {
    hide StartExports, Refuse, Fresh, Quiet, Contained;
    StartExportsFresh(s, now, rc);
    RefusedFresh(s, ENOTCONN);
    RefusedFresh(s, EBUSY);
    RefusedFresh(s, ENOMEM);
  }

  lemma IssuedFresh(s: State, op: PendingOperation)
    ensures Fresh(s, IssueOperation(Activate(s, op.cb).(submitted := s.submitted + [op]), op.cb, op.rc))
  {
    hide Execute, Fresh, Contained;
    var s1 := Retain(Activate(s, op.cb).(submitted := s.submitted + [op]), op.cb.id);
    assert op == PendingOperation(op.cb, op.rc);
    FreshSame(s, s1);
    ExecuteFresh(s1, op);
    FreshTwice(s, s1, Execute(s1, op));
  }

  lemma QueuedFresh(s: State, op: PendingOperation)
    ensures Fresh(s, Overflow(Activate(s, op.cb), op.cb.id)) && Fresh(s, Enqueue(Activate(s, op.cb), op))
  {
    hide Fresh, Contained;
    FreshOne(s, Overflow(Activate(s, op.cb), op.cb.id), op.cb.id, Threw(ENOBUFS));
    FreshSame(s, Enqueue(Activate(s, op.cb), op));
  }

  lemma SubmitFresh(s: State, c: Category, now: int, rc: int)
    ensures Fresh(s, Submit(s, c, now, rc))
  {
    hide IssueOperation, Overflow, Enqueue, Refuse, Fresh, Contained, IntegerDepth;
    var op := PendingOperation(CallbackData(s.nextID, Gated, c, now), rc);
    IssuedFresh(s, op);
    QueuedFresh(s, op);
    RefusedFresh(s, ENOTCONN);
  }

  lemma OpenFresh(s: State, fh: Nfsfh)
    ensures Fresh(s, OpenHandle(s, fh))
  {
  }

  lemma ForgetFresh(s: State, h: ID, replies: seq<Reply>)
    ensures Fresh(s, CloseFireAndForget(s, h, replies))
  {
    hide CallbackAll, Fresh, Grows;
    if h in s.handles && s.context {
      var s1 := s.(handles := s.handles - {h}, trace := s.trace + [Close(h, s.handles[h])]);
      FreshSame(s, s1);
      AnswersFresh(s1, replies, false);
      FreshTwice(s, s1, CallbackAll(s1, replies, false));
    } else {
      FreshSame(s, CloseFireAndForget(s, h, replies));
    }
  }

  lemma SnapshotFresh(s: State, s1: State, e: PosixError, replies: seq<Reply>, ids: set<ID>)
    requires s1.delivered == s.delivered && s1.answers == s.answers
    ensures Fresh(s, ResumeAll(if s1.context then DestroyContext(s1, replies) else s1, ids, Threw(e)))
  {
    hide DestroyContext, ResumeAll, Fresh;
    var s2 := if s1.context then DestroyContext(s1, replies) else s1;
    FreshSame(s, s1);
    if s1.context {
      DestroyFresh(s1, replies);
      FreshTwice(s, s1, s2);
    }
    ResumeAllFresh(s2, ids, e);
    FreshTwice(s, s2, ResumeAll(s2, ids, Threw(e)));
  }

  lemma ShutdownFresh(s: State, rpcReplies: seq<Reply>, replies: seq<Reply>)
    ensures Fresh(s, PerformShutdown(s, rpcReplies, replies))
  {
    hide DestroyContext, ResumeAll, CleanupExports, Fresh, Grows, PendingIDs, Restarted;
    var s' := PerformShutdown(s, rpcReplies, replies);
    if !s.context && s.active == map[] {
      FreshSame(s, s');
    } else {
      var s0 := CleanupExports(s, rpcReplies);
      var s1 := Detach(s0).(handles := map[]);
      var s3 := ResumeAll(if s1.context then DestroyContext(s1, replies) else s1, s0.active.Keys, Threw(ENOTCONN));
      CleanupFresh(s, rpcReplies);
      SnapshotFresh(s0, s1, ENOTCONN, replies, s0.active.Keys);
      FreshTwice(s, s0, s3);
      FreshSame(s3, s');
      FreshTwice(s, s3, s');
    }
  }

  lemma {:induction false} TimeoutsFresh(s: State, order: seq<ID>)
    ensures Fresh(s, TimeoutAll(s, order))
    decreases |order|
  {
    hide TimeoutOne, Fresh, Grows;
    if order == [] {
      FreshSame(s, s);
    } else {
      TimeoutFresh(s, order[0]);
      TimeoutsFresh(TimeoutOne(s, order[0]), order[1..]);
      FreshTwice(s, TimeoutOne(s, order[0]), TimeoutAll(s, order));
    }
  }

  lemma TimeoutFresh(s: State, id: ID)
    ensures Fresh(s, TimeoutOne(s, id))
  {
    hide Fresh, Grows, Record;
    if id in s.active && id !in s.hasResumed {
      FreshOne(s, TimeoutOne(s, id), id, Threw(ETIMEDOUT));
    } else {
      FreshSame(s, TimeoutOne(s, id));
    }
  }

  lemma StepFresh(s: State, step: Step)
    ensures Fresh(s, Apply(s, step))
  {
    hide CallbackAll, CleanupExports, PerformShutdown, TimeoutAll, Submit, CallHandle, CallMount, CallGetExports,
         OpenHandle, IssuePending, Grows, Fresh, CloseFireAndForget, DestroyContext, ResumeAll, PendingIDs;
    match step
    case DoIO(replies, result, destroyReplies) =>
      var s1 := CallbackAll(s, replies, false);
      AnswersFresh(s, replies, false);
      SnapshotFresh(s1, Detach(s1), ENOTCONN, destroyReplies, s1.active.Keys);
      IssuePendingFresh(s1);
      FreshTwice(s, s1, if result < 0 then ShutdownWithError(s1, ENOTCONN, destroyReplies) else IssuePending(s1));
      FreshSame(s, s);
    case DoRpc(replies, result, destroyReplies) =>
      var s1 := CallbackAll(s, replies, true);
      AnswersFresh(s, replies, true);
      CleanupFresh(s1, destroyReplies);
      FreshTwice(s, s1, CleanupExports(s1, destroyReplies));
      FreshSame(s, s);
    case DoTimeouts(now, order, rpcReplies) =>
      var s1 := TimeoutAll(s, order);
      TimeoutsFresh(s, order);
      CleanupFresh(s1, rpcReplies);
      FreshTwice(s, s1, CleanupExports(s1, rpcReplies));
      FreshSame(s, s);
    case DoShutdown(rpcReplies, replies) => ShutdownFresh(s, rpcReplies, replies);
    case DoForget(h, replies) => ForgetFresh(s, h, replies);
    case DoSubmit(c, now, rc) => SubmitFresh(s, c, now, rc);
    case DoHandle(h, op, now, rc) => HandleFresh(s, h, op, now, rc);
    case DoMount(now, rc) => MountFresh(s, now, rc);
    case DoGetExports(available, now, rc) => GetExportsFresh(s, available, now, rc);
    case DoOpen(fh) => OpenFresh(s, fh);
  }

  lemma {:induction false} RunFresh(s: State, steps: seq<Step>)
    ensures Fresh(s, Run(s, steps))
    decreases |steps|
  {
    hide Apply, Fresh;
    if steps == [] {
      FreshSame(s, s);
    } else {
      StepFresh(s, steps[0]);
      RunFresh(Apply(s, steps[0]), steps[1..]);
      FreshTwice(s, Apply(s, steps[0]), Run(s, steps));
    }
  }

  /** Nobody is told of a success that libnfs did not report: a caller is resumed with a status only if libnfs has
      answered its own call with that status, that is no error for a call of its kind, and its data was handled. */
  lemma ReturnedOnlyIfAnswered(timeout: int, steps: seq<Step>, id: ID, status: int)
    requires Returned(status) in Outcomes(After(timeout, steps), id)
    ensures exists i :: var answers := After(timeout, steps).answers;
              && 0 <= i < |answers| && answers[i].reply == Reply(id, status, true)
              && if answers[i].kind == Exports then status == 0 else status >= 0
  {
    hide Run;
    RunFresh(Init(timeout), steps);
    var answers := After(timeout, steps).answers;
    assert AnsweredWith(answers, id, status);
    var i :| 0 <= i < |answers| && ReturnsTo(answers[i], id, status);
  }
}
