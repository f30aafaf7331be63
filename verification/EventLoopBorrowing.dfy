/**
 What libnfs still holds after a caller has been resumed. A caller's buffer is lent to libnfs until its call is
 answered; only a timeout gives control back to the caller before that.
 */
module EventLoopBorrowing {
  import opened Common
  import opened Pipeline
  import opened EventLoopModel
  import opened EventLoopInvariants
  import opened EventLoopParts
  import opened EventLoopSafety
  import opened EventLoopRuns
  import opened EventLoopTheorems
  import opened EventLoopAccounting

  /** The calls of the mounted context that are queued or not yet answered. */
  function Open(s: State): set<ID> {
    OnContext(s.outstanding, false) + PendingIDs(s.pending)
  }

  /** The caller of every open call is still waiting, unless it has timed out. */
  ghost predicate Late(open: set<ID>, active: set<ID>, timeout: int, delivered: map<ID, seq<Outcome>>) {
    forall id :: id in open ==> id in active || (timeout > 0 && OutcomesIn(delivered, id) == [Threw(ETIMEDOUT)])
  }

  ghost predicate LateOnly(s: State) {
    Late(Open(s), s.active.Keys, s.timeout, s.delivered)
  }

  // ---- elementary changes -----------------------------------------------------------------

  /** Fewer open calls; of the rest, none is unregistered or resumed. */
  lemma LateShrinks(open: set<ID>, open': set<ID>, active: set<ID>, active': set<ID>, timeout: int,
                    delivered: map<ID, seq<Outcome>>, delivered': map<ID, seq<Outcome>>)
    requires Late(open, active, timeout, delivered) && open' <= open
    requires forall id :: id in open' && id in active ==> id in active'
    requires forall id :: id in open' ==> OutcomesIn(delivered', id) == OutcomesIn(delivered, id)
    ensures Late(open', active', timeout, delivered')
  {
  }

  lemma ExecuteFields(s: State, op: PendingOperation)
    ensures var s', id := Execute(s, op), op.cb.id;
            && s'.active == (if op.rc < 0 then s.active - {id} else s.active) && s'.timeout == s.timeout
            && (forall x :: x != id || op.rc >= 0 ==> OutcomesIn(s'.delivered, x) == OutcomesIn(s.delivered, x))
  {
    hide Framed;
  }

  lemma OpenAfterExecute(s: State, i: int)
    requires Registered(s, None) && 0 <= i < |s.pending|
    ensures var s' := ExecuteAt(s, i); var id := s.pending[i].cb.id;
            && Open(s') == (if s.pending[i].rc < 0 then Open(s) - {id} else Open(s))
            && (forall x :: x in Open(s') && x in s.active ==> x in s'.active)
            && (forall x :: x in Open(s') ==> Outcomes(s', x) == Outcomes(s, x))
  {
    hide Framed, Execute, OnContext, PendingIDs;
    var op := s.pending[i];
    var called, queued, id := OnContext(s.outstanding, false), PendingIDs(s.pending), op.cb.id;
    QueueAfterRemoval(s.pending, i);
    QueuedIsGated(s, i);
    ExecuteFields(s.(pending := RemoveAt(s.pending, i)), op);
    AcceptedOpens(s.outstanding, op.cb);
    NotOnContext(s.outstanding, id);
    MoveID(called, queued, id);
  }

  /** An ID moves from one set to the other, or leaves both. */
  lemma MoveID(called: set<ID>, queued: set<ID>, id: ID)
    requires id in queued && id !in called
    ensures called + {id} + (queued - {id}) == called + queued
    ensures called + (queued - {id}) == called + queued - {id}
  {
  }

  lemma AcceptedOpens(m: map<ID, CallbackData>, cb: CallbackData)
    requires cb.id !in m && !cb.kind.Exports?
    ensures OnContext(m[cb.id := cb], false) == OnContext(m, false) + {cb.id}
  {
  }

  lemma {:induction false} IssueFromLate(s: State, i: nat, detached: set<ID>)
    requires Inv(s, detached, None) && s.context && LateOnly(s)
    ensures LateOnly(IssueFrom(s, i)) && Open(IssueFrom(s, i)) <= Open(s)
    decreases |s.pending| - i
  {
    hide WellFormed, ResumedOnce, RetainsMatch, NoneLost, BuffersMatch, HandlesMatch, SlotsFit, Execute, DepthOf, Open,
         Late, Framed;
    if i < |s.pending| {
      var c := s.pending[i].cb.category;
      if s.inFlight.Get(c) < DepthOf(s, c) {
        ExecuteAtInv(s, i, detached);
        ExecuteAtLate(s, i);
        IssueFromLate(ExecuteAt(s, i), i, detached);
      } else {
        IssueFromLate(s, i + 1, detached);
      }
    }
  }

  lemma ExecuteAtLate(s: State, i: int)
    requires Registered(s, None) && 0 <= i < |s.pending| && LateOnly(s)
    ensures LateOnly(ExecuteAt(s, i)) && Open(ExecuteAt(s, i)) <= Open(s) && ExecuteAt(s, i).context == s.context
  {
    hide Execute, Open, Late, Grows;
    var s' := ExecuteAt(s, i);
    OpenAfterExecute(s, i);
    LateShrinks(Open(s), Open(s'), s.active.Keys, s'.active.Keys, s.timeout, s.delivered, s'.delivered);
  }

  lemma IssuePendingLate(s: State, detached: set<ID>)
    requires Inv(s, detached, None) && LateOnly(s)
    ensures LateOnly(IssuePending(s)) && Open(IssuePending(s)) <= Open(s)
  {
    hide Inv, IssueFrom, LateOnly, Open, Framed;
    if s.context {
      IssueFromLate(s, 0, detached);
    }
  }

  // ---- answers ------------------------------------------------------------------------------

  lemma OpenAfterTaking(s: State, r: Reply, success: bool)
    requires Registered(s, None) && r.id in s.outstanding
    ensures var s' := RecordCompletion(Taken(s, r), s.outstanding[r.id].category, success);
            && Open(s') == Open(s) - {r.id} && s'.active == s.active - {r.id}
            && s'.delivered == s.delivered && s'.timeout == s.timeout
  {
    hide Record, EndedBuffers;
    var m, m' := OnContext(s.outstanding, false), OnContext(s.outstanding - {r.id}, false);
    assert m' == m - {r.id};
    assert r.id !in PendingIDs(s.pending);
  }

  lemma AnswerLate(s: State, r: Reply, detached: set<ID>)
    requires Inv(s, detached, None) && r.id in s.outstanding && LateOnly(s)
    ensures LateOnly(Callback(s, r))
  {
    hide WellFormed, ResumedOnce, RetainsMatch, NoneLost, BuffersMatch, HandlesMatch, SlotsFit, IssuePending, Open,
         Late, Framed;
    var cb := s.outstanding[r.id];
    var ok := ReplySucceeds(cb.kind, r);
    var s1 := RecordCompletion(Taken(s, r), cb.category, ok);
    TakenInv(s, r, ok, detached);
    OpenAfterTaking(s, r, ok);
    LateShrinks(Open(s), Open(s1), s.active.Keys, s1.active.Keys, s.timeout, s.delivered, s1.delivered);
    IssuePendingLate(s1, detached + StillWaiting(s, r.id));
    assert r.id !in Open(IssuePending(s1));
    ResumedElsewhere(IssuePending(s1), r.id, ReplyOutcome(cb.kind, r));
  }

  lemma ResumedElsewhere(s: State, id: ID, o: Outcome)
    requires LateOnly(s) && id !in Open(s)
    ensures LateOnly(Resume(s, id, o))
  {
    hide PendingIDs, OnContext;
  }

  lemma {:induction false} AnswersLate(s: State, replies: seq<Reply>, onRpc: bool, detached: set<ID>)
    requires Inv(s, detached, None) && LateOnly(s)
    ensures LateOnly(CallbackAll(s, replies, onRpc))
    decreases |replies|
  {
    hide Inv, Callback, LateOnly;
    if replies != [] {
      if Answers(s, replies[0], onRpc) {
        CallbackInv(s, replies[0], detached);
        AnswerLate(s, replies[0], detached);
        AnswersLate(Callback(s, replies[0]), replies[1..], onRpc, detached - {replies[0].id});
      } else {
        AnswersLate(s, replies[1..], onRpc, detached);
      }
    }
  }

  lemma LosingQueriesKeepsOpen(m: map<ID, CallbackData>)
    ensures OnContext(m - OnContext(m, true), false) == OnContext(m, false)
  {
  }

  lemma CleanupLate(s: State, replies: seq<Reply>)
    requires Inv(s, {}, None) && LateOnly(s)
    ensures LateOnly(CleanupExports(s, replies))
  {
    hide Inv, CallbackAll, Late, OnContext, PendingIDs;
    if s.exports.Some? {
      var s0 := s.(exports := None);
      HistoryInv(s, s0, {}, None);
      AnswersLate(s0, replies, true, {});
      LosingQueriesKeepsOpen(CallbackAll(s0, replies, true).outstanding);
    }
  }

  // ---- requests ------------------------------------------------------------------------------

  lemma NewCallLate(s: State, cb: CallbackData)
    requires Inv(s, {}, None) && LateOnly(s) && cb.id == s.nextID
    ensures LateOnly(Activate(s, cb)) && LateOnly(Started(s, cb)) && cb.id !in Open(s)
    ensures Open(Started(s, cb)) == Open(s) == Open(Activate(s, cb))
  {
    hide PendingIDs, OnContext, ResumedOnce, NoneLost, BuffersMatch, HandlesMatch, SlotsFit;
    NextIDUnused(s);
    NotOnContext(s.outstanding, s.nextID);
  }

  lemma NotOnContext(m: map<ID, CallbackData>, id: ID)
    requires id !in m
    ensures id !in OnContext(m, false)
  {
  }

  lemma AcceptedLate(s: State, cb: CallbackData)
    requires LateOnly(s) && cb.id !in s.outstanding && cb.id in s.active
    ensures LateOnly(Accepted(s, cb))
  {
    if cb.kind.Exports? {
      assert OnContext(s.outstanding[cb.id := cb], false) == OnContext(s.outstanding, false);
    } else {
      AcceptedOpens(s.outstanding, cb);
    }
  }

  /** A rejected call is unregistered and resumed, but it was never open. */
  lemma RejectedLate(s: State, id: ID, rc: int, e: PosixError)
    requires LateOnly(s) && id !in Open(s)
    ensures LateOnly(RejectDirect(s, id, rc, e))
  {
    hide PendingIDs, OnContext, EndedBuffers;
  }

  lemma DirectLate(s: State, cb: CallbackData, rc: int, e: PosixError)
    requires LateOnly(s) && cb.id !in s.outstanding && cb.id in s.active && cb.id !in Open(s)
    ensures LateOnly(CallDirectly(s, cb, rc, e))
  {
    hide RejectDirect, Accepted, LateOnly, Open, Quiet, Contained;
    AcceptedLate(s, cb);
    RejectedLate(s, cb.id, rc, e);
  }

  lemma AdmitLate(s: State, op: PendingOperation)
    requires Inv(s, {}, None) && LateOnly(s) && op.cb.id == s.nextID && op.cb.kind.Gated?
    ensures LateOnly(Admit(s, op))
  {
    hide Inv, IssueOperation, Enqueue, Overflow, IntegerDepth, Contained, LateOnly, Open;
    NewCallLate(s, op.cb);
    NextIDFree(s);
    IssuedLate(s, op);
    QueuedLate(s, op);
  }

  lemma IssuedLate(s: State, op: PendingOperation)
    requires LateOnly(Activate(s, op.cb)) && op.cb.id !in Open(Activate(s, op.cb)) && op.cb.id !in s.outstanding
    requires op.cb.kind.Gated?
    ensures LateOnly(IssueOperation(Activate(s, op.cb).(submitted := s.submitted + [op]), op.cb, op.rc))
  {
    hide PendingIDs, OnContext, Framed, Contained, Execute;
    var s1 := Retain(Activate(s, op.cb).(submitted := s.submitted + [op]), op.cb.id);
    assert op == PendingOperation(op.cb, op.rc);
    ExecuteFields(s1, op);
    AcceptedOpens(s.outstanding, op.cb);
    assert s1.outstanding == s.outstanding && op.cb.id in s1.active;
    IssuedNotLate(s1, op);
  }

  lemma IssuedNotLate(s: State, op: PendingOperation)
    requires LateOnly(s) && op.cb.id !in Open(s) && op.cb.id !in s.outstanding && op.cb.id in s.active
    requires op.cb.kind.Gated?
    ensures LateOnly(Execute(s, op))
  {
    hide PendingIDs, OnContext, Framed, Execute, Late;
    var s' := Execute(s, op);
    ExecuteFields(s, op);
    if op.rc < 0 {
      LateShrinks(Open(s), Open(s'), s.active.Keys, s'.active.Keys, s.timeout, s.delivered, s'.delivered);
    } else {
      AcceptedOpens(s.outstanding, op.cb);
      LateGrows(Open(s), Open(s'), s.active.Keys, s.timeout, s.delivered, s'.delivered, op.cb.id);
    }
  }

  lemma LateGrows(open: set<ID>, open': set<ID>, active: set<ID>, timeout: int, delivered: map<ID, seq<Outcome>>,
                  delivered': map<ID, seq<Outcome>>, id: ID)
    requires Late(open, active, timeout, delivered) && open' <= open + {id} && id in active
    requires forall x :: OutcomesIn(delivered', x) == OutcomesIn(delivered, x)
    ensures Late(open', active, timeout, delivered')
  {
  }

  lemma QueuedLate(s: State, op: PendingOperation)
    requires LateOnly(Activate(s, op.cb)) && op.cb.id !in Open(Activate(s, op.cb))
    ensures LateOnly(Enqueue(Activate(s, op.cb), op)) && LateOnly(Overflow(Activate(s, op.cb), op.cb.id))
  {
    hide PendingIDs, OnContext, Contained;
    QueueAfterAppend(s.pending, op);
  }

  lemma RequestLate(s: State, step: Step)
    requires Inv(s, {}, None) && LateOnly(s) && Request(step)
    ensures LateOnly(Apply(s, step))
  {
    hide Inv, LateOnly, Open, Admit, CallDirectly, Started, Touched, OpenHandle, Contained, Quiet, Grows, Refuse;
    NextIDFree(s);
    RefusedLate(s);
    match step
    case DoSubmit(k, now, rc) => AdmitLate(s, PendingOperation(CallbackData(s.nextID, Gated, k, now), rc));
    case DoHandle(h, op, now, rc) =>
      if h in s.handles {
        var cb := CallbackData(s.nextID, Handle(h, op), HandleCategory(op), now);
        NewCallLate(s, cb);
        StartedFields(s, cb, h, s.handles[h], op);
        DirectLate(Touched(Started(s, cb), h, s.handles[h], op), cb, rc, Code(-rc));
      }
    case DoMount(now, rc) =>
      var cb := CallbackData(s.nextID, Mount, Metadata, now);
      NewCallLate(s, cb);
      StartedFields(s, cb, 0, 0, OtherOp);
      DirectLate(Started(s, cb).(trace := Started(s, cb).trace + [Issue(cb.id)]), cb, rc, Code(-rc));
    case DoGetExports(available, now, rc) =>
      var cb := CallbackData(s.nextID, Exports, Metadata, now);
      NewCallLate(s, cb);
      StartedFields(s, cb, 0, 0, OtherOp);
      var s1 := Started(s, cb);
      DirectLate(s1.(exports := if rc < 0 then None else Some(cb.id), exportsDone := false), cb, rc, EIO);
    case DoOpen(fh) => OpenedLate(s, fh);
  }

  lemma RefusedLate(s: State)
    requires LateOnly(s)
    ensures LateOnly(Refuse(s, ENOTCONN)) && LateOnly(Refuse(s, EBADF))
    ensures LateOnly(Refuse(s, EBUSY)) && LateOnly(Refuse(s, ENOMEM))
  {
    hide PendingIDs, OnContext, Late;
  }

  lemma OpenedLate(s: State, fh: Nfsfh)
    requires LateOnly(s)
    ensures LateOnly(OpenHandle(s, fh))
  {
    hide PendingIDs, OnContext, Late;
  }

  /** Starting a call and naming its handle changes neither what is open nor who waits, and neither do the notes made
      for a mount or a query. */
  lemma StartedFields(s: State, cb: CallbackData, h: ID, fh: Nfsfh, op: HandleOp)
    ensures var s1 := Started(s, cb); var s2 := Touched(s1, h, fh, op);
            && cb.id in s1.active && cb.id in s2.active && s1.outstanding == s.outstanding == s2.outstanding
            && Open(s2) == Open(s1) && (LateOnly(s1) ==> LateOnly(s2))
            && (forall t :: Open(s1.(trace := t)) == Open(s1) && (LateOnly(s1) ==> LateOnly(s1.(trace := t))))
            && (forall x, d :: Open(s1.(exports := x, exportsDone := d)) == Open(s1)
                               && (LateOnly(s1) ==> LateOnly(s1.(exports := x, exportsDone := d))))
  {
    hide PendingIDs, OnContext, Late;
  }

  // ---- timeouts and shutdowns -------------------------------------------------------------------

  lemma TimeoutLate(s: State, id: ID)
    requires Inv(s, {}, None) && LateOnly(s) && s.timeout > 0
    ensures LateOnly(TimeoutOne(s, id))
  {
    hide WellFormed, RetainsMatch, NoneLost, BuffersMatch, HandlesMatch, SlotsFit, Record, PendingIDs, OnContext, Grows;
    if id in s.active {
      ActiveUnflagged(s, id);
      assert Outcomes(s, id) == [];
      assert [] + [Threw(ETIMEDOUT)] == [Threw(ETIMEDOUT)];
    }
  }

  lemma {:induction false} TimeoutsLate(s: State, order: seq<ID>)
    requires Inv(s, {}, None) && LateOnly(s) && s.timeout > 0
    ensures LateOnly(TimeoutAll(s, order))
    decreases |order|
  {
    hide Inv, TimeoutOne, LateOnly;
    if order != [] {
      TimeoutOneInv(s, order[0]);
      TimeoutLate(s, order[0]);
      TimeoutsLate(TimeoutOne(s, order[0]), order[1..]);
    }
  }

  /** While there is a context, callers of open calls wait or have timed out. */
  ghost predicate Kept(s: State) {
    s.context ==> LateOnly(s)
  }

  lemma ForgottenLate(s: State, h: ID)
    requires LateOnly(s) && h in s.handles
    ensures LateOnly(s.(handles := s.handles - {h}, trace := s.trace + [Close(h, s.handles[h])]))
  {
    hide PendingIDs, OnContext, Late;
  }

  lemma StepKept(s: State, step: Step)
    requires Inv(s, {}, None) && Kept(s)
    ensures Kept(Apply(s, step))
  {
    hide Inv, CallbackAll, CleanupExports, TimeoutAll, IssuePending, Grows, ShutdownWithError, PerformShutdown,
         LateOnly, Submit, CallHandle, CallMount, CallGetExports;
    if s.context {
      match step
      case DoForget(h, replies) =>
        if h in s.handles {
          ClosedInv(s, h);
          ForgottenLate(s, h);
          AnswersLate(s.(handles := s.handles - {h}, trace := s.trace + [Close(h, s.handles[h])]), replies, false, {});
        }
      case DoIO(replies, result, destroyReplies) =>
        ServicedInv(s, replies, false);
        AnswersLate(s, replies, false, {});
        IssuePendingLate(CallbackAll(s, replies, false), {});
      case DoRpc(replies, result, destroyReplies) =>
        ServicedInv(s, replies, true);
        AnswersLate(s, replies, true, {});
        CleanupLate(CallbackAll(s, replies, true), destroyReplies);
      case DoTimeouts(now, order, rpcReplies) =>
        if s.timeout > 0 {
          TimeoutAllInv(s, order);
          TimeoutsLate(s, order);
          CleanupLate(TimeoutAll(s, order), rpcReplies);
        }
      case DoShutdown(rpcReplies, replies) =>
      case _ => RequestLate(s, step);
    } else {
      ContextStaysGone(s, step);
    }
  }

  lemma StepKeepsTimeout(s: State, step: Step)
    ensures Apply(s, step).timeout == s.timeout
  {
    hide CallbackAll, CleanupExports, TimeoutAll, IssuePending, Grows, ShutdownWithError, PerformShutdown, Submit,
         CallHandle, CallMount, CallGetExports, CloseFireAndForget, Quiet;
  }

  lemma {:induction false} RunKept(s: State, steps: seq<Step>)
    requires Inv(s, {}, None) && Kept(s)
    ensures Kept(Run(s, steps)) && Run(s, steps).timeout == s.timeout
    decreases |steps|
  {
    hide Inv, Kept, Apply;
    if steps != [] {
      StepInv(s, steps[0]);
      StepKept(s, steps[0]);
      StepKeepsTimeout(s, steps[0]);
      RunKept(Apply(s, steps[0]), steps[1..]);
    }
  }

  // ---- results --------------------------------------------------------------------------------

  /**
   On every run, for every call that is queued or unanswered (export queries apart): its caller has not been resumed, or
   it has timed out. So libnfs holds memory of a caller that has been resumed iff its call has timed out; that does not
   happen without timeouts, and after a shutdown nothing is held at all.
   */
  lemma HeldAfterResumptionIff(timeout: int, steps: seq<Step>, id: ID)
    requires id in Open(After(timeout, steps))
    ensures var s := After(timeout, steps);
            && s.context
            && (Outcomes(s, id) == [] <==> id in s.active)
            && (Outcomes(s, id) != [] <==> timeout > 0 && Outcomes(s, id) == [Threw(ETIMEDOUT)])
  {
    hide Run, Inv, Kept;
    var s := After(timeout, steps);
    InitInv(timeout);
    assert Kept(Init(timeout)) by { NothingOpenYet(timeout); }
    RunKept(Init(timeout), steps);
    RunInv(timeout, steps);
    RunDisconnected(Init(timeout), steps);
    HeldFacts(s, id);
  }

  lemma NothingOpenYet(timeout: int)
    ensures Kept(Init(timeout))
  {
  }

  lemma HeldFacts(s: State, id: ID)
    requires Inv(s, {}, None) && Kept(s) && Disconnected(s) && id in Open(s)
    ensures s.context
    ensures Outcomes(s, id) == [] <==> id in s.active
    ensures Outcomes(s, id) != [] <==> s.timeout > 0 && Outcomes(s, id) == [Threw(ETIMEDOUT)]
  {
    hide RetainsMatch, NoneLost, BuffersMatch, HandlesMatch, SlotsFit;
    if id in PendingIDs(s.pending) {
      assert s.pending != [];
    }
    assert 1 <= id < s.nextID;
  }

  /** The calls on a handle that libnfs has not answered. */
  function CallsOn(m: map<ID, CallbackData>, h: ID): set<ID> {
    set id | id in m && m[id].kind.Handle? && m[id].kind.handleID == h
  }

  /** A handle on which no caller waits can be closed under a call of its own iff a call on it has timed out and is
      still unanswered. */
  lemma ClosedUnderCallIff(timeout: int, steps: seq<Step>, h: ID)
    requires CallsOn(After(timeout, steps).active, h) == {}
    ensures var s := After(timeout, steps); var calls := CallsOn(s.outstanding, h);
            calls != {} <==> exists id :: id in calls && Outcomes(s, id) == [Threw(ETIMEDOUT)]
  {
    hide Run;
    var s := After(timeout, steps);
    var calls := CallsOn(s.outstanding, h);
    RunInv(timeout, steps);
    if calls != {} {
      SomeID(calls);
      var id :| id in calls;
      HeldAfterResumptionIff(timeout, steps, id);
      assert id in s.active ==> id in CallsOn(s.active, h);
    }
  }

  lemma SomeID(ids: set<ID>)
    requires ids != {}
    ensures exists id :: id in ids
  {
    if forall id :: id !in ids {
      assert false;
    }
  }
}
