/** Every step of the event loop keeps the invariant, so it holds after every run. */
module EventLoopRuns {
  import opened Common
  import opened Pipeline
  import opened AimdTheorems
  import opened EventLoopModel
  import opened EventLoopInvariants
  import opened EventLoopParts
  import opened EventLoopSafety

  lemma InitInv(timeout: int)
    ensures Inv(Init(timeout), {}, None)
  {
    hide SlotsFit, ResumedOnce, RetainsMatch;
    InitOnce(timeout);
    InitSlots(timeout, Bulk);
    InitSlots(timeout, Metadata);
  }

  lemma InitOnce(timeout: int)
    ensures Once(Init(timeout), {}, None) && Balanced(Init(timeout), None)
  {
  }

  lemma InitSlots(timeout: int, c: Category)
    ensures Slots(Init(timeout), c)
  {
    assert Counted(Init(timeout).outstanding, c, false) == {} && Counted(Init(timeout).outstanding, c, true) == {};
  }

  // ---- submissions ------------------------------------------------------------

  lemma OverflowInv(s: State, cb: CallbackData)
    requires Inv(s, {}, None) && s.context && cb.id == s.nextID && cb.kind.Gated?
    ensures Inv(Overflow(Activate(s, cb), cb.id), {}, None)
  {
    hide WellFormed, ResumedOnce, RetainsMatch, NoneLost, BuffersMatch, HandlesMatch, SlotsFit;
    StartedInv(s, cb);
    var s1 := Started(s, cb);
    var s2 := RejectDirect(s1, cb.id, -1, ENOBUFS);
    RejectDirectInv(s1, cb, -1, ENOBUFS);
    var s3 := Overflow(Activate(s, cb), cb.id);
    NextIDUnused(s);
    NoBufferYet(s);
    assert s2 == s3.(retains := s2.retains);
    RetainAndRelease(s.nextID, HeldIDs(s, None), s.abandoned, s.retains);
  }

  lemma NoBufferYet(s: State)
    requires Links(s, None)
    ensures s.nextID !in s.buffers
  {
  }

  lemma RetainAndRelease(nextID: ID, held: set<ID>, abandoned: set<ID>, retains: map<ID, int>)
    requires RetainsMatch(nextID, held, abandoned, retains) && 1 <= nextID
    ensures RetainsMatch(nextID + 1, held, abandoned, retains)
  {
  }

  lemma IssuedInv(s: State, op: PendingOperation, rc: int)
    requires Inv(s, {}, None) && s.context && op.cb.id == s.nextID && op.cb.kind.Gated? && rc == op.rc
    requires s.inFlight.Get(op.cb.category) < DepthOf(s, op.cb.category)
    ensures Inv(IssueOperation(Activate(s, op.cb).(submitted := s.submitted + [op]), op.cb, rc), {}, None)
  {
    hide Inv, IntegerDepth, Execute;
    StartedInv(s, op.cb);
    StartedGated(s, op.cb);
    var s1 := Started(s, op.cb);
    HistoryInv(s1, s1.(submitted := s1.submitted + [op]), {}, Some(op.cb));
    ExecuteInv(s1.(submitted := s1.submitted + [op]), op, {});
  }

  lemma QueuedInv(s: State, op: PendingOperation)
    requires Inv(s, {}, None) && s.context && op.cb.id == s.nextID && op.cb.kind.Gated?
    requires |s.pending| < MAX_PENDING_OPERATIONS
    ensures Inv(Enqueue(Activate(s, op.cb), op), {}, None)
  {
    hide Inv;
    StartedInv(s, op.cb);
    StartedGated(s, op.cb);
    EnqueuedInv(Started(s, op.cb), op);
  }

  lemma SubmitInv(s: State, c: Category, now: int, rc: int)
    requires Inv(s, {}, None)
    ensures Inv(Submit(s, c, now, rc), {}, None)
  {
    hide Inv, Admit, Refuse, Contained;
    if s.context {
      AdmitInv(s, PendingOperation(CallbackData(s.nextID, Gated, c, now), rc));
    } else {
      RefuseInv(s, ENOTCONN);
    }
  }

  lemma AdmitInv(s: State, op: PendingOperation)
    requires Inv(s, {}, None) && s.context && op.cb.id == s.nextID && op.cb.kind.Gated?
    ensures Inv(Admit(s, op), {}, None)
  {
    hide Inv, IntegerDepth, IssueOperation, Overflow, Enqueue, Contained;
    if s.inFlight.Get(op.cb.category) < DepthOf(s, op.cb.category) {
      IssuedInv(s, op, op.rc);
    } else if |s.pending| >= MAX_PENDING_OPERATIONS {
      OverflowInv(s, op.cb);
    } else {
      QueuedInv(s, op);
    }
  }

  lemma RefuseInv(s: State, e: PosixError)
    requires Inv(s, {}, None)
    ensures Inv(Refuse(s, e), {}, None)
  {
    hide WellFormed, ResumedOnce, RetainsMatch, NoneLost, BuffersMatch, HandlesMatch, SlotsFit;
  }

  lemma StartedGated(s: State, cb: CallbackData)
    requires !OwnsBuffer(cb.kind)
    ensures Started(s, cb) == Retain(Activate(s, cb), cb.id)
  {
  }

  lemma CallHandleInv(s: State, h: ID, op: HandleOp, now: int, rc: int)
    requires Inv(s, {}, None)
    ensures Inv(CallHandle(s, h, op, now, rc), {}, None)
  {
    hide Inv, Started, CallDirectly;
    if h !in s.handles {
      RefuseInv(s, EBADF);
    } else if !s.context {
      RefuseInv(s, ENOTCONN);
    } else {
      var cb := CallbackData(s.nextID, Handle(h, op), HandleCategory(op), now);
      var call := if op.CloseHandle? then Close(h, s.handles[h]) else Use(h, s.handles[h]);
      StartedInv(s, cb);
      var s1 := Started(s, cb);
      StartedFrame(s, cb);
      CallInv(s1, call, {}, Some(cb));
      var s2 := s1.(trace := s1.trace + [call], handles := if call.Close? then s1.handles - {h} else s1.handles);
      CallDirectlyInv(s2, cb, rc, Code(-rc));
    }
  }

  lemma StartedFrame(s: State, cb: CallbackData)
    ensures cb.id in Started(s, cb).active && Started(s, cb).context == s.context && Started(s, cb).handles == s.handles
  {
  }

  lemma CallMountInv(s: State, now: int, rc: int)
    requires Inv(s, {}, None)
    ensures Inv(CallMount(s, now, rc), {}, None)
  {
    hide Inv, Started, CallDirectly;
    if !s.context {
      RefuseInv(s, ENOTCONN);
    } else {
      var cb := CallbackData(s.nextID, Mount, Metadata, now);
      StartedInv(s, cb);
      StartedGated(s, cb);
      StartedFrame(s, cb);
      var s1 := Started(s, cb);
      CallInv(s1, Issue(cb.id), {}, Some(cb));
      var s2 := s1.(trace := s1.trace + [Issue(cb.id)]);
      CallDirectlyInv(s2, cb, rc, Code(-rc));
    }
  }

  lemma CallGetExportsInv(s: State, rpcAvailable: bool, now: int, rc: int)
    requires Inv(s, {}, None)
    ensures Inv(CallGetExports(s, rpcAvailable, now, rc), {}, None)
  {
    hide Inv, Started, CallDirectly;
    if !s.context {
      RefuseInv(s, ENOTCONN);
    } else if s.exports.Some? {
      RefuseInv(s, EBUSY);
    } else if !rpcAvailable {
      RefuseInv(s, ENOMEM);
    } else {
      var cb := CallbackData(s.nextID, Exports, Metadata, now);
      StartedInv(s, cb);
      StartedGated(s, cb);
      StartedFrame(s, cb);
      var s1 := Started(s, cb);
      var s2 := s1.(exports := if rc < 0 then None else Some(cb.id), exportsDone := false);
      HistoryInv(s1, s2, {}, Some(cb));
      CallDirectlyInv(s2, cb, rc, EIO);
    }
  }

  lemma OpenHandleInv(s: State, fh: Nfsfh)
    requires Inv(s, {}, None)
    ensures Inv(OpenHandle(s, fh), {}, None)
  {
    hide WellFormed, ResumedOnce, RetainsMatch, NoneLost, BuffersMatch, HandlesMatch, SlotsFit;
    HandlesOpen(s.context, s.trace, s.handles, s.openings, s.reopened, s.nextHandleID, fh);
  }

  lemma ClosedInv(s: State, h: ID)
    requires Inv(s, {}, None) && h in s.handles
    ensures s.context ==> Inv(s.(handles := s.handles - {h}, trace := s.trace + [Close(h, s.handles[h])]), {}, None)
    ensures !s.context ==> Inv(s.(handles := s.handles - {h}), {}, None)
  {
    hide WellFormed, ResumedOnce, RetainsMatch, NoneLost, BuffersMatch, HandlesMatch, SlotsFit;
    if s.context {
      HandlesCall(s.trace, s.handles, s.openings, s.reopened, s.nextHandleID, Close(h, s.handles[h]));
    } else {
      HandlesForget(s.context, s.trace, s.handles, s.openings, s.reopened, s.nextHandleID, {h});
    }
  }

  lemma CloseFireAndForgetInv(s: State, h: ID, replies: seq<Reply>)
    requires Inv(s, {}, None)
    ensures Inv(CloseFireAndForget(s, h, replies), {}, None)
  {
    hide Inv, CallbackAll;
    if h in s.handles {
      ClosedInv(s, h);
      if s.context {
        ServicedInv(s.(handles := s.handles - {h}, trace := s.trace + [Close(h, s.handles[h])]), replies, false);
      }
    }
  }

  // ---- servicing contexts -----------------------------------------------------

  /** A sequence of answers keeps the invariant; of the detached continuations exactly the flagged ones are done. */
  lemma {:induction false} CallbackAllInv(s: State, replies: seq<Reply>, onRpc: bool, detached: set<ID>)
    requires Inv(s, detached, None)
    ensures Inv(CallbackAll(s, replies, onRpc), detached - CallbackAll(s, replies, onRpc).hasResumed, None)
    decreases |replies|
  {
    hide WellFormed, ResumedOnce, RetainsMatch, NoneLost, BuffersMatch, HandlesMatch, SlotsFit, Callback;
    var s' := CallbackAll(s, replies, onRpc);
    if replies == [] {
      Unflagged(s, detached);
    } else if Answers(s, replies[0], onRpc) {
      var id := replies[0].id;
      CallbackInv(s, replies[0], detached);
      CallbackAllInv(Callback(s, replies[0]), replies[1..], onRpc, detached - {id});
      assert detached - {id} - s'.hasResumed == detached - s'.hasResumed;
    } else {
      CallbackAllInv(s, replies[1..], onRpc, detached);
    }
  }

  lemma Unflagged(s: State, detached: set<ID>)
    requires Once(s, detached, None)
    ensures detached - s.hasResumed == detached
  {
    assert forall id :: id in detached ==> id !in s.hasResumed;
  }

  // ---- destroying contexts ----------------------------------------------------

  /** Nothing of the mounted context is abandoned before the registry is empty and the context marked gone. */
  lemma AbandonInv(s: State, onRpc: bool, detached: set<ID>)
    requires Inv(s, detached, None) && (onRpc || (s.active == map[] && !s.context))
    ensures Inv(Abandon(s, onRpc), detached, None)
  {
    hide WellFormed, ResumedOnce, RetainsMatch, NoneLost, BuffersMatch, HandlesMatch, SlotsFit;
    var s', lost, queued := Abandon(s, onRpc), OnContext(s.outstanding, onRpc), PendingIDs(s.pending);
    AbandonFacts(s, onRpc);
    WellFormedShrink(s.nextID, s.active.Keys, s.active.Keys, s.outstanding, lost, s.pending, s.context, None);
    OnceShrink(s.nextID, s.active.Keys, detached, HeldIDs(s, None), HeldIDs(s', None), queued + HandIDs(None),
               queued + HandIDs(None), s.hasResumed, s.delivered);
    RetainsAbandon(s.nextID, HeldIDs(s, None), s.abandoned, s.retains, lost);
    BuffersAbandon(s.nextID, s.buffers, s.outstanding, s.abandoned, queued, queued, lost);
    AbandonSlots(s, onRpc, Bulk);
    AbandonSlots(s, onRpc, Metadata);
  }

  lemma AbandonFacts(s: State, onRpc: bool)
    requires Registered(s, None) && Links(s, None) && (onRpc || s.active == map[])
    ensures HeldIDs(Abandon(s, onRpc), None) == HeldIDs(s, None) - OnContext(s.outstanding, onRpc)
    ensures NoneLost(s.active, s.outstanding - OnContext(s.outstanding, onRpc), PendingIDs(s.pending), None)
  {
    hide PendingIDs;
    var queued := PendingIDs(s.pending);
    LosingCalls(s.outstanding, queued, OnContext(s.outstanding, onRpc));
    assert queued + {} == queued;
  }

  lemma LosingCalls(outstanding: map<ID, CallbackData>, queued: set<ID>, lost: set<ID>)
    requires forall id :: id in queued ==> id !in outstanding
    requires lost <= outstanding.Keys
    ensures (outstanding - lost).Keys + queued + {} == outstanding.Keys + queued + {} - lost
  {
    var after, before := (outstanding - lost).Keys + queued + {}, outstanding.Keys + queued + {} - lost;
    forall id ensures id in after <==> id in before {
    }
  }

  lemma AbandonSlots(s: State, onRpc: bool, c: Category)
    requires Slots(s, c) && (onRpc || !s.context)
    ensures Slots(Abandon(s, onRpc), c)
  {
    if onRpc {
      SlotsAbandonExports(c, s.controllers.Get(c), s.inFlight.Get(c), s.uncharged.Get(c), s.context, s.outstanding);
    }
  }

  lemma CleanupExportsInv(s: State, replies: seq<Reply>)
    requires Inv(s, {}, None)
    ensures Inv(CleanupExports(s, replies), {}, None)
  {
    hide WellFormed, ResumedOnce, RetainsMatch, NoneLost, BuffersMatch, HandlesMatch, SlotsFit, CallbackAll, Abandon;
    var s1 := s;
    if s.exports.Some? {
      var s0 := s.(exports := None);
      HistoryInv(s, s0, {}, None);
      CallbackAllInv(s0, replies, true, {});
      assert {} - CallbackAll(s0, replies, true).hasResumed == {};
      AbandonInv(CallbackAll(s0, replies, true), true, {});
      s1 := Abandon(CallbackAll(s0, replies, true), true);
    }
    HistoryInv(s1, s1.(exportsDone := false), {}, None);
  }

  /** Emptying both registries leaves every registered continuation detached. */
  lemma DetachInv(s: State)
    requires Inv(s, {}, None)
    ensures Inv(Detach(s), s.active.Keys, None)
  {
    hide WellFormed, ResumedOnce, RetainsMatch, NoneLost, BuffersMatch, HandlesMatch, SlotsFit;
    var s', queued, ids := Detach(s), PendingIDs(s.pending), s.active.Keys;
    DetachFacts(s);
    OnceShrink(s.nextID, ids, {}, HeldIDs(s, None), HeldIDs(s', None), queued + HandIDs(None), {}, s.hasResumed,
        s.delivered);
    OnceDetach(s.nextID, ids, {}, HeldIDs(s', None), {}, s.hasResumed, s.delivered, ids);
    assert ids - ids == {} && {} + ids == ids && s'.active.Keys == {} && PendingIDs([]) + HandIDs(None) == {};
    RetainsAbandon(s.nextID, HeldIDs(s, None), s.abandoned, s.retains, queued);
    BuffersAbandon(s.nextID, s.buffers, s.outstanding, s.abandoned, queued, {}, queued);
  }

  lemma DetachFacts(s: State)
    requires Registered(s, None)
    ensures WellFormed(s.nextID, {}, s.outstanding, [], s.context, None)
    ensures HeldIDs(Detach(s), None) == HeldIDs(s, None) - PendingIDs(s.pending)
    ensures s.outstanding - PendingIDs(s.pending) == s.outstanding
    ensures forall id :: id in s.active ==> 1 <= id < s.nextID
    ensures NoneLost(map[], s.outstanding, {}, None)
  {
    LosingQueue(s.outstanding, PendingIDs(s.pending));
  }

  lemma LosingQueue(outstanding: map<ID, CallbackData>, queued: set<ID>)
    requires forall id :: id in queued ==> id !in outstanding
    ensures outstanding.Keys + {} + {} == outstanding.Keys + queued + {} - queued
    ensures outstanding - queued == outstanding
  {
    var after, before := outstanding.Keys + {} + {}, outstanding.Keys + queued + {} - queued;
    forall id ensures id in after <==> id in before {
    }
  }

  lemma DestroyContextInv(s: State, replies: seq<Reply>, detached: set<ID>)
    requires Inv(s, detached, None) && s.context && s.active == map[] && s.pending == []
    ensures Inv(DestroyContext(s, replies), detached - DestroyContext(s, replies).hasResumed, None)
    ensures !DestroyContext(s, replies).context
    ensures DestroyContext(s, replies).active == map[] && DestroyContext(s, replies).nextID == s.nextID
  {
    hide WellFormed, ResumedOnce, RetainsMatch, NoneLost, BuffersMatch, HandlesMatch, SlotsFit, CallbackAll;
    var s1 := s.(context := false, trace := s.trace + [Destroy]);
    HandlesCall(s.trace, s.handles, s.openings, s.reopened, s.nextHandleID, Destroy);
    ContextGone(s);
    CallbackAllInv(s1, replies, false, detached);
    var s2 := CallbackAll(s1, replies, false);
    assert s2.active == map[];
    AbandonInv(s2, false, detached - s2.hasResumed);
  }

  lemma ContextGone(s: State)
    requires Registered(s, None) && Accounted(s) && s.pending == []
    ensures WellFormed(s.nextID, s.active.Keys, s.outstanding, [], false, None)
    ensures Accounted(s.(context := false))
  {
  }

  lemma ResumeAllInv(s: State, ids: set<ID>, o: Outcome)
    requires Inv(s, ids - s.hasResumed, None) && s.active == map[]
    requires forall id :: id in ids ==> 1 <= id < s.nextID
    ensures Inv(ResumeAll(s, ids, o), {}, None)
    ensures ResumeAll(s, ids, o).active == map[] && ResumeAll(s, ids, o).context == s.context
  {
    hide WellFormed, ResumedOnce, RetainsMatch, NoneLost, BuffersMatch, HandlesMatch, SlotsFit;
    assert s.active.Keys == {};
    OnceDeliverAll(s.nextID, ids - s.hasResumed, HeldIDs(s, None), PendingIDs(s.pending) + HandIDs(None), s.hasResumed,
                   s.delivered, ids, o);
  }

  lemma ActiveIDs(s: State)
    requires Registered(s, None)
    ensures forall id :: id in s.active ==> 1 <= id < s.nextID
  {
  }

  lemma ShutdownWithErrorInv(s: State, e: PosixError, replies: seq<Reply>)
    requires Inv(s, {}, None)
    ensures Inv(ShutdownWithError(s, e, replies), {}, None)
    ensures ShutdownWithError(s, e, replies).active == map[]
  {
    hide WellFormed, ResumedOnce, RetainsMatch, NoneLost, BuffersMatch, HandlesMatch, SlotsFit, DestroyContext,
         ResumeAll;
    var s1, ids := Detach(s), s.active.Keys;
    ActiveIDs(s);
    DetachInv(s);
    if s1.context {
      DestroyContextInv(s1, replies, ids);
      ResumeAllInv(DestroyContext(s1, replies), ids, Threw(e));
    } else {
      Unflagged(s1, ids);
      ResumeAllInv(s1, ids, Threw(e));
    }
  }

  lemma ResetInv(s: State)
    requires Inv(s, {}, None) && !s.context
    ensures Inv(s.(controllers := PerCategory(Restarted(s.controllers.bulk), Restarted(s.controllers.metadata)),
                   inFlight := PerCategory(0, 0)), {}, None)
  {
    hide WellFormed, ResumedOnce, RetainsMatch, NoneLost, BuffersMatch, HandlesMatch;
  }

  lemma PerformShutdownInv(s: State, rpcReplies: seq<Reply>, replies: seq<Reply>)
    requires Inv(s, {}, None)
    ensures Inv(PerformShutdown(s, rpcReplies, replies), {}, None)
    ensures PerformShutdown(s, rpcReplies, replies).active == map[]
  {
    hide WellFormed, ResumedOnce, RetainsMatch, NoneLost, BuffersMatch, HandlesMatch, SlotsFit, DestroyContext,
         ResumeAll, CleanupExports, Restarted;
    if s.context || s.active != map[] {
      var s0 := CleanupExports(s, rpcReplies);
      CleanupExportsInv(s, rpcReplies);
      var ids := s0.active.Keys;
      ActiveIDs(s0);
      DetachInv(s0);
      var s1 := Detach(s0).(handles := map[]);
      HandlesForget(s0.context, s0.trace, s0.handles, s0.openings, s0.reopened, s0.nextHandleID, s0.handles.Keys);
      assert s0.handles - s0.handles.Keys == map[];
      if s1.context {
        DestroyContextInv(s1, replies, ids);
        ResumeAllInv(DestroyContext(s1, replies), ids, Threw(ENOTCONN));
        ResetInv(ResumeAll(DestroyContext(s1, replies), ids, Threw(ENOTCONN)));
      } else {
        Unflagged(s1, ids);
        ResumeAllInv(s1, ids, Threw(ENOTCONN));
        ResetInv(ResumeAll(s1, ids, Threw(ENOTCONN)));
      }
    }
  }

  // ---- timeouts ---------------------------------------------------------------

  lemma TimeoutOneInv(s: State, id: ID)
    requires Inv(s, {}, None)
    ensures Inv(TimeoutOne(s, id), {}, None)
  {
    hide WellFormed, ResumedOnce, RetainsMatch, NoneLost, BuffersMatch, HandlesMatch, SlotsFit, Record;
    if id in s.active {
      var c := s.active[id].category;
      var s', queued := TimeoutOne(s, id), PendingIDs(s.pending);
      ActiveUnflagged(s, id);
      assert s'.active.Keys == s.active.Keys - {id} && {} - {id} == {};
      WellFormedShrink(s.nextID, s.active.Keys, s'.active.Keys, s.outstanding, {}, s.pending, s.context, None);
      OnceDeliver(s.nextID, s.active.Keys, {}, HeldIDs(s, None), queued + HandIDs(None), s.hasResumed, s.delivered, id,
                  Threw(ETIMEDOUT), true);
      NoneLostDrop(s.active, s.outstanding, queued, None, id);
      TimeoutSlots(s, id, Bulk);
      TimeoutSlots(s, id, Metadata);
    }
  }

  lemma ActiveUnflagged(s: State, id: ID)
    requires Registered(s, None) && Once(s, {}, None) && id in s.active
    ensures id !in s.hasResumed && 1 <= id < s.nextID
  {
  }

  lemma TimeoutSlots(s: State, id: ID, c: Category)
    requires Slots(s, c) && id in s.active
    ensures Slots(TimeoutOne(s, id), c)
  {
    RecordKeepsRange(s, c, false);
  }

  lemma {:induction false} TimeoutAllInv(s: State, order: seq<ID>)
    requires Inv(s, {}, None)
    ensures Inv(TimeoutAll(s, order), {}, None)
    decreases |order|
  {
    hide Inv, TimeoutOne;
    if order != [] {
      TimeoutOneInv(s, order[0]);
      TimeoutAllInv(TimeoutOne(s, order[0]), order[1..]);
    }
  }

  lemma ScanForTimeoutsInv(s: State, order: seq<ID>, rpcReplies: seq<Reply>)
    requires Inv(s, {}, None)
    ensures Inv(ScanForTimeouts(s, order, rpcReplies), {}, None)
  {
    hide Inv, TimeoutAll, CleanupExports;
    TimeoutAllInv(s, order);
    CleanupExportsInv(TimeoutAll(s, order), rpcReplies);
  }

  // ---- events -----------------------------------------------------------------

  lemma ServicedInv(s: State, replies: seq<Reply>, onRpc: bool)
    requires Inv(s, {}, None)
    ensures Inv(CallbackAll(s, replies, onRpc), {}, None)
  {
    hide Inv, CallbackAll;
    CallbackAllInv(s, replies, onRpc, {});
    assert {} - CallbackAll(s, replies, onRpc).hasResumed == {};
  }

  lemma StepInv(s: State, step: Step)
    requires Inv(s, {}, None)
    ensures Inv(Apply(s, step), {}, None)
  {
    hide Inv, CallbackAll, CleanupExports, ShutdownWithError, PerformShutdown, ScanForTimeouts, Submit, CallHandle,
         CallMount, CallGetExports, OpenHandle, CloseFireAndForget, IssuePending;
    match step
    case DoSubmit(c, now, rc) => SubmitInv(s, c, now, rc);
    case DoHandle(h, op, now, rc) => CallHandleInv(s, h, op, now, rc);
    case DoMount(now, rc) => CallMountInv(s, now, rc);
    case DoGetExports(available, now, rc) => CallGetExportsInv(s, available, now, rc);
    case DoOpen(fh) => OpenHandleInv(s, fh);
    case DoForget(h, replies) => CloseFireAndForgetInv(s, h, replies);
    case DoIO(replies, result, destroyReplies) =>
      ServicedInv(s, replies, false);
      ShutdownWithErrorInv(CallbackAll(s, replies, false), ENOTCONN, destroyReplies);
      IssuePendingInv(CallbackAll(s, replies, false), {});
    case DoRpc(replies, result, destroyReplies) =>
      ServicedInv(s, replies, true);
      CleanupExportsInv(CallbackAll(s, replies, true), destroyReplies);
    case DoTimeouts(now, order, rpcReplies) => ScanForTimeoutsInv(s, order, rpcReplies);
    case DoShutdown(rpcReplies, replies) => PerformShutdownInv(s, rpcReplies, replies);
  }

  lemma {:induction false} RunFromInv(s: State, steps: seq<Step>)
    requires Inv(s, {}, None)
    ensures Inv(Run(s, steps), {}, None)
    decreases |steps|
  {
    hide Inv, Apply;
    if steps != [] {
      StepInv(s, steps[0]);
      RunFromInv(Apply(s, steps[0]), steps[1..]);
    }
  }

  /** The state after any run of a fresh event loop. */
  function After(timeout: int, steps: seq<Step>): State {
    Run(Init(timeout), steps)
  }

  lemma RunInv(timeout: int, steps: seq<Step>)
    ensures Inv(After(timeout, steps), {}, None)
  {
    hide Inv;
    InitInv(timeout);
    RunFromInv(Init(timeout), steps);
  }
}
