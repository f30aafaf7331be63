/** Every step keeps the invariant, so every run does. */
module EventLoopSafety {
  import opened Common
  import opened Pipeline
  import opened AimdTheorems
  import opened EventLoopModel
  import opened EventLoopInvariants
  import opened EventLoopParts

  lemma DepthWithinBounds(s: State, c: Category)
    requires Slots(s, c)
    ensures DEFAULT_MIN_DEPTH <= DepthOf(s, c) <= DEFAULT_MAX_DEPTH
  {
    ReplayStaysInRange(s.controllers.Get(c), []);
  }

  // ---- a new CallbackData, registered and retained ---------------------------

  lemma NextIDUnused(s: State)
    requires Registered(s, None) && Balanced(s, None)
    ensures 1 <= s.nextID && s.nextID !in s.outstanding && s.nextID !in PendingIDs(s.pending)
            && s.nextID !in s.abandoned
  {
  }

  lemma StartedInv(s: State, cb: CallbackData)
    requires Inv(s, {}, None) && s.context && cb.id == s.nextID
    ensures Inv(Started(s, cb), {}, Some(cb))
  {
    hide WellFormed, ResumedOnce, RetainsMatch, NoneLost, BuffersMatch, HandlesMatch, SlotsFit;
    var s', queued := Started(s, cb), PendingIDs(s.pending);
    assert s'.active.Keys == s.active.Keys + {cb.id};
    assert HeldIDs(s', Some(cb)) == HeldIDs(s, None) + {cb.id};
    assert queued + HandIDs(Some(cb)) == queued + HandIDs(None) + {cb.id};
    NextIDUnused(s);
    WellFormedStart(s.nextID, s.active.Keys, s.outstanding, s.pending, s.context, cb);
    OnceStart(s.nextID, s.active.Keys, HeldIDs(s, None), queued + HandIDs(None), s.hasResumed, s.delivered);
    RetainsUp(s.nextID, HeldIDs(s, None), s.abandoned, s.retains);
    NoneLostStart(s.active, s.outstanding, queued, cb);
    BuffersStart(s.nextID, s.buffers, s.outstanding, s.abandoned, queued, cb);
  }

  // ---- moving between the queue and the hand ----------------------------------

  function Dequeued(s: State, i: int): State
    requires 0 <= i < |s.pending|
  {
    s.(pending := RemoveAt(s.pending, i))
  }

  lemma HeadOfRest(s: State, i: int)
    requires Registered(s, None) && 0 <= i < |s.pending|
    ensures s.pending[i].cb.kind.Gated? && s.pending[i].cb.id in PendingIDs(s.pending)
    ensures PendingIDs(Dequeued(s, i).pending) == PendingIDs(s.pending) - {s.pending[i].cb.id}
  {
    QueueAfterRemoval(s.pending, i);
  }

  lemma DequeuedInv(s: State, i: int, detached: set<ID>)
    requires Inv(s, detached, None) && 0 <= i < |s.pending|
    ensures Inv(Dequeued(s, i), detached, Some(s.pending[i].cb))
  {
    hide WellFormed, ResumedOnce, RetainsMatch, NoneLost, BuffersMatch, HandlesMatch, SlotsFit;
    var s', cb, queued := Dequeued(s, i), s.pending[i].cb, PendingIDs(s.pending);
    HeadOfRest(s, i);
    assert PendingIDs(s'.pending) + HandIDs(Some(cb)) == queued + HandIDs(None);
    assert HeldIDs(s', Some(cb)) == HeldIDs(s, None);
    WellFormedDequeue(s.nextID, s.active.Keys, s.outstanding, s.pending, s.context, i);
    NoneLostDequeue(s.active, s.outstanding, queued, cb);
    BuffersDequeue(s.nextID, s.buffers, s.outstanding, s.abandoned, queued, cb);
  }

  lemma EnqueuedInv(s: State, op: PendingOperation)
    requires Inv(s, {}, Some(op.cb)) && s.context && op.cb.kind.Gated? && |s.pending| < MAX_PENDING_OPERATIONS
    ensures Inv(s.(pending := s.pending + [op], submitted := s.submitted + [op]), {}, None)
  {
    hide WellFormed, ResumedOnce, RetainsMatch, NoneLost, BuffersMatch, HandlesMatch, SlotsFit;
    var s', queued := s.(pending := s.pending + [op], submitted := s.submitted + [op]), PendingIDs(s.pending);
    QueueAfterAppend(s.pending, op);
    assert PendingIDs(s'.pending) + HandIDs(None) == queued + HandIDs(Some(op.cb));
    assert HeldIDs(s', None) == HeldIDs(s, Some(op.cb));
    WellFormedEnqueue(s.nextID, s.active.Keys, s.outstanding, s.pending, op);
    NoneLostEnqueue(s.active, s.outstanding, queued, op.cb);
    BuffersEnqueue(s.nextID, s.buffers, s.outstanding, s.abandoned, queued, op.cb);
  }

  // ---- libnfs accepts the call ------------------------------------------------

  lemma InHandFacts(s: State, cb: CallbackData)
    requires Registered(s, Some(cb)) && Accounted(s)
    ensures cb.id !in s.outstanding && cb.id !in PendingIDs(s.pending) && 1 <= cb.id < s.nextID
    ensures DepthOf(s, cb.category) <= DEFAULT_MAX_DEPTH
  {
    DepthWithinBounds(s, cb.category);
  }

  lemma AcceptedSlots(s: State, cb: CallbackData, c: Category)
    requires Slots(s, c) && cb.id !in s.outstanding
    requires cb.kind.Gated? ==> s.inFlight.Get(cb.category) < DEFAULT_MAX_DEPTH
    ensures Slots(Accepted(s, cb), c)
  {
    hide SlotsFit;
    SlotsAccept(c, s.controllers.Get(c), s.inFlight.Get(c), s.uncharged.Get(c), s.context, s.outstanding, cb);
  }

  lemma AcceptedInv(s: State, cb: CallbackData, detached: set<ID>)
    requires Inv(s, detached, Some(cb))
    requires cb.kind.Gated? ==> s.inFlight.Get(cb.category) < DepthOf(s, cb.category)
    ensures Inv(Accepted(s, cb), detached, None)
  {
    hide WellFormed, ResumedOnce, RetainsMatch, NoneLost, BuffersMatch, HandlesMatch, SlotsFit, DepthOf;
    var s', queued := Accepted(s, cb), PendingIDs(s.pending);
    InHandFacts(s, cb);
    assert HeldIDs(s', None) == HeldIDs(s, Some(cb));
    WellFormedAccept(s.nextID, s.active.Keys, s.outstanding, s.pending, s.context, cb);
    OnceShrink(s.nextID, s.active.Keys, detached, HeldIDs(s, Some(cb)), HeldIDs(s', None), queued + HandIDs(Some(cb)),
               queued + HandIDs(None), s.hasResumed, s.delivered);
    NoneLostAccept(s.active, s.outstanding, queued, cb);
    BuffersAccept(s.nextID, s.buffers, s.outstanding, s.abandoned, queued, cb);
    AcceptedSlots(s, cb, Bulk);
    AcceptedSlots(s, cb, Metadata);
  }

  // ---- libnfs rejects the call ------------------------------------------------

  lemma RejectInv(s: State, cb: CallbackData, rc: int, detached: set<ID>)
    requires Inv(s, detached, Some(cb)) && !OwnsBuffer(cb.kind)
    ensures Inv(Reject(s, cb.id, rc), detached, None)
  {
    hide WellFormed, ResumedOnce, RetainsMatch, NoneLost, BuffersMatch, HandlesMatch, SlotsFit;
    var s', queued, held, reserved := Reject(s, cb.id, rc), PendingIDs(s.pending), HeldIDs(s, Some(cb)),
                                      PendingIDs(s.pending) + HandIDs(Some(cb));
    InHandWaits(s, cb, detached);
    assert HeldIDs(s', None) == held - {cb.id};
    assert s'.active.Keys == s.active.Keys - {cb.id};
    WellFormedShrink(s.nextID, s.active.Keys, s'.active.Keys, s.outstanding, {}, s.pending, s.context, Some(cb));
    RetainsDown(s.nextID, held, s.abandoned, s.retains, cb.id);
    if cb.id in s.active {
      var o := Threw(Code(-rc));
      OnceDeliver(s.nextID, s.active.Keys, detached, held, reserved, s.hasResumed, s.delivered, cb.id, o, true);
      assert detached - {cb.id} == detached;
    } else {
      assert s.active.Keys - {cb.id} == s.active.Keys && s.hasResumed + {cb.id} == s.hasResumed;
    }
    OnceShrink(s.nextID, s'.active.Keys, detached, held, HeldIDs(s', None), reserved, queued + HandIDs(None),
               s'.hasResumed, s'.delivered);
    NoneLostDrop(s.active, s.outstanding, queued, Some(cb), cb.id);
    BuffersDrop(s.nextID, s.buffers, s.outstanding, s.abandoned, queued, cb);
  }

  lemma InHandWaits(s: State, cb: CallbackData, detached: set<ID>)
    requires Registered(s, Some(cb)) && Once(s, detached, Some(cb))
    ensures cb.id !in detached && (cb.id in s.active <==> cb.id !in s.hasResumed)
    ensures cb.id !in s.outstanding && cb.id !in PendingIDs(s.pending) && 1 <= cb.id < s.nextID
  {
    assert cb.id in HeldIDs(s, Some(cb));
  }

  lemma RejectDirectInv(s: State, cb: CallbackData, rc: int, e: PosixError)
    requires Inv(s, {}, Some(cb)) && cb.id in s.active
    ensures Inv(RejectDirect(s, cb.id, rc, e), {}, None)
  {
    hide WellFormed, ResumedOnce, RetainsMatch, NoneLost, BuffersMatch, HandlesMatch, SlotsFit;
    var s', queued, held, reserved := RejectDirect(s, cb.id, rc, e), PendingIDs(s.pending), HeldIDs(s, Some(cb)),
                                      PendingIDs(s.pending) + HandIDs(Some(cb));
    InHandWaits(s, cb, {});
    InHandKept(s, cb);
    assert HeldIDs(s', None) == held - {cb.id};
    assert s'.active.Keys == s.active.Keys - {cb.id};
    WellFormedShrink(s.nextID, s.active.Keys, s'.active.Keys, s.outstanding, {}, s.pending, s.context, Some(cb));
    RetainsDown(s.nextID, held, s.abandoned, s.retains, cb.id);
    OnceShrink(s.nextID, s.active.Keys, {}, held, HeldIDs(s', None), reserved, queued + HandIDs(None),
        s.hasResumed, s.delivered);
    OnceDeliver(s.nextID, s.active.Keys, {}, HeldIDs(s', None), queued + HandIDs(None), s.hasResumed, s.delivered,
                cb.id, Threw(e), false);
    assert {} - {cb.id} == {} && s.hasResumed + {} == s.hasResumed;
    NoneLostDrop(s.active, s.outstanding, queued, Some(cb), cb.id);
    BuffersEnd(s.nextID, s.buffers, s.outstanding, s.abandoned, queued, Some(cb), cb.id, rc);
  }

  lemma CallDirectlyInv(s: State, cb: CallbackData, rc: int, e: PosixError)
    requires Inv(s, {}, Some(cb)) && cb.id in s.active && !cb.kind.Gated?
    ensures Inv(CallDirectly(s, cb, rc, e), {}, None)
  {
    hide Inv, RejectDirect, Accepted;
    if rc < 0 {
      RejectDirectInv(s, cb, rc, e);
    } else {
      AcceptedInv(s, cb, {});
    }
  }

  lemma InHandKept(s: State, cb: CallbackData)
    requires Balanced(s, Some(cb))
    ensures cb.id !in s.abandoned
  {
    assert cb.id in HeldIDs(s, Some(cb));
  }

  // ---- libnfs answers ---------------------------------------------------------

  function Taken(s: State, r: Reply): State
    requires r.id in s.outstanding
  {
    Deactivate(TakeReply(s, r), r.id)
  }

  function StillWaiting(s: State, id: ID): set<ID> {
    if id in s.active then {id} else {}
  }

  lemma OutstandingFacts(s: State, id: ID, detached: set<ID>)
    requires Registered(s, None) && Once(s, detached, None) && Balanced(s, None) && id in s.outstanding
    ensures s.outstanding[id].id == id && id !in PendingIDs(s.pending) && id !in s.abandoned && 1 <= id < s.nextID
    ensures forall x :: x in s.active ==> 1 <= x < s.nextID
    ensures id in s.active || id in detached || id in s.hasResumed
  {
    assert id in HeldIDs(s, None);
  }

  lemma RecordKeepsRange(s: State, c: Category, success: bool)
    requires Slots(s, c)
    ensures ControllerInRange(Record(s.controllers.Get(c), success))
  {
    RecordStaysInRange(s.controllers.Get(c), success);
  }

  lemma TakenSlots(s: State, r: Reply, success: bool, c: Category)
    requires Slots(s, c) && r.id in s.outstanding && s.outstanding[r.id].id == r.id
    ensures Slots(RecordCompletion(Taken(s, r), s.outstanding[r.id].category, success), c)
  {
    hide SlotsFit, Record, ControllerInRange;
    RecordKeepsRange(s, c, success);
    SlotsAnswer(c, s.controllers.Get(c), Record(s.controllers.Get(c), success), s.inFlight.Get(c), s.uncharged.Get(c),
                s.context, s.outstanding, r.id);
  }

  lemma TakenInv(s: State, r: Reply, success: bool, detached: set<ID>)
    requires Inv(s, detached, None) && r.id in s.outstanding
    ensures Inv(RecordCompletion(Taken(s, r), s.outstanding[r.id].category, success),
                detached + StillWaiting(s, r.id), None)
  {
    hide WellFormed, ResumedOnce, RetainsMatch, NoneLost, BuffersMatch, HandlesMatch, SlotsFit, Record,
         ControllerInRange;
    var cb, queued, held, reserved := s.outstanding[r.id], PendingIDs(s.pending), HeldIDs(s, None),
                                      PendingIDs(s.pending) + HandIDs(None);
    var s', ids := RecordCompletion(Taken(s, r), cb.category, success), StillWaiting(s, r.id);
    OutstandingFacts(s, r.id, detached);
    assert HeldIDs(s', None) == held - {r.id};
    assert s'.active.Keys == s.active.Keys - {r.id} == s.active.Keys - ids;
    WellFormedShrink(s.nextID, s.active.Keys, s'.active.Keys, s.outstanding, {r.id}, s.pending, s.context, None);
    RetainsDown(s.nextID, held, s.abandoned, s.retains, r.id);
    OnceDetach(s.nextID, s.active.Keys, detached, held, reserved, s.hasResumed, s.delivered, ids);
    OnceShrink(s.nextID, s'.active.Keys, detached + ids, held, HeldIDs(s', None), reserved, reserved, s.hasResumed,
        s.delivered);
    NoneLostDrop(s.active, s.outstanding, queued, None, r.id);
    BuffersEnd(s.nextID, s.buffers, s.outstanding, s.abandoned, queued, None, r.id, r.status);
    TakenSlots(s, r, success, Bulk);
    TakenSlots(s, r, success, Metadata);
  }

  // ---- the caller is resumed --------------------------------------------------

  lemma ResumeInv(s: State, id: ID, o: Outcome, detached: set<ID>)
    requires Inv(s, detached, None) && (id in detached || id in s.hasResumed)
    ensures Inv(Resume(s, id, o), detached - {id}, None)
  {
    hide WellFormed, ResumedOnce, RetainsMatch, NoneLost, BuffersMatch, HandlesMatch, SlotsFit;
    DetachedFacts(s, id, detached);
    if id in detached {
      OnceDeliver(s.nextID, s.active.Keys, detached, HeldIDs(s, None), PendingIDs(s.pending) + HandIDs(None),
                  s.hasResumed, s.delivered, id, o, true);
      assert s.active.Keys - {id} == s.active.Keys;
    } else {
      assert detached - {id} == detached && s.hasResumed + {id} == s.hasResumed;
    }
  }

  lemma DetachedFacts(s: State, id: ID, detached: set<ID>)
    requires Once(s, detached, None)
    ensures id in detached ==> id !in s.hasResumed && id !in s.active && 1 <= id < s.nextID
    ensures id in s.hasResumed ==> id !in detached
  {
  }

  // ---- the scan over the queue ------------------------------------------------

  lemma ExecuteInv(s: State, op: PendingOperation, detached: set<ID>)
    requires Inv(s, detached, Some(op.cb)) && s.context && op.cb.kind.Gated?
    requires s.inFlight.Get(op.cb.category) < DepthOf(s, op.cb.category)
    ensures Inv(Execute(s, op), detached, None)
  {
    hide Inv, DepthOf;
    CallInv(s, Issue(op.cb.id), detached, Some(op.cb));
    var s1 := s.(trace := s.trace + [Issue(op.cb.id)]);
    var s2 := s1.(attempted := s1.attempted + [op]);
    HistoryInv(s1, s2, detached, Some(op.cb));
    DepthFrame(s, s2, op.cb.category);
    if op.rc < 0 {
      RejectInv(s2, op.cb, op.rc, detached);
    } else {
      AcceptedInv(s2, op.cb, detached);
    }
  }

  lemma ExecuteAtInv(s: State, i: int, detached: set<ID>)
    requires Inv(s, detached, None) && s.context && 0 <= i < |s.pending|
    requires s.inFlight.Get(s.pending[i].cb.category) < DepthOf(s, s.pending[i].cb.category)
    ensures Inv(ExecuteAt(s, i), detached, None)
  {
    hide Execute, DepthOf;
    DequeuedInv(s, i, detached);
    HeadOfRest(s, i);
    DepthFrame(s, Dequeued(s, i), s.pending[i].cb.category);
    ExecuteInv(Dequeued(s, i), s.pending[i], detached);
  }

  lemma DepthFrame(s: State, s': State, c: Category)
    requires s'.controllers == s.controllers
    ensures DepthOf(s', c) == DepthOf(s, c)
  {
  }

  /** The histories kept for ordering are no part of the other invariants, nor is the export query. */
  lemma HistoryInv(s: State, s': State, detached: set<ID>, hand: Option<CallbackData>)
    requires Inv(s, detached, hand)
    requires s' == s.(attempted := s'.attempted, submitted := s'.submitted, exports := s'.exports,
                      exportsDone := s'.exportsDone)
    ensures Inv(s', detached, hand)
  {
    hide WellFormed, ResumedOnce, RetainsMatch, NoneLost, BuffersMatch, HandlesMatch, SlotsFit;
  }

  lemma CallInv(s: State, call: LibCall, detached: set<ID>, hand: Option<CallbackData>)
    requires Inv(s, detached, hand) && s.context && !call.Destroy?
    requires call.Use? || call.Close? ==> call.handleID in s.handles && call.fh == s.handles[call.handleID]
    ensures Inv(s.(trace := s.trace + [call],
                   handles := if call.Close? then s.handles - {call.handleID} else s.handles),
                detached, hand)
  {
    hide WellFormed, ResumedOnce, RetainsMatch, NoneLost, BuffersMatch, HandlesMatch, SlotsFit;
    HandlesCall(s.trace, s.handles, s.openings, s.reopened, s.nextHandleID, call);
  }

  lemma {:induction false} IssueFromInv(s: State, i: int, detached: set<ID>)
    requires Inv(s, detached, None) && s.context && 0 <= i
    ensures Inv(IssueFrom(s, i), detached, None)
    decreases |s.pending| - i
  {
    hide Inv, Execute, DepthOf;
    if i < |s.pending| {
      var c := s.pending[i].cb.category;
      if s.inFlight.Get(c) < DepthOf(s, c) {
        ExecuteAtInv(s, i, detached);
        IssueFromInv(ExecuteAt(s, i), i, detached);
      } else {
        IssueFromInv(s, i + 1, detached);
      }
    }
  }

  lemma IssuePendingInv(s: State, detached: set<ID>)
    requires Inv(s, detached, None)
    ensures Inv(IssuePending(s), detached, None)
  {
    hide Inv, IssueFrom;
    if s.context {
      IssueFromInv(s, 0, detached);
    }
  }

  // ---- callbacks --------------------------------------------------------------

  lemma CallbackInv(s: State, r: Reply, detached: set<ID>)
    requires Inv(s, detached, None) && r.id in s.outstanding
    ensures Inv(Callback(s, r), detached - {r.id}, None)
  {
    hide WellFormed, ResumedOnce, RetainsMatch, NoneLost, BuffersMatch, HandlesMatch, SlotsFit, IssuePending;
    var cb := s.outstanding[r.id];
    var ok := ReplySucceeds(cb.kind, r);
    var s1 := RecordCompletion(Taken(s, r), cb.category, ok);
    var waiting := detached + StillWaiting(s, r.id);
    OutstandingFacts(s, r.id, detached);
    TakenInv(s, r, ok, detached);
    IssuePendingInv(s1, waiting);
    ResumeInv(IssuePending(s1), r.id, ReplyOutcome(cb.kind, r), waiting);
    assert waiting - {r.id} == detached - {r.id};
  }
}
