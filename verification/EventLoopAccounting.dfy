/** The in-flight counts: what they are bounded by, which steps keep them exact, and when they go stale. */
module EventLoopAccounting {
  import opened Common
  import opened Pipeline
  import opened EventLoopModel
  import opened EventLoopInvariants
  import opened EventLoopParts
  import opened EventLoopSafety
  import opened EventLoopRuns
  import opened EventLoopTheorems

  // ---- bounds on every run ----------------------------------------------------------

  /** In-flight accounting and the depth bound, while the connection lives. */
  lemma SlotBounds(timeout: int, steps: seq<Step>, c: Category)
    ensures var s := After(timeout, steps);
            && 0 <= s.inFlight.Get(c)
            && |s.pending| <= 4096
            && (s.context ==>
                  && s.inFlight.Get(c) <= |Counted(s.outstanding, c, false)| <= s.inFlight.Get(c) + s.uncharged.Get(c)
                  && s.inFlight.Get(c) <= 32 + |Counted(s.outstanding, c, true)|)
            && 1 <= DepthOf(s, c) <= 32
  {
    hide Run, IntegerDepth;
    RunInv(timeout, steps);
    assert Slots(After(timeout, steps), c);
    DepthWithinBounds(After(timeout, steps), c);
  }

  /** Steps that keep the count exact: no timeouts, and no call that completes without having taken a slot. */
  predicate Charged(step: Step) {
    !step.DoTimeouts? && !step.DoMount? && !step.DoGetExports?
  }

  ghost predicate FullyCharged(s: State) {
    && s.uncharged == PerCategory(0, 0) && s.exports == None
    && (forall id :: id in s.outstanding ==> Metered(s.outstanding[id].kind))
    && (forall i :: 0 <= i < |s.pending| ==> s.pending[i].cb.kind.Gated?)
  }

  lemma {:induction false} IssueFromCharged(s: State, i: nat)
    requires FullyCharged(s)
    ensures FullyCharged(IssueFrom(s, i))
    decreases |s.pending| - i
  {
    hide Execute, IntegerDepth;
    if i < |s.pending| {
      var c := s.pending[i].cb.category;
      if s.inFlight.Get(c) < DepthOf(s, c) {
        IssueFromCharged(ExecuteAt(s, i), i);
      } else {
        IssueFromCharged(s, i + 1);
      }
    }
  }

  lemma CallbackCharged(s: State, r: Reply)
    requires FullyCharged(s) && r.id in s.outstanding
    ensures FullyCharged(Callback(s, r))
  {
    hide IssueFrom;
    var cb := s.outstanding[r.id];
    var s1 := RecordCompletion(Deactivate(TakeReply(s, r), r.id), cb.category, ReplySucceeds(cb.kind, r));
    assert FullyCharged(s1);
    IssueFromCharged(s1, 0);
  }

  lemma {:induction false} CallbackAllCharged(s: State, replies: seq<Reply>, onRpc: bool)
    requires FullyCharged(s)
    ensures FullyCharged(CallbackAll(s, replies, onRpc))
    decreases |replies|
  {
    hide FullyCharged, Callback;
    if replies != [] {
      if Answers(s, replies[0], onRpc) {
        CallbackCharged(s, replies[0]);
        CallbackAllCharged(Callback(s, replies[0]), replies[1..], onRpc);
      } else {
        CallbackAllCharged(s, replies[1..], onRpc);
      }
    }
  }

  lemma IssuedCharged(s: State, op: PendingOperation)
    requires FullyCharged(s) && op.cb.kind.Gated?
    ensures FullyCharged(IssueOperation(Activate(s, op.cb).(submitted := s.submitted + [op]), op.cb, op.rc))
  {
    hide Execute;
  }

  lemma QueuedCharged(s: State, op: PendingOperation)
    requires FullyCharged(s) && op.cb.kind.Gated?
    ensures FullyCharged(Enqueue(Activate(s, op.cb), op))
    ensures FullyCharged(Overflow(Activate(s, op.cb), op.cb.id))
  {
  }

  lemma SubmitCharged(s: State, c: Category, now: int, rc: int)
    requires FullyCharged(s)
    ensures FullyCharged(Submit(s, c, now, rc))
  {
    hide FullyCharged, IssueOperation, Enqueue, Overflow, Refuse, IntegerDepth;
    var op := PendingOperation(CallbackData(s.nextID, Gated, c, now), rc);
    IssuedCharged(s, op);
    QueuedCharged(s, op);
    RefusedCharged(s, ENOTCONN);
  }

  lemma RefusedCharged(s: State, e: PosixError)
    requires FullyCharged(s)
    ensures FullyCharged(Refuse(s, e))
  {
  }

  lemma DirectCharged(s: State, cb: CallbackData, rc: int, e: PosixError)
    requires FullyCharged(s) && Metered(cb.kind)
    ensures FullyCharged(CallDirectly(s, cb, rc, e))
  {
    hide RejectDirect, Accepted;
  }

  lemma HandleCharged(s: State, h: ID, op: HandleOp, now: int, rc: int)
    requires FullyCharged(s)
    ensures FullyCharged(CallHandle(s, h, op, now, rc))
  {
    hide CallDirectly, OwnsBuffer, Refuse;
    RefusedCharged(s, EBADF);
    RefusedCharged(s, ENOTCONN);
    var cb := CallbackData(s.nextID, Handle(h, op), HandleCategory(op), now);
    if h in s.handles {
      DirectCharged(Touched(Started(s, cb), h, s.handles[h], op), cb, rc, Code(-rc));
    }
  }

  lemma StepCharged(s: State, step: Step)
    requires (s.context ==> FullyCharged(s)) && Charged(step)
    ensures Apply(s, step).context ==> s.context && FullyCharged(Apply(s, step))
  {
    hide CallbackAll, IssueFrom, ShutdownWithError, PerformShutdown, CleanupExports, CallHandle, Submit;
    if s.context {
      match step
      case DoSubmit(c, now, rc) => SubmitCharged(s, c, now, rc);
      case DoHandle(h, op, now, rc) => HandleCharged(s, h, op, now, rc);
      case DoOpen(fh) =>
      case DoForget(h, replies) =>
        if h in s.handles {
          var s1 := s.(handles := s.handles - {h}, trace := s.trace + [Close(h, s.handles[h])]);
          CallbackAllCharged(s1, replies, false);
        }
      case DoIO(replies, result, destroyReplies) =>
        CallbackAllCharged(s, replies, false);
        IssueFromCharged(CallbackAll(s, replies, false), 0);
      case DoRpc(replies, result, destroyReplies) =>
      case DoShutdown(rpcReplies, replies) =>
    }
  }

  lemma {:induction false} RunCharged(s: State, steps: seq<Step>)
    requires s.context ==> FullyCharged(s)
    requires forall i :: 0 <= i < |steps| ==> Charged(steps[i])
    ensures Run(s, steps).context ==> FullyCharged(Run(s, steps))
    decreases |steps|
  {
    hide FullyCharged, Apply, Charged;
    if steps != [] {
      StepCharged(s, steps[0]);
      assert forall i :: 0 <= i < |steps| - 1 ==> steps[1..][i] == steps[i + 1];
      RunCharged(Apply(s, steps[0]), steps[1..]);
    }
  }

  /** On runs without timeouts, mounts and export queries the in-flight count is the number of calls libnfs has
      accepted and not answered. */
  lemma CountIsExact(timeout: int, steps: seq<Step>, c: Category)
    requires (forall i :: 0 <= i < |steps| ==> Charged(steps[i])) && After(timeout, steps).context
    ensures var s := After(timeout, steps); s.inFlight.Get(c) == |Counted(s.outstanding, c, false)|
  {
    hide Run, Counted;
    RunInv(timeout, steps);
    assert Slots(After(timeout, steps), c);
    RunCharged(Init(timeout), steps);
  }

  // ---- what each step does to the count -------------------------------------------

  /** How many accepted calls of category `c` that took a slot the count misses. */
  ghost function Gap(s: State, c: Category): int {
    |Counted(s.outstanding, c, false)| - s.inFlight.Get(c)
  }

  lemma ExecuteKeepsGap(s: State, op: PendingOperation, c: Category)
    requires op.cb.id !in s.outstanding && op.cb.kind.Gated?
    ensures Gap(Execute(s, op), c) == Gap(s, c)
  {
    hide Execute, Framed;
    CountsAfterAccept(s.outstanding, op.cb, c, false);
  }

  lemma QueuedIsGated(s: State, i: int)
    requires Registered(s, None) && 0 <= i < |s.pending|
    ensures s.pending[i].cb.id !in s.outstanding && s.pending[i].cb.kind.Gated?
  {
    QueuedIDs(s.pending, s.pending[i].cb.id);
  }

  lemma {:induction false} IssueFromKeepsGap(s: State, i: nat, detached: set<ID>, c: Category)
    requires Inv(s, detached, None) && s.context
    ensures Gap(IssueFrom(s, i), c) == Gap(s, c)
    decreases |s.pending| - i
  {
    hide WellFormed, ResumedOnce, RetainsMatch, NoneLost, BuffersMatch, HandlesMatch, SlotsFit, Execute, DepthOf,
         Gap, Framed;
    if i < |s.pending| {
      var k := s.pending[i].cb.category;
      if s.inFlight.Get(k) < DepthOf(s, k) {
        ExecuteAtInv(s, i, detached);
        QueuedIsGated(s, i);
        ExecuteAtKeepsGap(s, i, c);
        IssueFromKeepsGap(ExecuteAt(s, i), i, detached, c);
      } else {
        IssueFromKeepsGap(s, i + 1, detached, c);
      }
    }
  }

  lemma ExecuteAtKeepsGap(s: State, i: int, c: Category)
    requires 0 <= i < |s.pending| && s.pending[i].cb.id !in s.outstanding && s.pending[i].cb.kind.Gated?
    ensures Gap(ExecuteAt(s, i), c) == Gap(s, c) && ExecuteAt(s, i).context == s.context
  {
    hide Execute;
    ExecuteKeepsGap(s.(pending := RemoveAt(s.pending, i)), s.pending[i], c);
  }

  /** Issuing never changes what the count misses. */
  lemma IssuingKeepsGap(s: State, detached: set<ID>, c: Category)
    requires Inv(s, detached, None)
    ensures Gap(IssuePending(s), c) == Gap(s, c)
  {
    hide Inv, IssueFrom, Gap;
    if s.context {
      IssueFromKeepsGap(s, 0, detached, c);
    }
  }

  /** An answer gives up a slot: the call's own, or, if the call took none, somebody else's. */
  lemma AnswerMovesGap(s: State, r: Reply, detached: set<ID>, c: Category)
    requires Inv(s, detached, None) && r.id in s.outstanding
    ensures var cb := s.outstanding[r.id];
            Gap(Callback(s, r), c) == Gap(s, c) +
              if cb.category != c then 0
              else if Metered(cb.kind) then (if s.inFlight.Get(c) > 0 then 0 else -1)
              else (if s.inFlight.Get(c) > 0 then 1 else 0)
  {
    hide WellFormed, ResumedOnce, RetainsMatch, NoneLost, BuffersMatch, HandlesMatch, SlotsFit, IssuePending, Gap,
         Framed;
    var cb := s.outstanding[r.id];
    var ok := ReplySucceeds(cb.kind, r);
    var s1 := RecordCompletion(Taken(s, r), cb.category, ok);
    OutstandingFacts(s, r.id, detached);
    TakenInv(s, r, ok, detached);
    IssuingKeepsGap(s1, detached + StillWaiting(s, r.id), c);
    RecordingMovesGap(s, r, ok, c);
    ResumingKeepsGap(IssuePending(s1), r.id, ReplyOutcome(cb.kind, r), c);
  }

  lemma ResumingKeepsGap(s: State, id: ID, o: Outcome, c: Category)
    ensures Gap(Resume(s, id, o), c) == Gap(s, c)
  {
  }

  lemma RecordingMovesGap(s: State, r: Reply, success: bool, c: Category)
    requires r.id in s.outstanding && s.outstanding[r.id].id == r.id && Slots(s, c)
    ensures var cb := s.outstanding[r.id];
            Gap(RecordCompletion(Taken(s, r), cb.category, success), c) == Gap(s, c) +
              if cb.category != c then 0
              else if Metered(cb.kind) then (if s.inFlight.Get(c) > 0 then 0 else -1)
              else (if s.inFlight.Get(c) > 0 then 1 else 0)
  {
    hide Record, EndedBuffers, ControllerInRange, Counted;
    CountsAfterAnswer(s.outstanding, r.id, c, false);
  }

  // ---- when the count stays exact ---------------------------------------------------

  /** Requests keep what the count misses, whatever libnfs says to them. */
  lemma RequestsKeepCount(timeout: int, steps: seq<Step>, step: Step, c: Category)
    requires Request(step)
    ensures Gap(Apply(After(timeout, steps), step), c) == Gap(After(timeout, steps), c)
  {
    hide Run, Inv, Gap, Apply;
    RunInv(timeout, steps);
    RequestKeepsGap(After(timeout, steps), step, c);
  }

  lemma OpenKeepsGap(s: State, fh: Nfsfh, c: Category)
    ensures Gap(OpenHandle(s, fh), c) == Gap(s, c)
  {
  }

  lemma RefusalKeepsGap(s: State, e: PosixError, c: Category)
    ensures Gap(Refuse(s, e), c) == Gap(s, c)
  {
  }

  lemma NextIDFree(s: State)
    requires Inv(s, {}, None)
    ensures s.nextID !in s.outstanding
  {
  }

  lemma SubmitKeepsGap(s: State, k: Category, now: int, rc: int, c: Category)
    requires Inv(s, {}, None)
    ensures Gap(Submit(s, k, now, rc), c) == Gap(s, c)
  {
    hide Inv, Admit, Gap, Contained, Refuse;
    var op := PendingOperation(CallbackData(s.nextID, Gated, k, now), rc);
    NextIDFree(s);
    RefusalKeepsGap(s, ENOTCONN, c);
    AdmitKeepsGap(s, op, c);
  }

  lemma AdmitKeepsGap(s: State, op: PendingOperation, c: Category)
    requires op.cb.id !in s.outstanding && op.cb.kind.Gated?
    ensures Gap(Admit(s, op), c) == Gap(s, c)
  {
    hide IssueOperation, Overflow, Enqueue, IntegerDepth, Contained, Gap;
    IssuedKeepsGap(s, op, c);
    QueuedKeepsGap(s, op, c);
  }

  lemma IssuedKeepsGap(s: State, op: PendingOperation, c: Category)
    requires op.cb.id !in s.outstanding && op.cb.kind.Gated?
    ensures Gap(IssueOperation(Activate(s, op.cb).(submitted := s.submitted + [op]), op.cb, op.rc), c) == Gap(s, c)
  {
    hide Execute, Contained, Counted;
    ExecuteKeepsGap(Retain(Activate(s, op.cb).(submitted := s.submitted + [op]), op.cb.id), op, c);
  }

  lemma QueuedKeepsGap(s: State, op: PendingOperation, c: Category)
    ensures Gap(Enqueue(Activate(s, op.cb), op), c) == Gap(s, c)
    ensures Gap(Overflow(Activate(s, op.cb), op.cb.id), c) == Gap(s, c)
  {
    hide Contained, Counted;
  }

  lemma DirectKeepsGap(s: State, cb: CallbackData, rc: int, e: PosixError, c: Category)
    requires cb.id !in s.outstanding
    ensures Gap(CallDirectly(s, cb, rc, e), c) == Gap(s, c)
  {
    hide Quiet, Contained, RejectDirect, Accepted, Gap;
    RejectedKeepsGap(s, cb.id, rc, e, c);
    AcceptedKeepsGap(s, cb, c);
  }

  lemma RejectedKeepsGap(s: State, id: ID, rc: int, e: PosixError, c: Category)
    ensures Gap(RejectDirect(s, id, rc, e), c) == Gap(s, c)
  {
    hide EndedBuffers, Counted;
  }

  lemma AcceptedKeepsGap(s: State, cb: CallbackData, c: Category)
    requires cb.id !in s.outstanding
    ensures Gap(Accepted(s, cb), c) == Gap(s, c)
  {
    hide Counted;
    CountsAfterAccept(s.outstanding, cb, c, false);
  }

  lemma StartedKeepsCalls(s: State, cb: CallbackData)
    ensures Started(s, cb).outstanding == s.outstanding && Started(s, cb).inFlight == s.inFlight
  {
  }

  lemma TouchedKeepsGap(s: State, h: ID, fh: Nfsfh, op: HandleOp, c: Category)
    ensures Touched(s, h, fh, op).outstanding == s.outstanding && Gap(Touched(s, h, fh, op), c) == Gap(s, c)
  {
    hide Counted;
  }

  lemma StartedKeepsGap(s: State, cb: CallbackData, c: Category)
    ensures Gap(Started(s, cb), c) == Gap(s, c)
  {
    hide Started, Counted;
    StartedKeepsCalls(s, cb);
  }

  lemma HandleKeepsGap(s: State, h: ID, op: HandleOp, now: int, rc: int, c: Category)
    requires Inv(s, {}, None)
    ensures Gap(CallHandle(s, h, op, now, rc), c) == Gap(s, c)
  {
    hide Inv, CallDirectly, Quiet, Contained, Started, Touched, Refuse, Gap;
    var cb := CallbackData(s.nextID, Handle(h, op), HandleCategory(op), now);
    NextIDFree(s);
    StartedKeepsCalls(s, cb);
    StartedKeepsGap(s, cb, c);
    RefusalKeepsGap(s, EBADF, c);
    RefusalKeepsGap(s, ENOTCONN, c);
    if h in s.handles {
      TouchedKeepsGap(Started(s, cb), h, s.handles[h], op, c);
      DirectKeepsGap(Touched(Started(s, cb), h, s.handles[h], op), cb, rc, Code(-rc), c);
    }
  }

  lemma MountKeepsGap(s: State, now: int, rc: int, c: Category)
    requires Inv(s, {}, None)
    ensures Gap(CallMount(s, now, rc), c) == Gap(s, c)
  {
    hide Inv, CallDirectly, Quiet, Contained, Started, Counted;
    var cb := CallbackData(s.nextID, Mount, Metadata, now);
    NextIDFree(s);
    StartedKeepsCalls(s, cb);
    var s1 := Started(s, cb);
    DirectKeepsGap(s1.(trace := s1.trace + [Issue(cb.id)]), cb, rc, Code(-rc), c);
  }

  lemma ExportsKeepGap(s: State, rpcAvailable: bool, now: int, rc: int, c: Category)
    requires Inv(s, {}, None)
    ensures Gap(CallGetExports(s, rpcAvailable, now, rc), c) == Gap(s, c)
  {
    hide Inv, StartExports, Quiet, Contained, Refuse, Gap;
    RefusalKeepsGap(s, ENOTCONN, c);
    RefusalKeepsGap(s, EBUSY, c);
    RefusalKeepsGap(s, ENOMEM, c);
    QueryKeepsGap(s, now, rc, c);
  }

  lemma QueryKeepsGap(s: State, now: int, rc: int, c: Category)
    requires Inv(s, {}, None)
    ensures Gap(StartExports(s, now, rc), c) == Gap(s, c)
  {
    hide Inv, CallDirectly, Quiet, Contained, Started, Counted;
    var cb := CallbackData(s.nextID, Exports, Metadata, now);
    NextIDFree(s);
    StartedKeepsCalls(s, cb);
    var s1 := Started(s, cb);
    DirectKeepsGap(s1.(exports := if rc < 0 then None else Some(cb.id), exportsDone := false), cb, rc, EIO, c);
  }

  /** An answer that arrives while the count is exact keeps it exact iff its call took a slot, or belongs to the other
      category, or there is no slot left to give up. */
  lemma AnswerKeepsCountIff(timeout: int, steps: seq<Step>, r: Reply, c: Category)
    requires r.id in After(timeout, steps).outstanding && Gap(After(timeout, steps), c) == 0
    ensures var s := After(timeout, steps); var cb := s.outstanding[r.id];
            Gap(Callback(s, r), c) == 0 <==> Metered(cb.kind) || cb.category != c || s.inFlight.Get(c) == 0
  {
    hide Run, Callback;
    var s := After(timeout, steps);
    RunInv(timeout, steps);
    AnswerMovesGap(s, r, {}, c);
    assert Slots(s, c);
    if Metered(s.outstanding[r.id].kind) && s.outstanding[r.id].category == c {
      assert r.id in Counted(s.outstanding, c, false);
    }
  }

  /** Timing out the expired continuations makes the count miss one call for each of them, as long as it has slots to
      give up: it stays exact iff none of category `c` has expired or the count is zero. */
  lemma TimeoutsKeepCountIff(timeout: int, steps: seq<Step>, now: int, order: seq<ID>, c: Category)
    requires Enumerates(order, Expired(After(timeout, steps), now)) && Gap(After(timeout, steps), c) == 0
    ensures var s := After(timeout, steps); var expired := OfCategory(s.active, Expired(s, now), c);
            && Gap(TimeoutAll(s, order), c) == Min(|expired|, s.inFlight.Get(c))
            && (Gap(TimeoutAll(s, order), c) == 0 <==> expired == {} || s.inFlight.Get(c) == 0)
  {
    hide Run, TimeoutAll, Counted, Inv, OfCategory, Expired;
    var s := After(timeout, steps);
    RunInv(timeout, steps);
    CountIsNatural(s, Bulk);
    CountIsNatural(s, Metadata);
    ScannedCounts(s, now, order, c);
  }

  lemma ScannedCounts(s: State, now: int, order: seq<ID>, c: Category)
    requires Enumerates(order, Expired(s, now)) && 0 <= s.inFlight.bulk && 0 <= s.inFlight.metadata
    ensures TimeoutAll(s, order).outstanding == s.outstanding
    ensures TimeoutAll(s, order).inFlight.Get(c)
         == Max(0, s.inFlight.Get(c) - |OfCategory(s.active, Expired(s, now), c)|)
  {
    hide TimeoutAll, OfCategory, Repeat, DeliveredToAll;
    assert forall id :: id in order ==> id in Expired(s, now);
    TimeoutAllIsTimedOut(s, order);
  }

  /** Every answer is to a call that took a slot or belongs to the other category, or finds no slot to give up. */
  ghost predicate FairAnswers(s: State, replies: seq<Reply>, onRpc: bool, c: Category)
    decreases |replies|
  {
    if replies == [] then true
    else if Answers(s, replies[0], onRpc) then
      var cb := s.outstanding[replies[0].id];
      && (Metered(cb.kind) || cb.category != c || s.inFlight.Get(c) == 0)
      && FairAnswers(Callback(s, replies[0]), replies[1..], onRpc, c)
    else FairAnswers(s, replies[1..], onRpc, c)
  }

  ghost predicate FairCleanup(s: State, replies: seq<Reply>, c: Category) {
    s.exports.Some? ==> FairAnswers(s.(exports := None), replies, true, c)
  }

  /** The conditions under which each step keeps an exact count exact. */
  ghost predicate FairStep(s: State, step: Step, c: Category) {
    match step
    case DoIO(replies, result, destroyReplies) => FairAnswers(s, replies, false, c)
    case DoRpc(replies, result, destroyReplies) =>
      FairAnswers(s, replies, true, c) && FairCleanup(CallbackAll(s, replies, true), destroyReplies, c)
    case DoForget(h, replies) =>
      h in s.handles ==>
        FairAnswers(s.(handles := s.handles - {h}, trace := s.trace + [Close(h, s.handles[h])]), replies, false, c)
    case DoTimeouts(now, order, rpcReplies) =>
      && (OfCategory(s.active, Expired(s, now), c) == {} || s.inFlight.Get(c) == 0)
      && FairCleanup(TimeoutAll(s, order), rpcReplies, c)
    case _ => true
  }

  ghost predicate FairRun(s: State, steps: seq<Step>, c: Category)
    decreases |steps|
  {
    steps == [] || (FairStep(s, steps[0], c) && FairRun(Apply(s, steps[0]), steps[1..], c))
  }

  lemma {:induction false} FairAnswersKeepCount(s: State, replies: seq<Reply>, onRpc: bool, detached: set<ID>,
                                                c: Category)
    requires Inv(s, detached, None) && FairAnswers(s, replies, onRpc, c) && Gap(s, c) == 0
    ensures Gap(CallbackAll(s, replies, onRpc), c) == 0
    decreases |replies|
  {
    hide Inv, Callback, Gap;
    if replies != [] {
      if Answers(s, replies[0], onRpc) {
        CallbackInv(s, replies[0], detached);
        AnswerMovesGap(s, replies[0], detached, c);
        AnsweredIsCounted(s, replies[0].id, detached, c);
        FairAnswersKeepCount(Callback(s, replies[0]), replies[1..], onRpc, detached - {replies[0].id}, c);
      } else {
        FairAnswersKeepCount(s, replies[1..], onRpc, detached, c);
      }
    }
  }

  /** An exact count is not zero while it has a call to count. */
  lemma AnsweredIsCounted(s: State, id: ID, detached: set<ID>, c: Category)
    requires Inv(s, detached, None) && id in s.outstanding && Gap(s, c) == 0
    ensures Metered(s.outstanding[id].kind) && s.outstanding[id].category == c ==> s.inFlight.Get(c) > 0
  {
    if Metered(s.outstanding[id].kind) && s.outstanding[id].category == c {
      assert id in Counted(s.outstanding, c, false);
    }
    assert Slots(s, c);
  }

  lemma FairCleanupKeepsCount(s: State, replies: seq<Reply>, c: Category)
    requires Inv(s, {}, None) && FairCleanup(s, replies, c) && Gap(s, c) == 0
    ensures Gap(CleanupExports(s, replies), c) == 0
  {
    hide Inv, CallbackAll, Counted, FairAnswers;
    if s.exports.Some? {
      var s0 := s.(exports := None);
      HistoryInv(s, s0, {}, None);
      FairAnswersKeepCount(s0, replies, true, {}, c);
      CountsWithoutExports(CallbackAll(s0, replies, true).outstanding, c, false);
    }
  }

  lemma RequestKeepsGap(s: State, step: Step, c: Category)
    requires Inv(s, {}, None) && Request(step)
    ensures Gap(Apply(s, step), c) == Gap(s, c)
  {
    hide Inv, Gap, Submit, CallHandle, CallMount, CallGetExports, Contained, Quiet, Grows;
    match step
    case DoSubmit(k, now, rc) => SubmitKeepsGap(s, k, now, rc, c);
    case DoHandle(h, op, now, rc) => HandleKeepsGap(s, h, op, now, rc, c);
    case DoMount(now, rc) => MountKeepsGap(s, now, rc, c);
    case DoGetExports(available, now, rc) => ExportsKeepGap(s, available, now, rc, c);
    case DoOpen(fh) => OpenKeepsGap(s, fh, c);
  }

  lemma FairTimeoutsKeepCount(s: State, now: int, order: seq<ID>, c: Category)
    requires Inv(s, {}, None) && Enumerates(order, Expired(s, now)) && Gap(s, c) == 0
    requires OfCategory(s.active, Expired(s, now), c) == {} || s.inFlight.Get(c) == 0
    ensures Gap(TimeoutAll(s, order), c) == 0
  {
    hide Inv, TimeoutAll, Counted, Enumerates, Expired;
    CountIsNatural(s, Bulk);
    CountIsNatural(s, Metadata);
    ScannedCounts(s, now, order, c);
  }

  lemma StepKeepsCount(s: State, step: Step, c: Category)
    requires Inv(s, {}, None) && s.context && FairStep(s, step, c) && Gap(s, c) == 0
    ensures Apply(s, step).context ==> Gap(Apply(s, step), c) == 0
  {
    hide Inv, CallbackAll, CleanupExports, TimeoutAll, IssuePending, Grows, ShutdownWithError, PerformShutdown, Submit,
         CallHandle, CallMount, CallGetExports, Gap, FairAnswers, FairCleanup;
    match step
    case DoForget(h, replies) =>
      if h in s.handles {
        var s1 := s.(handles := s.handles - {h}, trace := s.trace + [Close(h, s.handles[h])]);
        ClosedInv(s, h);
        SameCallsSameGap(s, s1, c);
        FairAnswersKeepCount(s1, replies, false, {}, c);
      }
    case DoIO(replies, result, destroyReplies) =>
      ServicedInv(s, replies, false);
      FairAnswersKeepCount(s, replies, false, {}, c);
      IssuingKeepsGap(CallbackAll(s, replies, false), {}, c);
    case DoRpc(replies, result, destroyReplies) =>
      ServicedInv(s, replies, true);
      FairAnswersKeepCount(s, replies, true, {}, c);
      FairCleanupKeepsCount(CallbackAll(s, replies, true), destroyReplies, c);
    case DoTimeouts(now, order, rpcReplies) =>
      if Enumerates(order, Expired(s, now)) {
        TimeoutAllInv(s, order);
        FairTimeoutsKeepCount(s, now, order, c);
        FairCleanupKeepsCount(TimeoutAll(s, order), rpcReplies, c);
      }
    case DoShutdown(rpcReplies, replies) =>
    case _ => RequestKeepsGap(s, step, c);
  }

  lemma SameCallsSameGap(s: State, s': State, c: Category)
    requires s'.outstanding == s.outstanding && s'.inFlight == s.inFlight
    ensures Gap(s', c) == Gap(s, c)
  {
  }

  lemma {:induction false} RunKeepsCount(s: State, steps: seq<Step>, c: Category)
    requires Inv(s, {}, None) && FairRun(s, steps, c) && (s.context ==> Gap(s, c) == 0)
    ensures Run(s, steps).context ==> Gap(Run(s, steps), c) == 0
    decreases |steps|
  {
    hide Inv, Apply, FairStep, Gap;
    if steps != [] {
      StepInv(s, steps[0]);
      if s.context {
        StepKeepsCount(s, steps[0], c);
      } else {
        ContextStaysGone(s, steps[0]);
      }
      RunKeepsCount(Apply(s, steps[0]), steps[1..], c);
    }
  }

  lemma ContextStaysGone(s: State, step: Step)
    requires !s.context
    ensures !Apply(s, step).context
  {
    hide CallbackAll, CleanupExports, TimeoutAll, IssuePending, Grows, Submit, CallHandle, CallMount, CallGetExports,
         Contained, CloseFireAndForget;
  }

  /** On every run, mounts, export queries and timeouts included, on which answers to calls without a slot and timeouts
      find no slot of the category to give up, the count is the number of accepted calls not yet answered. */
  lemma CountStaysExact(timeout: int, steps: seq<Step>, c: Category)
    requires FairRun(Init(timeout), steps, c) && After(timeout, steps).context
    ensures var s := After(timeout, steps); s.inFlight.Get(c) == |Counted(s.outstanding, c, false)|
  {
    hide Inv, Run, FairRun, Counted;
    InitInv(timeout);
    NothingMissedYet(timeout, c);
    RunKeepsCount(Init(timeout), steps, c);
  }

  lemma NothingMissedYet(timeout: int, c: Category)
    ensures Gap(Init(timeout), c) == 0
  {
    assert Counted(Init(timeout).outstanding, c, false) == {};
  }

  // ---- after the connection is gone ---------------------------------------------------

  /** Once the context is gone, libnfs owes no answer to any call that took a slot. */
  ghost predicate Disconnected(s: State) {
    !s.context ==> forall id :: id in s.outstanding ==> s.outstanding[id].kind.Exports?
  }

  lemma CallbackShrinks(s: State, r: Reply)
    requires !s.context && r.id in s.outstanding
    ensures Callback(s, r).outstanding == s.outstanding - {r.id}
  {
    hide Record, EndedBuffers;
  }

  lemma {:induction false} AnswersOnlyShrink(s: State, replies: seq<Reply>, onRpc: bool)
    requires !s.context
    ensures var m := CallbackAll(s, replies, onRpc).outstanding;
            forall id :: id in m ==> id in s.outstanding && m[id] == s.outstanding[id]
    decreases |replies|
  {
    hide Callback;
    if replies != [] {
      if Answers(s, replies[0], onRpc) {
        CallbackShrinks(s, replies[0]);
        AnswersOnlyShrink(Callback(s, replies[0]), replies[1..], onRpc);
      } else {
        AnswersOnlyShrink(s, replies[1..], onRpc);
      }
    }
  }

  lemma DestroyDisconnects(s: State, replies: seq<Reply>)
    ensures Disconnected(DestroyContext(s, replies))
  {
    hide CallbackAll;
  }

  lemma CleanupDisconnected(s: State, replies: seq<Reply>)
    requires Disconnected(s)
    ensures Disconnected(CleanupExports(s, replies))
  {
    hide CallbackAll;
    if !s.context && s.exports.Some? {
      AnswersOnlyShrink(s.(exports := None), replies, true);
    }
  }

  predicate Request(step: Step) {
    step.DoSubmit? || step.DoHandle? || step.DoMount? || step.DoGetExports? || step.DoOpen?
  }

  lemma RequestKeepsContext(s: State, step: Step)
    requires Request(step)
    ensures Apply(s, step).context == s.context
  {
    hide Submit, CallHandle, CallMount, CallGetExports, Grows, Contained;
  }

  /** Without a context every request is refused; opening a handle makes no call by itself. */
  lemma RequestRefused(s: State, step: Step)
    requires Request(step) && !s.context
    ensures Apply(s, step).outstanding == s.outstanding
  {
    hide Submit, CallHandle, CallMount, CallGetExports, Grows, Contained, Quiet;
  }

  lemma RequestDisconnected(s: State, step: Step)
    requires Disconnected(s) && Request(step)
    ensures Disconnected(Apply(s, step))
  {
    hide Apply;
    RequestKeepsContext(s, step);
    if !s.context {
      RequestRefused(s, step);
    }
  }

  lemma ForgottenDisconnected(s: State, h: ID)
    requires Disconnected(s) && h in s.handles
    ensures Disconnected(s.(handles := s.handles - {h}))
    ensures Disconnected(s.(handles := s.handles - {h}, trace := s.trace + [Close(h, s.handles[h])]))
  {
  }

  lemma StillConnected(s: State)
    requires Disconnected(s)
    ensures Disconnected(IssuePending(s))
  {
    hide IssueFrom, Grows;
  }

  lemma TimeoutsDisconnected(s: State, order: seq<ID>)
    requires Disconnected(s)
    ensures Disconnected(TimeoutAll(s, order))
  {
    hide TimeoutAll, Grows;
    TimeoutsKeepCalls(s, order);
  }

  lemma AnswersDisconnected(s: State, replies: seq<Reply>, onRpc: bool)
    requires Disconnected(s)
    ensures Disconnected(CallbackAll(s, replies, onRpc))
  {
    hide CallbackAll, Grows;
    if !s.context {
      AnswersOnlyShrink(s, replies, onRpc);
    }
  }

  lemma ErrorDisconnects(s: State, e: PosixError, replies: seq<Reply>)
    requires Disconnected(s)
    ensures Disconnected(ShutdownWithError(s, e, replies))
  {
    hide DestroyContext, DeliveredToAll, Grows, PendingIDs;
    DestroyDisconnects(Detach(s), replies);
  }

  lemma ShutdownDisconnects(s: State, rpcReplies: seq<Reply>, replies: seq<Reply>)
    requires Disconnected(s)
    ensures Disconnected(PerformShutdown(s, rpcReplies, replies))
  {
    hide DestroyContext, DeliveredToAll, Grows, PendingIDs, CleanupExports, Restarted;
    CleanupDisconnected(s, rpcReplies);
    DestroyDisconnects(Detach(CleanupExports(s, rpcReplies)).(handles := map[]), replies);
  }

  lemma StepDisconnected(s: State, step: Step)
    requires Disconnected(s)
    ensures Disconnected(Apply(s, step))
  {
    hide CallbackAll, CleanupExports, IssuePending, TimeoutOne, Grows, Contained, ShutdownWithError, PerformShutdown,
         Submit, CallHandle, CallMount, CallGetExports, Disconnected;
    match step
    case DoIO(replies, result, destroyReplies) =>
      AnswersDisconnected(s, replies, false);
      StillConnected(CallbackAll(s, replies, false));
      ErrorDisconnects(CallbackAll(s, replies, false), ENOTCONN, destroyReplies);
    case DoRpc(replies, result, destroyReplies) =>
      AnswersDisconnected(s, replies, true);
      CleanupDisconnected(CallbackAll(s, replies, true), destroyReplies);
    case DoTimeouts(now, order, rpcReplies) =>
      TimeoutsDisconnected(s, order);
      CleanupDisconnected(TimeoutAll(s, order), rpcReplies);
    case DoShutdown(rpcReplies, replies) =>
      ShutdownDisconnects(s, rpcReplies, replies);
    case DoForget(h, replies) =>
      if h in s.handles {
        ForgottenDisconnected(s, h);
        var s1 := s.(handles := s.handles - {h}, trace := s.trace + [Close(h, s.handles[h])]);
        AnswersDisconnected(s1, replies, false);
      }
    case _ => RequestDisconnected(s, step);
  }

  lemma {:induction false} TimeoutsKeepCalls(s: State, order: seq<ID>)
    ensures TimeoutAll(s, order).outstanding == s.outstanding
    decreases |order|
  {
    if order != [] {
      TimeoutsKeepCalls(TimeoutOne(s, order[0]), order[1..]);
    }
  }

  lemma {:induction false} RunDisconnected(s: State, steps: seq<Step>)
    requires Disconnected(s)
    ensures Disconnected(Run(s, steps))
    decreases |steps|
  {
    hide Apply, Disconnected;
    if steps != [] {
      StepDisconnected(s, steps[0]);
      RunDisconnected(Apply(s, steps[0]), steps[1..]);
    }
  }

  /** Without a context libnfs owes no answer to a call that took a slot: any count but zero is stale. */
  lemma NothingOwedWithoutContext(timeout: int, steps: seq<Step>, c: Category)
    requires !After(timeout, steps).context
    ensures Counted(After(timeout, steps).outstanding, c, false) == {}
  {
    hide Run;
    RunDisconnected(Init(timeout), steps);
    var s := After(timeout, steps);
    assert forall id :: id in s.outstanding ==> !Counts(s.outstanding[id], c, false);
    assert forall id :: id !in Counted(s.outstanding, c, false);
  }

  /** How many calls of category `c` on the mounted context these answers answer. */
  function AnsweredOf(outstanding: map<ID, CallbackData>, replies: seq<Reply>, c: Category): nat {
    if replies == [] then 0
    else
      var id := replies[0].id;
      if id in outstanding && !outstanding[id].kind.Exports? then
        (if outstanding[id].category == c then 1 else 0) + AnsweredOf(outstanding - {id}, replies[1..], c)
      else AnsweredOf(outstanding, replies[1..], c)
  }

  lemma CallbackCountsDown(s: State, r: Reply, c: Category)
    requires !s.context && r.id in s.outstanding
    ensures Callback(s, r).outstanding == s.outstanding - {r.id} && !Callback(s, r).context
    ensures Callback(s, r).inFlight.Get(c)
         == if s.outstanding[r.id].category == c then Max(0, s.inFlight.Get(c) - 1) else s.inFlight.Get(c)
  {
    hide Record, EndedBuffers, Framed;
  }

  /** While the context is destroyed nothing is issued, so each answer takes one off the count of its category. */
  lemma {:induction false} DestructionCountsDown(s: State, replies: seq<Reply>, c: Category)
    requires !s.context && 0 <= s.inFlight.Get(c)
    ensures CallbackAll(s, replies, false).inFlight.Get(c)
         == Max(0, s.inFlight.Get(c) - AnsweredOf(s.outstanding, replies, c))
    decreases |replies|
  {
    hide Callback, Framed;
    if replies != [] {
      if Answers(s, replies[0], false) {
        CallbackCountsDown(s, replies[0], c);
        DestructionCountsDown(Callback(s, replies[0]), replies[1..], c);
      } else {
        DestructionCountsDown(s, replies[1..], c);
      }
    }
  }

  /** The shutdown after a failed service call leaves a count behind iff the destruction of the context answers fewer
      calls of the category than were counted. */
  lemma ErrorLeavesCountIff(s: State, e: PosixError, replies: seq<Reply>, c: Category)
    requires s.context && 0 <= s.inFlight.Get(c)
    ensures ShutdownWithError(s, e, replies).inFlight.Get(c) > 0
       <==> AnsweredOf(s.outstanding, replies, c) < s.inFlight.Get(c)
  {
    hide CallbackAll, DeliveredToAll, PendingIDs, Grows;
    DestructionCountsDown(Detach(s).(context := false, trace := s.trace + [Destroy]), replies, c);
  }

  /** On every run: when a service call fails, exactly when it leaves a stale count; a shutdown that follows returns at
      its guard and does not reset it. */
  lemma CountGoesStaleIff(timeout: int, steps: seq<Step>, replies: seq<Reply>, result: int, destroyReplies: seq<Reply>,
                          rpcReplies: seq<Reply>, lateReplies: seq<Reply>, c: Category)
    requires After(timeout, steps).context && result < 0
    ensures var served := CallbackAll(After(timeout, steps), replies, false);
            var s' := Apply(After(timeout, steps), DoIO(replies, result, destroyReplies));
            && (s'.inFlight.Get(c) > 0 <==> AnsweredOf(served.outstanding, destroyReplies, c) < served.inFlight.Get(c))
            && Counted(s'.outstanding, c, false) == {}
            && Apply(s', DoShutdown(rpcReplies, lateReplies)) == s'
  {
    hide Run, CallbackAll, ShutdownWithError, Inv, Counted, Grows, Down;
    var s, last := After(timeout, steps), DoIO(replies, result, destroyReplies);
    var served := CallbackAll(s, replies, false);
    RunInv(timeout, steps);
    ServicedInv(s, replies, false);
    assert 0 <= served.inFlight.Get(c) by { CountIsNatural(served, c); }
    ErrorLeavesCountIff(served, ENOTCONN, destroyReplies, c);
    RunAppend(Init(timeout), steps, last);
    NothingOwedWithoutContext(timeout, steps + [last], c);
    NobodyWaitsAfterShutdown(timeout, steps, last);
  }

  lemma CountIsNatural(s: State, c: Category)
    requires Inv(s, {}, None)
    ensures 0 <= s.inFlight.Get(c)
  {
    assert Slots(s, c);
  }
}
