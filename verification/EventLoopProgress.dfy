/** No operation is stranded in the queue: its category has a call with libnfs whose answer rescans the queue. */
module EventLoopProgress {
  import opened Common
  import opened Pipeline
  import opened EventLoopModel
  import opened EventLoopInvariants
  import opened EventLoopParts
  import opened EventLoopSafety
  import opened EventLoopRuns
  import opened EventLoopTheorems
  import opened EventLoopAccounting
  import opened PipelineFifo

  /** Whatever waits in category `c` waits for a call that is with libnfs. */
  ghost predicate Fed(s: State, c: Category) {
    s.context && Only(s.pending, c) != [] ==> Counted(s.outstanding, c, false) != {}
  }

  lemma CountMeansCall(s: State, detached: set<ID>, c: Category)
    requires Inv(s, detached, None) && s.context && s.inFlight.Get(c) >= DepthOf(s, c)
    ensures Counted(s.outstanding, c, false) != {}
  {
    hide IntegerDepth;
    assert Slots(s, c);
    DepthWithinBounds(s, c);
  }

  /** A scan leaves a category empty or at its depth, and a depth is at least one call. */
  lemma ScanFeeds(s: State, detached: set<ID>, c: Category)
    requires Inv(s, detached, None)
    ensures Fed(IssuePending(s), c)
  {
    hide Inv, IntegerDepth, IssuePending, Only, Prefix, AcceptedBy;
    IssuePendingInv(s, detached);
    if s.context {
      ScanIsFifo(s, c);
      if Only(IssuePending(s).pending, c) != [] {
        CountMeansCall(IssuePending(s), detached, c);
      }
    } else {
      IssueNothing(s);
    }
  }

  lemma AnswerFeeds(s: State, r: Reply, detached: set<ID>, c: Category)
    requires Inv(s, detached, None) && r.id in s.outstanding
    ensures Fed(Callback(s, r), c)
  {
    hide Inv, IssuePending, Only, Counted;
    var cb := s.outstanding[r.id];
    var ok := ReplySucceeds(cb.kind, r);
    TakenInv(s, r, ok, detached);
    ScanFeeds(RecordCompletion(Taken(s, r), cb.category, ok), detached + StillWaiting(s, r.id), c);
  }

  lemma {:induction false} AnswersFeed(s: State, replies: seq<Reply>, onRpc: bool, detached: set<ID>, c: Category)
    requires Inv(s, detached, None) && Fed(s, c)
    ensures Fed(CallbackAll(s, replies, onRpc), c)
    decreases |replies|
  {
    hide Inv, Callback, Fed;
    if replies != [] {
      if Answers(s, replies[0], onRpc) {
        CallbackInv(s, replies[0], detached);
        AnswerFeeds(s, replies[0], detached, c);
        AnswersFeed(Callback(s, replies[0]), replies[1..], onRpc, detached - {replies[0].id}, c);
      } else {
        AnswersFeed(s, replies[1..], onRpc, detached, c);
      }
    }
  }

  // ---- the other steps --------------------------------------------------------------------

  /** Steps that leave the queue alone and end no call. */
  lemma CallsOnlyGrow(s: State, s': State, c: Category)
    requires Fed(s, c) && s'.context == s.context && s'.pending == s.pending
    requires |Counted(s'.outstanding, c, false)| >= |Counted(s.outstanding, c, false)|
    ensures Fed(s', c)
  {
    hide Only, Counted;
  }

  lemma QuietStepFeeds(s: State, s': State, c: Category)
    requires Fed(s, c) && Quiet(s, s') && Gap(s', c) == Gap(s, c)
    ensures Fed(s', c)
  {
    hide Only, Counted;
    CallsOnlyGrow(s, s', c);
  }

  lemma AdmitFeeds(s: State, op: PendingOperation, c: Category)
    requires Inv(s, {}, None) && s.context && Fed(s, c) && op.cb.id == s.nextID && op.cb.kind.Gated?
    ensures Fed(Admit(s, op), c)
  {
    hide Inv, IssueOperation, Enqueue, Overflow, Activate, IntegerDepth, Contained, Only, Counted;
    NextIDFree(s);
    ActivateKeeps(s, op.cb);
    IssuedFeeds(s, op, c);
    QueuedFeeds(s, op, c);
    if s.inFlight.Get(op.cb.category) >= DepthOf(s, op.cb.category) {
      CountMeansCall(s, {}, op.cb.category);
    }
  }

  lemma IssuedFeeds(s: State, op: PendingOperation, c: Category)
    requires Fed(s, c) && op.cb.id !in s.outstanding && op.cb.kind.Gated?
    ensures Fed(IssueOperation(Activate(s, op.cb).(submitted := s.submitted + [op]), op.cb, op.rc), c)
  {
    hide Execute, Only;
    CountsAfterAccept(s.outstanding, op.cb, c, false);
  }

  lemma QueuedFeeds(s: State, op: PendingOperation, c: Category)
    requires Fed(s, c)
    ensures Fed(Overflow(Activate(s, op.cb), op.cb.id), c)
    ensures op.cb.category != c || Counted(s.outstanding, c, false) != {} ==> Fed(Enqueue(Activate(s, op.cb), op), c)
  {
    hide Only, Counted;
    OnlyAppend(s.pending, [op], c);
    OnlyOne(op, c);
    assert Only(s.pending, c) + [] == Only(s.pending, c);
  }

  lemma TimeoutsKeepQueue(s: State, order: seq<ID>)
    ensures TimeoutAll(s, order).pending == s.pending
    decreases |order|
  {
    if order != [] {
      TimeoutsKeepQueue(TimeoutOne(s, order[0]), order[1..]);
    }
  }

  lemma CleanupFeeds(s: State, replies: seq<Reply>, c: Category)
    requires Inv(s, {}, None) && Fed(s, c)
    ensures Fed(CleanupExports(s, replies), c)
  {
    hide Inv, CallbackAll, Only, Counted;
    if s.exports.Some? {
      var s0 := s.(exports := None);
      HistoryInv(s, s0, {}, None);
      AnswersFeed(s0, replies, true, {}, c);
      CountsWithoutExports(CallbackAll(s0, replies, true).outstanding, c, false);
    }
  }

  lemma RequestFeeds(s: State, step: Step, c: Category)
    requires Inv(s, {}, None) && Fed(s, c) && Request(step)
    ensures Fed(Apply(s, step), c)
  {
    hide Inv, Fed, Gap, Admit, CallHandle, CallMount, CallGetExports, OpenHandle, Contained, Quiet, Grows, Refuse;
    match step
    case DoSubmit(k, now, rc) =>
      if s.context {
        AdmitFeeds(s, PendingOperation(CallbackData(s.nextID, Gated, k, now), rc), c);
      } else {
        RefusalKeepsGap(s, ENOTCONN, c);
        QuietStepFeeds(s, Refuse(s, ENOTCONN), c);
      }
    case DoHandle(h, op, now, rc) =>
      HandleKeepsGap(s, h, op, now, rc, c);
      QuietStepFeeds(s, CallHandle(s, h, op, now, rc), c);
    case DoMount(now, rc) =>
      MountKeepsGap(s, now, rc, c);
      QuietStepFeeds(s, CallMount(s, now, rc), c);
    case DoGetExports(available, now, rc) =>
      ExportsKeepGap(s, available, now, rc, c);
      QuietStepFeeds(s, CallGetExports(s, available, now, rc), c);
    case DoOpen(fh) =>
      OpenKeepsGap(s, fh, c);
      OpenIsQuiet(s, fh);
      QuietStepFeeds(s, OpenHandle(s, fh), c);
  }

  lemma OpenIsQuiet(s: State, fh: Nfsfh)
    ensures Quiet(s, OpenHandle(s, fh))
  {
  }

  lemma ForgottenFeeds(s: State, h: ID, c: Category)
    requires Fed(s, c) && h in s.handles
    ensures Fed(s.(handles := s.handles - {h}), c)
    ensures Fed(s.(handles := s.handles - {h}, trace := s.trace + [Close(h, s.handles[h])]), c)
  {
    hide Only, Counted;
  }

  lemma TimeoutsFeed(s: State, order: seq<ID>, c: Category)
    requires Fed(s, c)
    ensures Fed(TimeoutAll(s, order), c)
  {
    hide Only, Counted, TimeoutAll, Grows;
    TimeoutsKeepQueue(s, order);
    TimeoutsKeepCalls(s, order);
  }

  lemma StepFeeds(s: State, step: Step, c: Category)
    requires Inv(s, {}, None) && Fed(s, c)
    ensures Fed(Apply(s, step), c)
  {
    hide Inv, CallbackAll, CleanupExports, TimeoutAll, IssuePending, Grows, ShutdownWithError, PerformShutdown, Only,
         Counted, Submit, CallHandle, CallMount, CallGetExports;
    match step
    case DoForget(h, replies) =>
      if h in s.handles {
        ClosedInv(s, h);
        ForgottenFeeds(s, h, c);
        if s.context {
          var s1 := s.(handles := s.handles - {h}, trace := s.trace + [Close(h, s.handles[h])]);
          AnswersFeed(s1, replies, false, {}, c);
        }
      }
    case DoIO(replies, result, destroyReplies) =>
      ServicedInv(s, replies, false);
      AnswersFeed(s, replies, false, {}, c);
      ScanFeeds(CallbackAll(s, replies, false), {}, c);
    case DoRpc(replies, result, destroyReplies) =>
      ServicedInv(s, replies, true);
      AnswersFeed(s, replies, true, {}, c);
      CleanupFeeds(CallbackAll(s, replies, true), destroyReplies, c);
    case DoTimeouts(now, order, rpcReplies) =>
      TimeoutAllInv(s, order);
      TimeoutsFeed(s, order, c);
      CleanupFeeds(TimeoutAll(s, order), rpcReplies, c);
    case DoShutdown(rpcReplies, replies) =>
    case _ => RequestFeeds(s, step, c);
  }

  lemma {:induction false} RunFeeds(s: State, steps: seq<Step>, c: Category)
    requires Inv(s, {}, None) && Fed(s, c)
    ensures Fed(Run(s, steps), c)
    decreases |steps|
  {
    hide Inv, Fed, Apply;
    if steps != [] {
      StepInv(s, steps[0]);
      StepFeeds(s, steps[0], c);
      RunFeeds(Apply(s, steps[0]), steps[1..], c);
    }
  }

  /** On every run, timeouts included: while the connection lives and operations of a category wait, a call of that
      category that took a slot is with libnfs, so that its answer will rescan the queue. */
  lemma NobodyStranded(timeout: int, steps: seq<Step>, c: Category)
    ensures var s := After(timeout, steps);
            s.context && Only(s.pending, c) != [] ==> Counted(s.outstanding, c, false) != {}
  {
    hide Inv, Run, Only, Counted;
    InitInv(timeout);
    NothingQueuedYet(timeout, c);
    RunFeeds(Init(timeout), steps, c);
  }

  lemma NothingQueuedYet(timeout: int, c: Category)
    ensures Fed(Init(timeout), c)
  {
  }
}
