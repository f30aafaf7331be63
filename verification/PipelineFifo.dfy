/**
 One mixed queue behaves like two FIFO queues, one per category: what a scan does to each
 of them, and when submission order is kept over whole runs.
 */
module PipelineFifo {
  import opened Common
  import opened Pipeline
  import opened EventLoopModel
  import opened EventLoopInvariants
  import opened EventLoopParts
  import opened EventLoopSafety
  import opened EventLoopRuns

  /** The operations of one category, in order. */
  function Only(q: seq<PendingOperation>, c: Category): seq<PendingOperation> {
    if q == [] then [] else (if q[0].cb.category == c then [q[0]] else []) + Only(q[1..], c)
  }

  /** How many of these operations libnfs accepts. */
  function AcceptedBy(q: seq<PendingOperation>): nat {
    if q == [] then 0 else (if q[0].rc < 0 then 0 else 1) + AcceptedBy(q[1..])
  }

  /** How many operations a FIFO queue hands over when `slots` are free: rejected ones take none. */
  function Prefix(q: seq<PendingOperation>, slots: int): nat {
    if q == [] || slots <= 0 then 0 else 1 + Prefix(q[1..], slots - if q[0].rc < 0 then 0 else 1)
  }

  lemma {:induction false} OnlyAppend(p: seq<PendingOperation>, q: seq<PendingOperation>, c: Category)
    ensures Only(p + q, c) == Only(p, c) + Only(q, c)
  {
    if p == [] {
      assert p + q == q;
    } else {
      assert (p + q)[1..] == p[1..] + q;
      OnlyAppend(p[1..], q, c);
    }
  }

  lemma OnlyOne(op: PendingOperation, c: Category)
    ensures Only([op], c) == if op.cb.category == c then [op] else []
  {
  }

  /** `Prefix` is the longest prefix whose every operation still finds a free slot, and stops only for want of one. */
  lemma {:induction false} PrefixIsLongest(q: seq<PendingOperation>, slots: int)
    ensures var k := Prefix(q, slots);
            && k <= |q|
            && (forall j :: 0 <= j < k ==> AcceptedBy(q[..j]) < slots)
            && (k < |q| ==> AcceptedBy(q[..k]) >= slots)
            && (slots >= 0 ==> AcceptedBy(q[..k]) <= slots)
  {
    var k := Prefix(q, slots);
    if q == [] || slots <= 0 {
      assert q[..0] == [];
    } else {
      var used := if q[0].rc < 0 then 0 else 1;
      PrefixIsLongest(q[1..], slots - used);
      forall j | 1 <= j <= k ensures AcceptedBy(q[..j]) == used + AcceptedBy(q[1..][..j - 1]) {
        assert q[..j][1..] == q[1..][..j - 1];
      }
      assert q[..0] == [];
    }
  }

  // ---- one scan ---------------------------------------------------------------

  lemma QueueSplit(q: seq<PendingOperation>, i: int, c: Category)
    requires 0 <= i < |q|
    ensures Only(q[i..], c) == Only([q[i]], c) + Only(q[i + 1..], c)
    ensures Only(q[..i + 1], c) == Only(q[..i], c) + Only([q[i]], c)
    ensures RemoveAt(q, i)[..i] == q[..i] && RemoveAt(q, i)[i..] == q[i + 1..]
  {
    assert q[i..] == [q[i]] + q[i + 1..];
    OnlyAppend([q[i]], q[i + 1..], c);
    assert q[..i + 1] == q[..i] + [q[i]];
    OnlyAppend(q[..i], [q[i]], c);
  }

  /**
   What a scan did to one category: of its operations `q` the longest prefix that the `slots` free slots allow was
   attempted in order (`done` and `done'` are the attempts before and after), and the rest is still pending behind
   `before`.
   */
  ghost predicate Drained(q: seq<PendingOperation>, slots: int, before: seq<PendingOperation>,
                          left: seq<PendingOperation>, done: seq<PendingOperation>, done': seq<PendingOperation>,
                          taken: int) {
    var k := Prefix(q, slots);
    0 <= k <= |q| && left == before + q[k..] && done' == done + q[..k] && taken == AcceptedBy(q[..k])
  }

  lemma DrainedStep(op: PendingOperation, rest: seq<PendingOperation>, slots: int, before: seq<PendingOperation>,
                    left: seq<PendingOperation>, done: seq<PendingOperation>, done': seq<PendingOperation>, taken: int)
    requires slots > 0
    requires Drained(rest, slots - if op.rc < 0 then 0 else 1, before, left, done + [op], done', taken)
    ensures Drained([op] + rest, slots, before, left, done, done', taken + if op.rc < 0 then 0 else 1)
  {
    var q := [op] + rest;
    var k := Prefix(rest, slots - if op.rc < 0 then 0 else 1);
    assert q[1..] == rest;
    assert q[..k + 1][1..] == rest[..k];
    assert q[..k + 1] == [op] + rest[..k];
  }

  lemma DrainedSkip(op: PendingOperation, rest: seq<PendingOperation>, slots: int, before: seq<PendingOperation>,
                    left: seq<PendingOperation>, done: seq<PendingOperation>, done': seq<PendingOperation>, taken: int)
    requires slots <= 0
    requires Drained(rest, slots, before + [op], left, done, done', taken)
    ensures Drained([op] + rest, slots, before, left, done, done', taken)
  {
    var q := [op] + rest;
    assert q[..0] == [] && rest[..0] == [];
    assert before + q[0..] == before + [op] + rest[0..];
  }

  /** `s'` is `s` after a scan that had passed over the first `i` pending operations. */
  ghost predicate Scanned(s: State, s': State, i: nat, c: Category)
    requires i <= |s.pending|
  {
    && Drained(Only(s.pending[i..], c), DepthOf(s, c) - s.inFlight.Get(c), Only(s.pending[..i], c),
               Only(s'.pending, c), Only(s.attempted, c), Only(s'.attempted, c), s'.inFlight.Get(c) - s.inFlight.Get(c))
    && s'.controllers == s.controllers
  }

  lemma ScannedExecute(s: State, s': State, i: nat, c: Category)
    requires i < |s.pending| && s.inFlight.Get(s.pending[i].cb.category) < DepthOf(s, s.pending[i].cb.category)
    requires Scanned(ExecuteAt(s, i), s', i, c)
    ensures Scanned(s, s', i, c)
  {
    hide Execute, IntegerDepth, Drained, Only;
    var op, s1 := s.pending[i], ExecuteAt(s, i);
    var before, rest, done := Only(s.pending[..i], c), Only(s.pending[i + 1..], c), Only(s.attempted, c);
    QueueSplit(s.pending, i, c);
    OnlyOne(op, c);
    OnlyAppend(s.attempted, [op], c);
    if op.cb.category == c {
      DrainedStep(op, rest, DepthOf(s, c) - s.inFlight.Get(c), before, Only(s'.pending, c), done, Only(s'.attempted, c),
                  s'.inFlight.Get(c) - s1.inFlight.Get(c));
    } else {
      assert [] + rest == rest && done + [] == done;
    }
  }

  lemma ScannedSkip(s: State, s': State, i: nat, c: Category)
    requires i < |s.pending| && s.inFlight.Get(s.pending[i].cb.category) >= DepthOf(s, s.pending[i].cb.category)
    requires Scanned(s, s', i + 1, c)
    ensures Scanned(s, s', i, c)
  {
    hide IntegerDepth, Drained, Only;
    var op := s.pending[i];
    var before, rest, done := Only(s.pending[..i], c), Only(s.pending[i + 1..], c), Only(s.attempted, c);
    QueueSplit(s.pending, i, c);
    OnlyOne(op, c);
    if op.cb.category == c {
      DrainedSkip(op, rest, DepthOf(s, c) - s.inFlight.Get(c), before, Only(s'.pending, c), done, Only(s'.attempted, c),
                  s'.inFlight.Get(c) - s.inFlight.Get(c));
    } else {
      assert [] + rest == rest && before + [] == before;
    }
  }

  lemma {:induction false} IssueFromDrains(s: State, i: nat, c: Category)
    requires i <= |s.pending|
    ensures Scanned(s, IssueFrom(s, i), i, c)
    decreases |s.pending| - i
  {
    hide Scanned, Execute, IntegerDepth;
    if i == |s.pending| {
      ScannedAll(s, c);
    } else {
      var k := s.pending[i].cb.category;
      if s.inFlight.Get(k) < DepthOf(s, k) {
        IssueFromDrains(ExecuteAt(s, i), i, c);
        ScannedExecute(s, IssueFrom(s, i), i, c);
      } else {
        IssueFromDrains(s, i + 1, c);
        ScannedSkip(s, IssueFrom(s, i), i, c);
      }
    }
  }

  lemma ScannedAll(s: State, c: Category)
    ensures Scanned(s, s, |s.pending|, c)
  {
    hide Drained;
    assert s.pending[..|s.pending|] == s.pending && s.pending[|s.pending|..] == [];
    OnlyNone(c);
    DrainedNothing(DepthOf(s, c) - s.inFlight.Get(c), Only(s.pending, c), Only(s.attempted, c));
  }

  lemma OnlyNone(c: Category)
    ensures Only([], c) == []
  {
  }

  lemma DrainedNothing(slots: int, before: seq<PendingOperation>, done: seq<PendingOperation>)
    ensures Drained([], slots, before, before, done, done, 0)
  {
    var q: seq<PendingOperation> := [];
    assert q[..0] == [] && q[0..] == [];
    assert before + [] == before && done + [] == done;
  }

  /**
   One pass over the mixed queue refines two independent FIFO queues, and leaves each category
   either with nothing pending or at its depth.
   */
  lemma ScanIsFifo(s: State, c: Category)
    requires s.context
    ensures var s', q := IssuePending(s), Only(s.pending, c);
            var k := Prefix(q, DepthOf(s, c) - s.inFlight.Get(c));
            && 0 <= k <= |q|
            && Only(s'.pending, c) == q[k..]
            && Only(s'.attempted, c) == Only(s.attempted, c) + q[..k]
            && s'.inFlight.Get(c) == s.inFlight.Get(c) + AcceptedBy(q[..k])
            && DepthOf(s', c) == DepthOf(s, c)
            && (Only(s'.pending, c) == [] || s'.inFlight.Get(c) >= DepthOf(s', c))
  {
    hide IntegerDepth, IssueFrom, Framed, Grows, AcceptedBy;
    var q := Only(s.pending, c);
    IssueFromDrains(s, 0, c);
    assert s.pending[..0] == [] && s.pending[0..] == s.pending;
    PrefixIsLongest(q, DepthOf(s, c) - s.inFlight.Get(c));
  }

  // ---- runs -------------------------------------------------------------------

  /** Pending operations wait only for slots. */
  ghost predicate Saturated(s: State, c: Category) {
    Only(s.pending, c) != [] ==> s.inFlight.Get(c) >= DepthOf(s, c)
  }

  /** The admitted operations of a category are the attempted ones followed by the pending ones. */
  ghost predicate InOrder(s: State, c: Category) {
    Only(s.submitted, c) == Only(s.attempted, c) + Only(s.pending, c)
  }

  /** Once the queue has been dropped, what was attempted is still a prefix of what was admitted. */
  ghost predicate Fifo(s: State, c: Category) {
    if s.context then Saturated(s, c) && InOrder(s, c) else Only(s.attempted, c) <= Only(s.submitted, c)
  }

  lemma IssuePendingFifo(s: State, c: Category)
    requires s.context && InOrder(s, c)
    ensures Saturated(IssuePending(s), c) && InOrder(IssuePending(s), c)
  {
    hide IntegerDepth, IssuePending, Only, Prefix, AcceptedBy;
    var q := Only(s.pending, c);
    ScanIsFifo(s, c);
    var k := Prefix(q, DepthOf(s, c) - s.inFlight.Get(c));
    assert q == q[..k] + q[k..];
  }

  /** Completing a call frees a slot and moves the depth; the scan that follows makes up for both. */
  lemma CallbackFifo(s: State, r: Reply, c: Category)
    requires r.id in s.outstanding && Fifo(s, c)
    ensures Fifo(Callback(s, r), c)
    ensures !s.context ==> Callback(s, r).attempted == s.attempted && Callback(s, r).pending == s.pending
  {
    hide IntegerDepth, IssuePending, Only;
    var cb := s.outstanding[r.id];
    var s1 := RecordCompletion(Taken(s, r), cb.category, ReplySucceeds(cb.kind, r));
    QueuesOfTaken(s, r, ReplySucceeds(cb.kind, r));
    if s.context {
      IssuePendingFifo(s1, c);
    } else {
      IssueNothing(s1);
    }
    QueuesOfResume(IssuePending(s1), r.id, ReplyOutcome(cb.kind, r), c);
  }

  lemma QueuesOfTaken(s: State, r: Reply, success: bool)
    requires r.id in s.outstanding
    ensures var s' := RecordCompletion(Taken(s, r), s.outstanding[r.id].category, success);
            s'.pending == s.pending && s'.attempted == s.attempted && s'.submitted == s.submitted
                && s'.context == s.context
  {
  }

  lemma QueuesOfResume(s: State, id: ID, o: Outcome, c: Category)
    ensures Fifo(Resume(s, id, o), c) == Fifo(s, c)
    ensures Resume(s, id, o).attempted == s.attempted && Resume(s, id, o).pending == s.pending
  {
  }

  lemma IssueNothing(s: State)
    requires !s.context
    ensures IssuePending(s) == s
  {
  }

  lemma {:induction false} CallbackAllFifo(s: State, replies: seq<Reply>, onRpc: bool, c: Category)
    requires Fifo(s, c)
    ensures Fifo(CallbackAll(s, replies, onRpc), c)
    decreases |replies|
  {
    hide Fifo, Callback;
    if replies != [] {
      if Answers(s, replies[0], onRpc) {
        CallbackFifo(s, replies[0], c);
        CallbackAllFifo(Callback(s, replies[0]), replies[1..], onRpc, c);
      } else {
        CallbackAllFifo(s, replies[1..], onRpc, c);
      }
    }
  }

  /** Steps that touch neither the queue nor its histories, free no slot and change no depth. */
  lemma QuietFifo(s: State, s': State, c: Category)
    requires Fifo(s, c)
    requires Quiet(s, s')
    ensures Fifo(s', c)
  {
    hide Only, IntegerDepth;
  }

  lemma SubmitFifo(s: State, k: Category, now: int, rc: int, c: Category)
    requires Fifo(s, c) && Fifo(s, k)
    ensures Fifo(Submit(s, k, now, rc), c)
  {
    hide Admit, Only, Contained, IntegerDepth;
    if s.context {
      AdmitFifo(s, PendingOperation(CallbackData(s.nextID, Gated, k, now), rc), c);
    }
  }

  lemma ActivateKeeps(s: State, cb: CallbackData)
    ensures var s1 := Activate(s, cb);
            && s1.inFlight == s.inFlight && s1.controllers == s.controllers && s1.pending == s.pending
            && s1.submitted == s.submitted
  {
  }

  lemma NothingWaits(s: State, c: Category)
    requires s.context && Fifo(s, c) && s.inFlight.Get(c) < DepthOf(s, c)
    ensures Only(s.pending, c) == []
  {
    hide Only, IntegerDepth;
  }

  lemma AdmitFifo(s: State, op: PendingOperation, c: Category)
    requires s.context && Fifo(s, c) && Fifo(s, op.cb.category)
    ensures Fifo(Admit(s, op), c)
  {
    hide IntegerDepth, IssueOperation, Enqueue, Overflow, Activate, Fifo, Contained, Quiet;
    ActivateKeeps(s, op.cb);
    if s.inFlight.Get(op.cb.category) < DepthOf(s, op.cb.category) {
      NothingWaits(s, op.cb.category);
      IssuedFifo(s, op, c);
    } else if |s.pending| >= MAX_PENDING_OPERATIONS {
      OverflowFrame(s, op.cb);
      QuietFifo(s, Overflow(Activate(s, op.cb), op.cb.id), c);
    } else {
      QueuedFifo(s, op, c);
    }
  }

  lemma IssuedFifo(s: State, op: PendingOperation, c: Category)
    requires s.context && Fifo(s, c) && Only(s.pending, op.cb.category) == []
    ensures Fifo(IssueOperation(Activate(s, op.cb).(submitted := s.submitted + [op]), op.cb, op.rc), c)
  {
    hide IntegerDepth, Execute, Only;
    OnlyOne(op, c);
    OnlyAppend(s.submitted, [op], c);
    OnlyAppend(s.attempted, [op], c);
    if c == op.cb.category {
      assert Only(s.attempted, c) + [op] + [] == Only(s.attempted, c) + [] + [op];
    } else {
      assert Only(s.submitted, c) + [] == Only(s.submitted, c) && Only(s.attempted, c) + [] == Only(s.attempted, c);
    }
  }

  lemma QueuedFifo(s: State, op: PendingOperation, c: Category)
    requires s.context && Fifo(s, c) && s.inFlight.Get(op.cb.category) >= DepthOf(s, op.cb.category)
    ensures Fifo(Enqueue(Activate(s, op.cb), op), c)
  {
    hide IntegerDepth, Only;
    OnlyOne(op, c);
    OnlyAppend(s.submitted, [op], c);
    OnlyAppend(s.pending, [op], c);
    assert Only(s.attempted, c) + (Only(s.pending, c) + Only([op], c)) ==
           Only(s.attempted, c) + Only(s.pending, c) + Only([op], c);
    assert Only(s.pending, c) + [] == Only(s.pending, c);
  }

  lemma OverflowFrame(s: State, cb: CallbackData)
    ensures Quiet(s, Overflow(Activate(s, cb), cb.id))
  {
  }

  lemma DropQueue(s: State, c: Category)
    requires Fifo(s, c)
    ensures Only(s.attempted, c) <= Only(s.submitted, c)
  {
  }

  lemma DestroyContextFifo(s: State, replies: seq<Reply>, c: Category)
    requires Only(s.attempted, c) <= Only(s.submitted, c)
    ensures Fifo(DestroyContext(s, replies), c) && !DestroyContext(s, replies).context
  {
    hide Only, CallbackAll;
    var s1 := s.(context := false, trace := s.trace + [Destroy]);
    CallbackAllFifo(s1, replies, false, c);
    var s2 := CallbackAll(s1, replies, false);
    QuietFifo(s2, Abandon(s2, false), c);
  }

  lemma CleanupExportsFifo(s: State, replies: seq<Reply>, c: Category)
    requires Fifo(s, c)
    ensures Fifo(CleanupExports(s, replies), c)
  {
    hide Fifo, CallbackAll;
    var s0 := s.(exports := None);
    QuietFifo(s, s0, c);
    CallbackAllFifo(s0, replies, true, c);
    var s1 := CallbackAll(s0, replies, true);
    QuietFifo(s1, Abandon(s1, true).(exportsDone := false), c);
    QuietFifo(s, s.(exportsDone := false), c);
  }

  /** Whatever shuts the loop down, what it attempted is a prefix of what it admitted. */
  lemma ShutdownWithErrorFifo(s: State, e: PosixError, replies: seq<Reply>, c: Category)
    requires Fifo(s, c)
    ensures Fifo(ShutdownWithError(s, e, replies), c)
  {
    hide Only, DestroyContext;
    DropQueue(s, c);
    DestroyContextFifo(Detach(s), replies, c);
  }

  lemma PerformShutdownFifo(s: State, rpcReplies: seq<Reply>, replies: seq<Reply>, c: Category)
    requires Fifo(s, c)
    ensures Fifo(PerformShutdown(s, rpcReplies, replies), c)
  {
    hide Only, DestroyContext, CleanupExports;
    CleanupExportsFifo(s, rpcReplies, c);
    DropQueue(CleanupExports(s, rpcReplies), c);
    DestroyContextFifo(Detach(CleanupExports(s, rpcReplies)).(handles := map[]), replies, c);
  }

  lemma StepFifo(s: State, step: Step, c: Category)
    requires Fifo(s, Bulk) && Fifo(s, Metadata) && !step.DoTimeouts?
    ensures Fifo(Apply(s, step), c)
  {
    hide Fifo, CallbackAll, CleanupExports, ShutdownWithError, PerformShutdown, Submit, CallHandle, CallMount,
         CallGetExports, IssuePending;
    match step
    case DoSubmit(k, now, rc) =>
      assert k == Bulk || k == Metadata;
      SubmitFifo(s, k, now, rc, c);
    case DoHandle(h, op, now, rc) => QuietFifo(s, CallHandle(s, h, op, now, rc), c);
    case DoMount(now, rc) => QuietFifo(s, CallMount(s, now, rc), c);
    case DoGetExports(available, now, rc) => QuietFifo(s, CallGetExports(s, available, now, rc), c);
    case DoOpen(fh) => QuietFifo(s, OpenHandle(s, fh), c);
    case DoForget(h, replies) =>
      if h in s.handles {
        QuietFifo(s, s.(handles := s.handles - {h}), c);
        QuietFifo(s, s.(handles := s.handles - {h}, trace := s.trace + [Close(h, s.handles[h])]), c);
        CallbackAllFifo(s.(handles := s.handles - {h}, trace := s.trace + [Close(h, s.handles[h])]), replies, false, c);
      }
    case DoIO(replies, result, destroyReplies) =>
      CallbackAllFifo(s, replies, false, c);
      var s1 := CallbackAll(s, replies, false);
      ShutdownWithErrorFifo(s1, ENOTCONN, destroyReplies, c);
      ServicedFifo(s1, c);
    case DoRpc(replies, result, destroyReplies) =>
      CallbackAllFifo(s, replies, true, c);
      CleanupExportsFifo(CallbackAll(s, replies, true), destroyReplies, c);
    case DoShutdown(rpcReplies, replies) => PerformShutdownFifo(s, rpcReplies, replies, c);
  }

  lemma ServicedFifo(s: State, c: Category)
    requires Fifo(s, c)
    ensures Fifo(IssuePending(s), c)
  {
    hide Only, IssuePending, IntegerDepth;
    if s.context {
      IssuePendingFifo(s, c);
    } else {
      IssueNothing(s);
    }
  }

  predicate TimeoutFree(steps: seq<Step>) {
    forall i :: 0 <= i < |steps| ==> !steps[i].DoTimeouts?
  }

  lemma {:induction false} RunFifo(s: State, steps: seq<Step>, c: Category)
    requires Fifo(s, Bulk) && Fifo(s, Metadata) && TimeoutFree(steps)
    ensures Fifo(Run(s, steps), c)
    decreases |steps|
  {
    hide Fifo, Apply;
    if steps != [] {
      StepFifo(s, steps[0], Bulk);
      StepFifo(s, steps[0], Metadata);
      assert forall i :: 0 <= i < |steps| - 1 ==> steps[1..][i] == steps[i + 1];
      RunFifo(Apply(s, steps[0]), steps[1..], c);
    }
  }

  /** No overtaking: on every run without timeouts, a category hands its operations to libnfs in submission order,
      and while the connection lives it holds operations back only when it is at its depth. */
  lemma NoOvertaking(timeout: int, steps: seq<Step>, c: Category)
    requires TimeoutFree(steps)
    ensures var s := After(timeout, steps);
            && Only(s.attempted, c) <= Only(s.submitted, c)
            && (s.context ==> Only(s.submitted, c) == Only(s.attempted, c) + Only(s.pending, c))
            && (s.context && Only(s.pending, c) != [] ==> s.inFlight.Get(c) >= DepthOf(s, c))
  {
    hide Run, Only, IntegerDepth;
    FifoAtStart(timeout, Bulk);
    FifoAtStart(timeout, Metadata);
    RunFifo(Init(timeout), steps, c);
  }

  lemma FifoAtStart(timeout: int, c: Category)
    ensures Fifo(Init(timeout), c)
  {
  }

  // ---- with timeouts ----------------------------------------------------------

  /** Serviced successfully, the loop is saturated again, whatever timeouts did before. */
  lemma ServiceSaturates(s: State, replies: seq<Reply>, result: int, destroyReplies: seq<Reply>, c: Category)
    requires s.context && result >= 0
    ensures Saturated(IOEvent(s, replies, result, destroyReplies), c)
  {
    hide Only, IntegerDepth, IssuePending, CallbackAll;
    ScanIsFifo(CallbackAll(s, replies, false), c);
  }

  /** A submission overtakes exactly when its category has operations pending and a free slot all the same. */
  lemma OvertakesIff(s: State, c: Category, now: int, rc: int)
    requires Inv(s, {}, None) && s.context && InOrder(s, c)
    ensures InOrder(Submit(s, c, now, rc), c) <==> !(Only(s.pending, c) != [] && s.inFlight.Get(c) < DepthOf(s, c))
  {
    hide Admit, IntegerDepth, Only, Inv, Contained, InOrder;
    AdmitKeepsOrderIff(s, PendingOperation(CallbackData(s.nextID, Gated, c, now), rc));
  }

  lemma AdmitKeepsOrderIff(s: State, op: PendingOperation)
    requires Inv(s, {}, None) && s.context && InOrder(s, op.cb.category) && op.cb.id == s.nextID
    ensures var c := op.cb.category;
            InOrder(Admit(s, op), c) <==> !(Only(s.pending, c) != [] && s.inFlight.Get(c) < DepthOf(s, c))
  {
    hide IntegerDepth, IssueOperation, Enqueue, Overflow, Only, Inv, Contained;
    var c := op.cb.category;
    if s.inFlight.Get(c) < DepthOf(s, c) {
      IssuedOrder(s, op);
    } else if |s.pending| >= MAX_PENDING_OPERATIONS {
      OverflowFrame(s, op.cb);
    } else {
      QueuedOrder(s, op);
    }
  }

  lemma IssuedOrder(s: State, op: PendingOperation)
    requires Inv(s, {}, None) && InOrder(s, op.cb.category) && op.cb.id == s.nextID
    ensures InOrder(IssueOperation(Activate(s, op.cb).(submitted := s.submitted + [op]), op.cb, op.rc), op.cb.category)
            <==> Only(s.pending, op.cb.category) == []
  {
    hide Inv, Execute, Only;
    var c := op.cb.category;
    var done, waiting := Only(s.attempted, c), Only(s.pending, c);
    OnlyOne(op, c);
    OnlyAppend(s.submitted, [op], c);
    OnlyAppend(s.attempted, [op], c);
    if waiting == [] {
      assert done + [] + [op] == done + [op] + [];
    } else {
      OnlyKeepsMembers(s.pending, c);
      FreshID(s, waiting[0]);
      assert (done + waiting + [op])[|done|] == waiting[0];
      assert (done + [op] + waiting)[|done|] == op;
    }
  }

  lemma QueuedOrder(s: State, op: PendingOperation)
    requires InOrder(s, op.cb.category)
    ensures InOrder(Enqueue(Activate(s, op.cb), op), op.cb.category)
  {
    hide Only;
    var c := op.cb.category;
    OnlyAppend(s.submitted, [op], c);
    OnlyAppend(s.pending, [op], c);
    assert Only(s.attempted, c) + (Only(s.pending, c) + Only([op], c)) ==
           Only(s.attempted, c) + Only(s.pending, c) + Only([op], c);
  }

  lemma {:induction false} OnlyKeepsMembers(q: seq<PendingOperation>, c: Category)
    ensures forall i :: 0 <= i < |Only(q, c)| ==> Only(q, c)[i] in q
  {
    if q != [] {
      OnlyKeepsMembers(q[1..], c);
    }
  }

  lemma FreshID(s: State, op: PendingOperation)
    requires Inv(s, {}, None) && op in s.pending
    ensures op.cb.id != s.nextID
  {
    var i :| 0 <= i < |s.pending| && s.pending[i] == op;
    QueuedIDs(s.pending, op.cb.id);
  }
}
