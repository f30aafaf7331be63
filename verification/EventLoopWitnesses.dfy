/**
 Runs on which the stronger claims fail. Each begins with a mount that is answered: before that there
 is neither a socket whose events could be handled nor a timer.
 */
module EventLoopWitnesses {
  import opened Common
  import opened Pipeline
  import opened EventLoopModel
  import opened EventLoopInvariants
  import opened EventLoopRuns
  import opened EventLoopTheorems
  import opened EventLoopAccounting
  import opened EventLoopBorrowing

  // ---- what single steps do, field by field --------------------------------------------

  function GatedCall(s: State, now: int): CallbackData {
    CallbackData(s.nextID, Gated, Metadata, now)
  }

  /** A gated operation that finds a slot and is accepted. */
  function WithCall(s: State, now: int): State {
    var cb := GatedCall(s, now);
    s.(active := s.active[cb.id := cb], nextID := s.nextID + 1, outstanding := s.outstanding[cb.id := cb],
       retains := s.retains[cb.id := Retains(s, cb.id) + 1],
       inFlight := s.inFlight.Set(Metadata, s.inFlight.metadata + 1),
       submitted := s.submitted + [PendingOperation(cb, 0)], attempted := s.attempted + [PendingOperation(cb, 0)],
       trace := s.trace + [Issue(cb.id)])
  }

  /** A gated operation that has to wait. */
  function WithPending(s: State, now: int): State {
    var cb := GatedCall(s, now);
    s.(active := s.active[cb.id := cb], nextID := s.nextID + 1, retains := s.retains[cb.id := Retains(s, cb.id) + 1],
       submitted := s.submitted + [PendingOperation(cb, 0)], pending := s.pending + [PendingOperation(cb, 0)])
  }

  lemma SubmitEffect(s: State, now: int)
    requires s.context && |s.pending| < MAX_PENDING_OPERATIONS
    ensures Submit(s, Metadata, now, 0)
         == if s.inFlight.metadata < DepthOf(s, Metadata) then WithCall(s, now) else WithPending(s, now)
  {
    hide IntegerDepth, Contained, Framed;
  }

  /** A call is answered while nothing waits for a slot. */
  function WithAnswer(s: State, r: Reply): State
    requires r.id in s.outstanding
  {
    var cb := s.outstanding[r.id];
    s.(active := s.active - {r.id}, outstanding := s.outstanding - {r.id},
       retains := s.retains[r.id := Retains(s, r.id) - 1],
       buffers := EndedBuffers(s.buffers, r.id, r.status), answers := s.answers + [Answer(cb.kind, r)],
       exportsDone := s.exportsDone || cb.kind.Exports?,
       uncharged := if Metered(cb.kind) then s.uncharged
                    else s.uncharged.Set(cb.category, s.uncharged.Get(cb.category) + 1),
       inFlight := s.inFlight.Set(cb.category, Max(0, s.inFlight.Get(cb.category) - 1)),
       controllers := s.controllers.Set(cb.category, Record(s.controllers.Get(cb.category), ReplySucceeds(cb.kind, r))),
       hasResumed := s.hasResumed + {r.id},
       delivered := if r.id in s.hasResumed then s.delivered
                    else s.delivered[r.id := Outcomes(s, r.id) + [ReplyOutcome(cb.kind, r)]])
  }

  lemma AnswerEffect(s: State, r: Reply, onRpc: bool)
    requires Answers(s, r, onRpc) && s.pending == []
    ensures CallbackAll(s, [r], onRpc) == WithAnswer(s, r)
  {
    hide Record, EndedBuffers, Framed, ReplyOutcome, ReplySucceeds;
    assert [r][1..] == [];
  }

  lemma Serviced(s: State, r: Reply)
    requires s.context && Answers(s, r, false) && s.pending == []
    ensures Apply(s, DoIO([r], 0, [])) == WithAnswer(s, r)
  {
    hide CallbackAll, ShutdownWithError, Record, EndedBuffers, ReplyOutcome, ReplySucceeds, Grows;
    AnswerEffect(s, r, false);
  }

  // ---- a mounted loop ---------------------------------------------------------------------

  function MountRun(): seq<Step> {
    [DoMount(0, 0), DoIO([Reply(1, 0, true)], 0, [])]
  }

  function Mounted(timeout: int): State {
    Init(timeout).(nextID := 2, hasResumed := {1}, delivered := map[1 := [Returned(0)]], retains := map[1 := 0],
                   answers := [Answer(Kind.Mount, Reply(1, 0, true))],
                   uncharged := PerCategory(0, 1), controllers := PerCategory(Default(), Succeeded(Default())),
                   trace := [Issue(1)])
  }

  function MountCalled(timeout: int): State {
    var cb := CallbackData(1, Mount, Metadata, 0);
    Init(timeout).(nextID := 2, active := map[1 := cb], outstanding := map[1 := cb], retains := map[1 := 1],
                   trace := [Issue(1)])
  }

  lemma MountIsCalled(timeout: int)
    ensures Apply(Init(timeout), DoMount(0, 0)) == MountCalled(timeout)
  {
    hide Grows, Quiet, Contained;
  }

  lemma MountAnswered(timeout: int)
    ensures WithAnswer(MountCalled(timeout), Reply(1, 0, true)) == Mounted(timeout)
  {
    hide Succeeded;
    var s, r := MountCalled(timeout), Reply(1, 0, true);
    var a, m := WithAnswer(s, r), Mounted(timeout);
    assert [] + [Returned(0)] == [Returned(0)];
    assert a.active == m.active && a.outstanding == m.outstanding && a.retains == m.retains;
  }

  lemma MountedIsReached(timeout: int)
    ensures After(timeout, MountRun()) == Mounted(timeout)
  {
    hide Apply, Succeeded, Grows;
    var a, b, s := MountRun()[0], MountRun()[1], MountCalled(timeout);
    MountIsCalled(timeout);
    Serviced(s, Reply(1, 0, true));
    assert s.active - {1} == map[] && s.outstanding - {1} == map[] && s.retains[1 := 0] == map[1 := 0];
    MountAnswered(timeout);
    assert MountRun()[1..] == [b] && [b][1..] == [];
  }

  /** A mount that is answered while nothing is in flight is fair. */
  lemma MountIsFair(timeout: int, c: Category)
    ensures FairRun(Init(timeout), MountRun(), c)
  {
    hide Apply, Callback;
    var s, r := MountCalled(timeout), Reply(1, 0, true);
    MountIsCalled(timeout);
    assert MountRun()[1..] == [DoIO([r], 0, [])] && [DoIO([r], 0, [])][1..] == [] && [r][1..] == [];
    assert FairAnswers(s, [r], false, c);
    assert FairStep(s, DoIO([r], 0, []), c);
  }

  /** One step more. */
  lemma AfterOneMore(timeout: int, steps: seq<Step>, last: Step, s: State)
    requires After(timeout, steps) == s
    ensures After(timeout, steps + [last]) == Apply(s, last)
  {
    hide Run, Apply;
    RunAppend(Init(timeout), steps, last);
  }

  lemma FreshDepths()
    ensures IntegerDepth(Default()) == 2 && IntegerDepth(Succeeded(Default())) == 4
  {
  }

  function SubmitRun(): seq<Step> {
    MountRun() + [DoSubmit(Metadata, 0, 0)]
  }

  /** Mounted, with one gated operation accepted and unanswered. */
  lemma OneCallOpen(timeout: int)
    ensures After(timeout, SubmitRun()) == WithCall(Mounted(timeout), 0)
  {
    hide Submit, Run, IntegerDepth, Grows;
    MountedIsReached(timeout);
    FreshDepths();
    SubmitEffect(Mounted(timeout), 0);
    AfterOneMore(timeout, MountRun(), DoSubmit(Metadata, 0, 0), Mounted(timeout));
  }

  // ---- counts -----------------------------------------------------------------------------

  /** One accepted call, then a failed service call that does not answer it: the count stays at one for good. */
  lemma CountGoesStale()
    ensures var s := After(5, SubmitRun() + [DoIO([], -1, [])]);
            !s.context && s.inFlight.Get(Metadata) == 1 && s.outstanding == map[]
  {
    hide Run, Grows, Succeeded, PendingIDs, Submit;
    var s := WithCall(Mounted(5), 0);
    OneCallOpen(5);
    AfterOneMore(5, SubmitRun(), DoIO([], -1, []), s);
    assert OnContext(s.outstanding, false) == {2};
  }

  /** One call with libnfs that the count has given up, because its caller timed out. */
  lemma TimeoutUndercounts()
    ensures var s := After(5, SubmitRun() + [DoTimeouts(10, [2], [])]);
            s.context && s.outstanding.Keys == {2} && s.inFlight.Get(Metadata) == 0 && Gap(s, Metadata) == 1
  {
    hide Run, Apply, Gap;
    var s, last := WithCall(Mounted(5), 0), DoTimeouts(10, [2], []);
    OneCallOpen(5);
    AfterOneMore(5, SubmitRun(), last, s);
    OnlyCallTimesOut(s);
  }

  lemma ScanIsTimeoutAll(s: State, now: int, order: seq<ID>)
    requires s.timeout > 0 && s.exports == None && Enumerates(order, Expired(s, now))
    ensures Apply(s, DoTimeouts(now, order, [])) == TimeoutAll(s, order)
  {
    hide TimeoutAll, Enumerates, Expired, Grows;
  }

  lemma OnlyCallTimesOut(s: State)
    requires s.context && s.timeout == 5 && s.exports == None && s.inFlight == PerCategory(0, 1)
    requires s.outstanding == map[2 := CallbackData(2, Gated, Metadata, 0)] && s.active == s.outstanding
    ensures var s' := Apply(s, DoTimeouts(10, [2], []));
            s'.context && s'.outstanding.Keys == {2} && s'.inFlight.Get(Metadata) == 0 && Gap(s', Metadata) == 1
  {
    hide Apply, TimeoutAll;
    assert Expired(s, 10) == {2} && (set id | id in [2]) == {2};
    assert OfCategory(s.active, Expired(s, 10), Metadata) == {2};
    ScanIsTimeoutAll(s, 10, [2]);
    ScannedCounts(s, 10, [2], Metadata);
    assert Counted(s.outstanding, Metadata, false) == {2};
  }

  /** The same through an export query: it never took a slot, and its answer gives one up. */
  lemma QueryUndercounts()
    ensures var s := After(5, SubmitRun() + [DoGetExports(true, 0, 0)] + [DoRpc([Reply(3, 0, true)], -1, [])]);
            s.context && s.outstanding.Keys == {2} && s.inFlight.Get(Metadata) == 0 && Gap(s, Metadata) == 1
  {
    hide Run, Grows, Succeeded, Submit, WithAnswer, Quiet, Contained;
    var s, r := WithCall(Mounted(5), 0), Reply(3, 0, true);
    OneCallOpen(5);
    AfterOneMore(5, SubmitRun(), DoGetExports(true, 0, 0), s);
    QueryEffect(s);
    var s1 := WithQuery(s);
    AfterOneMore(5, SubmitRun() + [DoGetExports(true, 0, 0)], DoRpc([r], -1, []), s1);
    QueryAnswered(s1, r);
  }

  /** An export query is accepted. */
  function WithQuery(s: State): State {
    var cb := CallbackData(s.nextID, Exports, Metadata, 0);
    s.(active := s.active[cb.id := cb], nextID := s.nextID + 1, outstanding := s.outstanding[cb.id := cb],
       retains := s.retains[cb.id := Retains(s, cb.id) + 1], exports := Some(cb.id), exportsDone := false)
  }

  lemma QueryEffect(s: State)
    requires s.context && s.exports == None
    ensures Apply(s, DoGetExports(true, 0, 0)) == WithQuery(s)
  {
    hide Grows, Quiet, Contained;
  }

  lemma QueryAnswered(s: State, r: Reply)
    requires s.context && s.exports == Some(3) && s.pending == [] && s.inFlight == PerCategory(0, 1)
    requires s.outstanding == map[2 := CallbackData(2, Gated, Metadata, 0), 3 := CallbackData(3, Exports, Metadata, 0)]
    requires r == Reply(3, 0, true)
    ensures var s' := Apply(s, DoRpc([r], -1, []));
            s'.context && s'.outstanding.Keys == {2} && s'.inFlight.Get(Metadata) == 0 && Gap(s', Metadata) == 1
  {
    hide Grows, CallbackAll, WithAnswer, CleanupExports;
    AnswerEffect(s, r, true);
    var s1 := WithAnswer(s, r);
    QueryGone(s, r);
    QueryDestroyed(s1);
    assert Counted(s1.outstanding, Metadata, false) == {2};
  }

  lemma QueryGone(s: State, r: Reply)
    requires s.inFlight == PerCategory(0, 1) && r == Reply(3, 0, true)
    requires s.outstanding == map[2 := CallbackData(2, Gated, Metadata, 0), 3 := CallbackData(3, Exports, Metadata, 0)]
    ensures var s1 := WithAnswer(s, r);
            && s1.context == s.context && s1.exports == s.exports && s1.inFlight == PerCategory(0, 0)
            && s1.outstanding == map[2 := CallbackData(2, Gated, Metadata, 0)]
  {
    hide Record, EndedBuffers, ReplyOutcome, ReplySucceeds;
  }

  lemma QueryDestroyed(s: State)
    requires forall id :: id in s.outstanding ==> !s.outstanding[id].kind.Exports?
    ensures var s' := CleanupExports(s, []);
            s'.context == s.context && s'.outstanding == s.outstanding && s'.inFlight == s.inFlight
  {
    assert forall id :: id !in OnContext(s.outstanding, true);
    assert OnContext(s.outstanding, true) == {};
    assert s.outstanding - {} == s.outstanding;
  }

  // ---- buffers ----------------------------------------------------------------------------

  function OpenRun(): seq<Step> {
    SubmitRun() + [DoIO([Reply(2, 0, true)], 0, [])] + [DoOpen(7)]
  }

  /** A file is opened and written to; the write succeeds, and nobody frees its copy of the data. */
  lemma WriteLeavesBuffer()
    ensures var s := After(5, OpenRun() + [DoHandle(1, WriteOwned, 0, 0)] + [DoIO([Reply(3, 5, true)], 0, [])]);
            s.context && s.active == map[] && s.outstanding == map[]
            && 3 in s.buffers && s.buffers[3].write && s.buffers[3].exit == Some(5) && s.buffers[3].fates == []
  {
    hide Run, Apply, WithAnswer;
    var s0 := WithCall(Mounted(5), 0);
    OneCallOpen(5);
    FileOpened(s0);
    AfterOneMore(5, SubmitRun(), DoIO([Reply(2, 0, true)], 0, []), s0);
    var s1 := WithAnswer(s0, Reply(2, 0, true));
    AfterOneMore(5, SubmitRun() + [DoIO([Reply(2, 0, true)], 0, [])], DoOpen(7), s1);
    var s2 := Apply(s1, DoOpen(7));
    AfterOneMore(5, OpenRun(), DoHandle(1, WriteOwned, 0, 0), s2);
    var s3 := WithWrite(s2);
    WriteEffect(s2);
    AfterOneMore(5, OpenRun() + [DoHandle(1, WriteOwned, 0, 0)], DoIO([Reply(3, 5, true)], 0, []), s3);
    WriteAnswered(s3);
  }

  lemma FileOpened(s: State)
    requires s == WithCall(Mounted(5), 0)
    ensures var s1 := WithAnswer(s, Reply(2, 0, true)); var s2 := Apply(s1, DoOpen(7));
            && Apply(s, DoIO([Reply(2, 0, true)], 0, [])) == s1
            && s2.context && s2.pending == [] && s2.active == map[] && s2.outstanding == map[]
            && s2.handles == map[1 := 7] && s2.nextID == 3
  {
    hide Record, EndedBuffers, ReplyOutcome, ReplySucceeds, Grows, Succeeded;
    Serviced(s, Reply(2, 0, true));
  }

  /** A write on handle 1 is accepted. */
  function WithWrite(s: State): State {
    var cb := CallbackData(s.nextID, Handle(1, WriteOwned), Bulk, 0);
    s.(active := s.active[cb.id := cb], nextID := s.nextID + 1, outstanding := s.outstanding[cb.id := cb],
       retains := s.retains[cb.id := Retains(s, cb.id) + 1],
       buffers := s.buffers[cb.id := Buffer(true, [], Option.None)],
       inFlight := s.inFlight.Set(Bulk, s.inFlight.bulk + 1), trace := s.trace + [Use(1, 7)])
  }

  lemma WriteEffect(s: State)
    requires s.context && s.handles == map[1 := 7]
    ensures Apply(s, DoHandle(1, WriteOwned, 0, 0)) == WithWrite(s)
  {
    hide Grows, Quiet, Contained, Started, Accepted;
    WriteIsAccepted(s, CallbackData(s.nextID, Handle(1, WriteOwned), Bulk, 0));
  }

  lemma WriteIsAccepted(s: State, cb: CallbackData)
    requires cb == CallbackData(s.nextID, Handle(1, WriteOwned), Bulk, 0)
    ensures Accepted(Touched(Started(s, cb), 1, 7, WriteOwned), cb) == WithWrite(s)
  {
  }

  lemma WriteAnswered(s: State)
    requires s.context && s.pending == [] && 3 in s.outstanding && s.outstanding.Keys == {3} && s.active.Keys == {3}
    requires s.outstanding[3].kind == Handle(1, WriteOwned) && 3 in s.buffers
             && s.buffers[3] == Buffer(true, [], Option.None)
    ensures var s' := Apply(s, DoIO([Reply(3, 5, true)], 0, []));
            s'.context && s'.active == map[] && s'.outstanding == map[]
            && 3 in s'.buffers && s'.buffers[3].write && s'.buffers[3].exit == Some(5) && s'.buffers[3].fates == []
  {
    hide Record, Grows, ReplyOutcome, ReplySucceeds;
    Serviced(s, Reply(3, 5, true));
  }

  // ---- lent buffers -------------------------------------------------------------------------

  /** A read into the caller's buffer is accepted on handle 1. */
  function WithRead(s: State): State {
    var cb := CallbackData(s.nextID, Handle(1, ReadInto), Bulk, 0);
    s.(active := s.active[cb.id := cb], nextID := s.nextID + 1, outstanding := s.outstanding[cb.id := cb],
       retains := s.retains[cb.id := Retains(s, cb.id) + 1],
       inFlight := s.inFlight.Set(Bulk, s.inFlight.bulk + 1), trace := s.trace + [Use(1, 7)])
  }

  lemma ReadEffect(s: State)
    requires s.context && s.handles == map[1 := 7]
    ensures Apply(s, DoHandle(1, ReadInto, 0, 0)) == WithRead(s)
  {
    hide Grows, Quiet, Contained, Started, Accepted;
    ReadIsAccepted(s, CallbackData(s.nextID, Handle(1, ReadInto), Bulk, 0));
  }

  lemma ReadIsAccepted(s: State, cb: CallbackData)
    requires cb == CallbackData(s.nextID, Handle(1, ReadInto), Bulk, 0)
    ensures Accepted(Touched(Started(s, cb), 1, 7, ReadInto), cb) == WithRead(s)
  {
  }

  function ReadRun(): seq<Step> {
    OpenRun() + [DoHandle(1, ReadInto, 0, 0)] + [DoTimeouts(10, [3], [])]
  }

  /** A read times out: its caller has been resumed, and libnfs may still store into the caller's memory. A close of the
      file is then issued under the read. */
  lemma ReadOutlivesCaller()
    ensures var s, s' := After(5, ReadRun()), After(5, ReadRun() + [DoHandle(1, CloseHandle, 10, 0)]);
            && s.context && 3 in s.outstanding && s.outstanding[3].kind == Handle(1, ReadInto)
            && Outcomes(s, 3) == [Threw(ETIMEDOUT)] && Answers(s, Reply(3, 100, true), false)
            && CallsOn(s.active, 1) == {}
            && 3 in s'.outstanding && |s'.trace| > 0 && s'.trace[|s'.trace| - 1] == Close(1, 7)
  {
    hide Run, Apply, WithAnswer, WithRead, CallsOn;
    var s0 := WithCall(Mounted(5), 0);
    OneCallOpen(5);
    FileOpened(s0);
    AfterOneMore(5, SubmitRun(), DoIO([Reply(2, 0, true)], 0, []), s0);
    var s1 := WithAnswer(s0, Reply(2, 0, true));
    AfterOneMore(5, SubmitRun() + [DoIO([Reply(2, 0, true)], 0, [])], DoOpen(7), s1);
    var s2 := Apply(s1, DoOpen(7));
    AfterOneMore(5, OpenRun(), DoHandle(1, ReadInto, 0, 0), s2);
    ReadEffect(s2);
    AfterOneMore(5, OpenRun() + [DoHandle(1, ReadInto, 0, 0)], DoTimeouts(10, [3], []), WithRead(s2));
    FileFacts(s0);
    ReadTimesOut(s2);
    AfterOneMore(5, ReadRun(), DoHandle(1, CloseHandle, 10, 0), After(5, ReadRun()));
    CloseIsIssued(After(5, ReadRun()));
  }

  lemma FileFacts(s: State)
    requires s == WithCall(Mounted(5), 0)
    ensures var s2 := Apply(WithAnswer(s, Reply(2, 0, true)), DoOpen(7));
            s2.timeout == 5 && s2.exports == None && 3 !in s2.delivered && 3 !in s2.hasResumed
  {
    hide Record, EndedBuffers, ReplyOutcome, ReplySucceeds, Grows, Succeeded;
  }

  lemma ReadTimesOut(s: State)
    requires s.context && s.timeout == 5 && s.exports == None && s.handles == map[1 := 7] && s.nextID == 3
    requires s.active == map[] && s.outstanding == map[] && 3 !in s.delivered && 3 !in s.hasResumed
    ensures var s' := Apply(WithRead(s), DoTimeouts(10, [3], []));
            && s'.context && s'.handles == s.handles && s'.nextID == 4 && s'.active == map[]
            && s'.outstanding == map[3 := CallbackData(3, Handle(1, ReadInto), Bulk, 0)]
            && Outcomes(s', 3) == [Threw(ETIMEDOUT)] && CallsOn(s'.active, 1) == {}
  {
    hide Apply, Record, Grows;
    var s1 := WithRead(s);
    assert Expired(s1, 10) == {3} && (set id | id in [3]) == {3};
    ScanIsTimeoutAll(s1, 10, [3]);
    assert [3][1..] == [];
    assert s1.active - {3} == map[];
    assert [] + [Threw(ETIMEDOUT)] == [Threw(ETIMEDOUT)];
  }

  lemma CloseIsIssued(s: State)
    requires s.context && s.handles == map[1 := 7] && s.nextID == 4 && 3 in s.outstanding
    ensures var s' := Apply(s, DoHandle(1, CloseHandle, 10, 0));
            3 in s'.outstanding && |s'.trace| > 0 && s'.trace[|s'.trace| - 1] == Close(1, 7)
  {
    hide Grows, Quiet, Contained;
  }

  // ---- order --------------------------------------------------------------------------------

  /** Four operations fill the depth of four, a fifth is queued behind them. */
  function FullRun(): seq<Step> {
    SubmitRun() + [DoSubmit(Metadata, 0, 0)] + [DoSubmit(Metadata, 0, 0)] + [DoSubmit(Metadata, 0, 0)]
      + [DoSubmit(Metadata, 9, 0)]
  }

  function Filled(): State {
    WithPending(WithCall(WithCall(WithCall(WithCall(Mounted(5), 0), 0), 0), 0), 9)
  }

  lemma FilledIsReached()
    ensures After(5, FullRun()) == Filled()
  {
    hide Submit, Run, IntegerDepth, Grows;
    var run, op := SubmitRun(), DoSubmit(Metadata, 0, 0);
    var s1 := WithCall(Mounted(5), 0);
    var s2 := WithCall(s1, 0);
    var s3 := WithCall(s2, 0);
    var s4 := WithCall(s3, 0);
    OneCallOpen(5);
    FreshDepths();
    SubmitEffect(s1, 0);
    SubmitEffect(s2, 0);
    SubmitEffect(s3, 0);
    SubmitEffect(s4, 9);
    AfterOneMore(5, run, op, s1);
    AfterOneMore(5, run + [op], op, s2);
    AfterOneMore(5, run + [op] + [op], op, s3);
    AfterOneMore(5, run + [op] + [op] + [op], DoSubmit(Metadata, 9, 0), s4);
  }

  /** The four time out, which leaves a depth of one with nothing counted: the next operation is issued while the fifth,
      submitted earlier, still waits. */
  lemma TimeoutsAllowOvertaking()
    ensures var s := After(5, FullRun() + [DoTimeouts(10, [2, 3, 4, 5], [])] + [DoSubmit(Metadata, 11, 0)]);
            && s.context && |s.attempted| == 5 && s.attempted[4].cb.id == 7
            && |s.pending| == 1 && s.pending[0].cb.id == 6
  {
    hide Run, Apply, Filled, Submit, TimeoutAll, IntegerDepth, Grows;
    var last := DoTimeouts(10, [2, 3, 4, 5], []);
    var s := Apply(Filled(), last);
    FilledIsReached();
    AfterOneMore(5, FullRun(), last, Filled());
    AfterOneMore(5, FullRun() + [last], DoSubmit(Metadata, 11, 0), s);
    AllTimedOut();
    SubmitEffect(s, 11);
    ApplyIsSubmit(s, 11);
  }

  lemma ApplyIsSubmit(s: State, now: int)
    ensures Apply(s, DoSubmit(Metadata, now, 0)) == Submit(s, Metadata, now, 0)
  {
    hide Submit, Grows;
  }

  lemma FilledFacts()
    ensures var s := Filled();
            && s.context && s.exports == None && s.timeout == 5 && s.nextID == 7 && s.inFlight == PerCategory(0, 4)
            && s.controllers.metadata == Succeeded(Default())
            && |s.attempted| == 4 && |s.pending| == 1 && s.pending[0].cb.id == 6
            && s.active.Keys == {2, 3, 4, 5, 6} && s.active[6].startTime == 9
            && (forall id :: id in s.active ==> s.active[id].category == Metadata)
            && (forall id :: id in {2, 3, 4, 5} ==> s.active[id].startTime == 0)
  {
    hide Succeeded;
  }

  lemma AllTimedOut()
    ensures var s' := Apply(Filled(), DoTimeouts(10, [2, 3, 4, 5], []));
            && s'.context && s'.nextID == 7 && |s'.attempted| == 4 && |s'.pending| == 1 && s'.pending[0].cb.id == 6
            && s'.inFlight.metadata == 0 && DepthOf(s', Metadata) == 1
  {
    hide Apply, TimeoutAll, Succeeded, Filled, IntegerDepth, Repeat, DeliveredToAll;
    var s, order := Filled(), [2, 3, 4, 5];
    var ids := set id | id in order;
    FilledFacts();
    assert ids == {2, 3, 4, 5} == Expired(s, 10);
    ScanIsTimeoutAll(s, 10, order);
    TimeoutAllIsTimedOut(s, order);
    assert OfCategory(s.active, ids, Metadata) == {2, 3, 4, 5};
    FourFailures();
  }

  lemma FourFailures()
    ensures IntegerDepth(Repeat(Succeeded(Default()), false, 4)) == 1
  {
    var c := Succeeded(Default());
    assert c.depth == 4.0;
    assert Repeat(c, false, 1).depth == 2.0;
    assert Repeat(c, false, 2).depth == 1.0;
    assert Repeat(c, false, 3).depth == 1.0;
    assert Repeat(c, false, 4).depth == 1.0;
  }
}
