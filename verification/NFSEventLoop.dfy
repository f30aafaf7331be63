/**
 The event loop as an object whose methods update its fields in place. Every method is
 proved to do to the fields what the state machine of `EventLoopModel` does to its state,
 so what is proved of runs of the state machine holds of sequences of calls.
 */
module EventLoop {
  import opened Common
  import opened Pipeline
  import opened EventLoopModel
  import opened EventLoopRuns
  import opened EventLoopTheorems

  class NFSEventLoop {
    const bulkController: PipelineController
    const metadataController: PipelineController
    const timeout: int
    var context: bool
    var pendingOperations: seq<PendingOperation>
    var inFlightCount: PerCategory<int>
    var activeContinuations: map<ID, CallbackData>
    var nextContinuationID: ID
    var handleRegistry: map<ID, Nfsfh>
    var nextHandleID: ID
    var rpcExports: Option<ID>
    var rpcExportsDone: bool
    var resumedFlags: set<ID>

    // What the loop does to its surroundings, and libnfs's side of the calls it has accepted.
    var outstanding: map<ID, CallbackData>
    ghost var delivered: map<ID, seq<Outcome>>
    ghost var answers: seq<Answer>
    ghost var refused: seq<PosixError>
    ghost var retains: map<ID, int>
    ghost var abandoned: set<ID>
    ghost var lostQueries: set<ID>
    ghost var uncharged: PerCategory<int>
    ghost var submitted: seq<PendingOperation>
    ghost var attempted: seq<PendingOperation>
    ghost var buffers: map<ID, Buffer>
    ghost var openings: map<ID, Opening>
    ghost var reopened: bool
    ghost var trace: seq<LibCall>

    ghost predicate Valid() {
      bulkController != metadataController
    }

    ghost function View(): State
      reads this, bulkController, metadataController
    {
      State(context, pendingOperations, inFlightCount,
            PerCategory(bulkController.View(), metadataController.View()),
            activeContinuations, nextContinuationID, handleRegistry, nextHandleID, rpcExports, rpcExportsDone,
            timeout, resumedFlags, outstanding, delivered, answers, refused, retains, abandoned, lostQueries,
            uncharged, submitted, attempted, buffers, openings, reopened, trace)
    }

    constructor (timeout: int)
      ensures Valid() && fresh(bulkController) && fresh(metadataController)
      ensures View() == Init(timeout)
    {
      bulkController := new PipelineController();
      metadataController := new PipelineController();
      this.timeout := timeout;
      context := true;
      pendingOperations, inFlightCount := [], PerCategory(0, 0);
      activeContinuations, nextContinuationID := map[], 1;
      handleRegistry, nextHandleID := map[], 1;
      rpcExports, rpcExportsDone := None, false;
      resumedFlags, outstanding := {}, map[];
      delivered, answers, refused, retains, abandoned, lostQueries := map[], [], [], map[], {}, {};
      uncharged, submitted, attempted := PerCategory(0, 0), [], [];
      buffers, openings, reopened, trace := map[], map[], false, [];
    }

    // ---- elementary effects -----------------------------------------------------

    /** A caller's continuation is resumed. */
    ghost method ResumeContinuation(id: ID, o: Outcome)
      modifies this`delivered
      ensures View() == Deliver(old(View()), id, o)
    {
      delivered := delivered[id := OutcomesIn(delivered, id) + [o]];
    }

    /** `CallbackData.resume`. */
    method ResumeOnce(id: ID, o: Outcome)
      modifies this`delivered, this`resumedFlags
      ensures View() == Resume(old(View()), id, o)
    {
      if id in resumedFlags {
        assert resumedFlags + {id} == resumedFlags;
        return;
      }
      resumedFlags := resumedFlags + {id};
      ResumeContinuation(id, o);
    }

    method EffectiveDepth(c: Category) returns (d: int)
      ensures d == DepthOf(View(), c)
    {
      if c.Bulk? {
        d := bulkController.EffectiveDepth();
      } else {
        d := metadataController.EffectiveDepth();
      }
    }

    method RecordOutcome(c: Category, success: bool)
      requires Valid()
      modifies this`inFlightCount, bulkController, metadataController
      ensures View() == RecordCompletion(old(View()), c, success)
    {
      inFlightCount := inFlightCount.Set(c, Max(0, inFlightCount.Get(c) - 1));
      var controller := if c.Bulk? then bulkController else metadataController;
      if success {
        controller.RecordSuccess();
      } else {
        controller.RecordFailure();
      }
    }

    method RetainPointer(id: ID)
      modifies this`retains
      ensures View() == Retain(old(View()), id)
    {
      retains := retains[id := RetainsIn(retains, id) + 1];
    }

    method ReleasePointer(id: ID)
      modifies this`retains
      ensures View() == Release(old(View()), id)
    {
      retains := retains[id := RetainsIn(retains, id) - 1];
    }

    method Register(cb: CallbackData)
      modifies this`activeContinuations, this`nextContinuationID
      ensures View() == Activate(old(View()), cb)
    {
      activeContinuations := activeContinuations[cb.id := cb];
      nextContinuationID := nextContinuationID + 1;
    }

    method Unregister(id: ID)
      modifies this`activeContinuations
      ensures View() == Deactivate(old(View()), id)
    {
      activeContinuations := activeContinuations - {id};
    }

    method AllocateBuffer(cb: CallbackData)
      modifies this`buffers
      ensures View() == Allocate(old(View()), cb)
    {
      if OwnsBuffer(cb.kind) {
        buffers := buffers[cb.id := Buffer(cb.kind.op.WriteOwned?, [], Option.None)];
      }
    }

    method FinishBuffer(id: ID, status: int)
      modifies this`buffers
      ensures View() == EndBuffer(old(View()), id, status)
    {
      buffers := EndedBuffers(buffers, id, status);
    }

    method IncrementInFlight(c: Category)
      modifies this`inFlightCount
      ensures View() == TakeSlot(old(View()), c)
    {
      inFlightCount := inFlightCount.Set(c, inFlightCount.Get(c) + 1);
    }

    /** Takes back an increment just made. */
    method DecrementInFlight(c: Category, ghost before: State)
      requires View() == TakeSlot(before, c)
      modifies this`inFlightCount
      ensures View() == before
    {
      inFlightCount := inFlightCount.Set(c, inFlightCount.Get(c) - 1);
    }

    /** libnfs accepts the call and will answer it. */
    method AcceptCall(cb: CallbackData)
      modifies this`outstanding
      ensures View() == Accept(old(View()), cb)
    {
      outstanding := outstanding[cb.id := cb];
    }

    /** A new CallbackData is registered and a retained pointer to it made. */
    method Start(cb: CallbackData)
      modifies this
      ensures View() == Started(old(View()), cb)
    {
      hide View, Retain, Activate, Allocate;
      AllocateBuffer(cb);
      Register(cb);
      RetainPointer(cb.id);
    }

    // ---- issuing ------------------------------------------------------------------

    /** The failure cleanup of a gated operation: release, unregister, resume. */
    method CleanUpFailure(id: ID, rc: int)
      modifies this`retains, this`activeContinuations, this`delivered, this`resumedFlags
      ensures View() == Reject(old(View()), id, rc)
    {
      hide View, Release, Deactivate, Resume;
      ReleasePointer(id);
      Unregister(id);
      ResumeOnce(id, Threw(Code(-rc)));
    }

    method Attempt(op: PendingOperation)
      modifies this`attempted, this`trace
      ensures View() == Attempted(old(View()), op)
    {
      attempted, trace := attempted + [op], trace + [Issue(op.cb.id)];
    }

    /** Hands a gated operation to libnfs; `op.rc` is its answer. */
    method ExecuteOperation(op: PendingOperation)
      modifies this
      ensures View() == Execute(old(View()), op)
    {
      hide View, Attempted, Reject, Accept, TakeSlot, Framed;
      var c := op.cb.category;
      Attempt(op);
      ghost var before := View();
      IncrementInFlight(c);
      if op.rc < 0 {
        DecrementInFlight(c, before);
        CleanUpFailure(op.cb.id, op.rc);
      } else {
        AcceptCall(op.cb);
        SlotThenAccept(before, op.cb, c);
      }
    }

    method IssuePendingOperations()
      requires Valid()
      modifies this
      ensures View() == IssuePending(old(View()))
    {
      if !context {
        return;
      }
      var i := 0;
      while i < |pendingOperations|
        invariant 0 <= i <= |pendingOperations| && context
        invariant IssueFrom(View(), i) == IssueFrom(old(View()), 0)
        decreases |pendingOperations| - i
      {
        var op := pendingOperations[i];
        var depth := EffectiveDepth(op.cb.category);
        if inFlightCount.Get(op.cb.category) < depth {
          pendingOperations := pendingOperations[..i] + pendingOperations[i + 1..];
          ExecuteOperation(op);
        } else {
          i := i + 1;
        }
      }
    }

    // ---- submitting -----------------------------------------------------------------

    /** The operation does not have to wait. */
    method IssueAtOnce(op: PendingOperation)
      modifies this
      ensures View() == IssueOperation(old(View()).(submitted := old(View()).submitted + [op]), op.cb, op.rc)
    {
      hide Execute, Retain;
      submitted := submitted + [op];
      RetainPointer(op.cb.id);
      ExecuteOperation(op);
    }

    method AppendPending(op: PendingOperation)
      modifies this
      ensures View() == Enqueue(old(View()), op)
    {
      hide Retain;
      RetainPointer(op.cb.id);
      pendingOperations, submitted := pendingOperations + [op], submitted + [op];
    }

    method RejectOverflow(id: ID)
      modifies this
      ensures View() == Overflow(old(View()), id)
    {
      hide View, Deactivate, Deliver;
      Unregister(id);
      ResumeContinuation(id, Threw(ENOBUFS));
    }

    /** A gated operation is submitted. */
    method SubmitOperation(c: Category, now: int, rc: int)
      requires Valid()
      modifies this
      ensures View() == Submit(old(View()), c, now, rc)
    {
      hide IssueOperation, Enqueue, Overflow, IntegerDepth, Contained;
      if !context {
        refused := refused + [ENOTCONN];
        return;
      }
      var cb := CallbackData(nextContinuationID, Gated, c, now);
      var op := PendingOperation(cb, rc);
      Register(cb);
      var depth := EffectiveDepth(c);
      if inFlightCount.Get(c) < depth {
        IssueAtOnce(op);
      } else if |pendingOperations| >= MAX_PENDING_OPERATIONS {
        RejectOverflow(cb.id);
      } else {
        AppendPending(op);
      }
    }

    /** A direct call is rejected: the buffer is freed, the pointer released and the continuation resumed. */
    method RejectDirectly(id: ID, rc: int, e: PosixError)
      modifies this
      ensures View() == RejectDirect(old(View()), id, rc, e)
    {
      hide View, EndBuffer, Release, Deactivate, Deliver;
      FinishBuffer(id, rc);
      ReleasePointer(id);
      Unregister(id);
      ResumeContinuation(id, Threw(e));
    }

    /** libnfs is called past the gate; `rc` is its answer. */
    method IssueDirectly(cb: CallbackData, rc: int, e: PosixError)
      modifies this
      ensures View() == CallDirectly(old(View()), cb, rc, e)
    {
      hide View, RejectDirect, Accepted, Accept, TakeSlot, Quiet, Contained;
      if rc < 0 {
        RejectDirectly(cb.id, rc, e);
      } else {
        AcceptedInSteps(View(), cb);
        AcceptCall(cb);
        if Metered(cb.kind) {
          IncrementInFlight(cb.category);
        }
      }
    }

    /** The call names the handle; a close takes it out of the registry first. */
    method TouchHandle(h: ID, fh: Nfsfh, op: HandleOp)
      modifies this`handleRegistry, this`trace
      ensures View() == Touched(old(View()), h, fh, op)
    {
      if op.CloseHandle? {
        handleRegistry := handleRegistry - {h};
        trace := trace + [Close(h, fh)];
      } else {
        trace := trace + [Use(h, fh)];
      }
    }

    /** readFile, preadFile, preadIntoBuffer, writeFile, pwriteFile, closeFile, fsync, fstat, ftruncate, lseek. */
    method HandleOperation(h: ID, op: HandleOp, now: int, rc: int)
      modifies this
      ensures View() == CallHandle(old(View()), h, op, now, rc)
    {
      hide Started, Touched, CallDirectly, Quiet, Contained;
      if h !in handleRegistry {
        refused := refused + [EBADF];
        return;
      }
      if !context {
        refused := refused + [ENOTCONN];
        return;
      }
      var fh := handleRegistry[h];
      var cb := CallbackData(nextContinuationID, Handle(h, op), HandleCategory(op), now);
      Start(cb);
      TouchHandle(h, fh, op);
      IssueDirectly(cb, rc, Code(-rc));
    }

    method MountExport(now: int, rc: int)
      modifies this
      ensures View() == CallMount(old(View()), now, rc)
    {
      hide Started, CallDirectly, Quiet, Contained;
      if !context {
        refused := refused + [ENOTCONN];
        return;
      }
      var cb := CallbackData(nextContinuationID, Mount, Metadata, now);
      Start(cb);
      trace := trace + [Issue(cb.id)];
      IssueDirectly(cb, rc, Code(-rc));
    }

    /** The query's context is kept, for its answer to be found by, unless the call is rejected. */
    method QueryExports(now: int, rc: int)
      modifies this
      ensures View() == StartExports(old(View()), now, rc)
    {
      hide Started, CallDirectly, Quiet, Contained;
      var cb := CallbackData(nextContinuationID, Exports, Metadata, now);
      Start(cb);
      rpcExports, rpcExportsDone := if rc < 0 then None else Some(cb.id), false;
      IssueDirectly(cb, rc, EIO);
    }

    /** `rpcAvailable` is whether a fresh RPC context could be allocated. */
    method GetExports(rpcAvailable: bool, now: int, rc: int)
      modifies this
      ensures View() == CallGetExports(old(View()), rpcAvailable, now, rc)
    {
      hide StartExports, Quiet, Contained;
      if !context {
        refused := refused + [ENOTCONN];
      } else if rpcExports.Some? {
        refused := refused + [EBUSY];
      } else if !rpcAvailable {
        refused := refused + [ENOMEM];
      } else {
        QueryExports(now, rc);
      }
    }

    // ---- callbacks --------------------------------------------------------------------

    method HandleCallbackCompletion(id: ID, c: Category, success: bool)
      requires Valid()
      modifies this, bulkController, metadataController
      ensures View() == HandleCompletion(old(View()), id, c, success)
    {
      hide IssuePending, Record;
      activeContinuations := activeContinuations - {id};
      RecordOutcome(c, success);
      IssuePendingOperations();
    }

    /** `takeRetainedValue`, then the buffer's cleanup or data handler. */
    method TakePointer(r: Reply) returns (cb: CallbackData)
      requires r.id in outstanding
      modifies this
      ensures View() == TakeReply(old(View()), r) && cb == old(View()).outstanding[r.id]
    {
      hide Release, EndBuffer, Answered;
      cb := outstanding[r.id];
      ConsumePointer(r, cb);
    }

    method ConsumePointer(r: Reply, cb: CallbackData)
      modifies this
      ensures View() == Answered(EndBuffer(Release(old(View()), r.id), r.id, r.status), r, cb)
    {
      hide View, Release, EndBuffer, Answered;
      ReleasePointer(r.id);
      FinishBuffer(r.id, r.status);
      MarkAnswered(r, cb);
    }

    method MarkAnswered(r: Reply, cb: CallbackData)
      modifies this`outstanding, this`rpcExportsDone, this`uncharged, this`answers
      ensures View() == Answered(old(View()), r, cb)
    {
      hide View, Metered;
      DropOutstanding(r.id);
      LogAnswer(Answer(cb.kind, r));
      FinishQuery(cb.kind);
      ChargeAnswer(cb);
    }

    method DropOutstanding(id: ID)
      modifies this`outstanding
      ensures View() == old(View()).(outstanding := old(View()).outstanding - {id})
    {
      outstanding := outstanding - {id};
    }

    ghost method LogAnswer(a: Answer)
      modifies this`answers
      ensures View() == old(View()).(answers := old(View()).answers + [a])
    {
      answers := answers + [a];
    }

    method FinishQuery(kind: Kind)
      modifies this`rpcExportsDone
      ensures View() == old(View()).(exportsDone := old(View()).exportsDone || kind.Exports?)
    {
      if kind.Exports? {
        rpcExportsDone := true;
      }
    }

    ghost method ChargeAnswer(cb: CallbackData)
      modifies this`uncharged
      ensures View() == if Metered(cb.kind) then old(View()) else Charge(old(View()), cb.category)
    {
      if !Metered(cb.kind) {
        ChargeCompletion(cb.category);
      }
    }

    /** A completion is recorded for which no slot was taken, or whose slot is still needed. */
    ghost method ChargeCompletion(c: Category)
      modifies this`uncharged
      ensures View() == Charge(old(View()), c)
    {
      uncharged := uncharged.Set(c, uncharged.Get(c) + 1);
    }

    /** nfsCallback and rpcCallback: libnfs answers the call whose retained pointer it was given. */
    method LibraryCallback(r: Reply)
      requires Valid() && r.id in outstanding && r.id in View().outstanding
      modifies this, bulkController, metadataController
      ensures View() == Callback(old(View()), r)
    {
      hide View, TakeReply, HandleCompletion, Resume, Framed;
      var cb := TakePointer(r);
      HandleCallbackCompletion(r.id, cb.category, ReplySucceeds(cb.kind, r));
      ResumeOnce(r.id, ReplyOutcome(cb.kind, r));
    }

    /** A context is serviced or destroyed: libnfs answers some of the calls made on it. */
    method ServiceContext(replies: seq<Reply>, onRpc: bool)
      requires Valid()
      modifies this, bulkController, metadataController
      ensures View() == CallbackAll(old(View()), replies, onRpc)
    {
      hide Callback;
      var i := 0;
      while i < |replies|
        invariant 0 <= i <= |replies|
        invariant CallbackAll(View(), replies[i..], onRpc) == CallbackAll(old(View()), replies, onRpc)
      {
        var r := replies[i];
        assert replies[i..][0] == r && replies[i..][1..] == replies[i + 1..];
        if r.id in outstanding && (outstanding[r.id].kind.Exports? <==> onRpc) {
          LibraryCallback(r);
        }
        i := i + 1;
      }
      assert replies[|replies|..] == [];
    }

    // ---- destroying contexts ------------------------------------------------------------

    /** The calls the destroyed context has not answered are lost. */
    method LoseCalls(onRpc: bool)
      modifies this`outstanding, this`abandoned, this`lostQueries
      ensures View() == Abandon(old(View()), onRpc)
    {
      hide OnContext;
      var lost := OnContext(outstanding, onRpc);
      DropPointers(lost);
      LoseQueries(if onRpc then lost else {});
      assert old(lostQueries) + {} == old(lostQueries);
      outstanding := outstanding - lost;
    }

    ghost method DropPointers(ids: set<ID>)
      modifies this`abandoned
      ensures View() == old(View()).(abandoned := old(View()).abandoned + ids)
    {
      abandoned := abandoned + ids;
    }

    ghost method LoseQueries(ids: set<ID>)
      modifies this`lostQueries
      ensures View() == old(View()).(lostQueries := old(View()).lostQueries + ids)
    {
      lostQueries := lostQueries + ids;
    }

    method DestroyMountedContext(replies: seq<Reply>)
      requires Valid()
      modifies this, bulkController, metadataController
      ensures View() == DestroyContext(old(View()), replies)
    {
      hide View, CallbackAll, Abandon, Grows;
      ForgetContext();
      ServiceContext(replies, false);
      LoseCalls(false);
    }

    method ForgetContext()
      modifies this`context, this`trace
      ensures View() == old(View()).(context := false, trace := old(View()).trace + [Destroy])
    {
      context := false;
      trace := trace + [Destroy];
    }

    method DestroyRpcContext(replies: seq<Reply>)
      requires Valid()
      modifies this, bulkController, metadataController
      ensures View() == Abandon(CallbackAll(old(View()).(exports := None), replies, true), true)
    {
      hide CallbackAll, Abandon;
      rpcExports := None;
      ServiceContext(replies, true);
      LoseCalls(true);
    }

    method CleanUpRpcExports(replies: seq<Reply>)
      requires Valid()
      modifies this, bulkController, metadataController
      ensures View() == CleanupExports(old(View()), replies)
    {
      hide CallbackAll, Abandon;
      if rpcExports.Some? {
        DestroyRpcContext(replies);
      }
      rpcExportsDone := false;
    }

    /** Resumes every continuation of the snapshot, in whatever order the dictionary yields them. */
    method ResumeSnapshot(snapshot: map<ID, CallbackData>, o: Outcome)
      modifies this`delivered, this`resumedFlags
      ensures View() == ResumeAll(old(View()), snapshot.Keys, o)
    {
      hide View, Resume, ResumeAll, Grows;
      var todo := snapshot.Keys;
      ghost var done: set<ID> := {};
      ResumeNone(View(), o);
      while todo != {}
        invariant todo + done == snapshot.Keys && todo !! done
        invariant View() == ResumeAll(old(View()), done, o)
        decreases |todo|
      {
        SomeElement(todo);
        var id :| id in todo;
        ResumeOneMore(old(View()), done, id, o);
        ResumeOnce(id, o);
        todo, done := todo - {id}, done + {id};
      }
      assert done == snapshot.Keys;
    }

    method DetachAll() returns (continuations: map<ID, CallbackData>)
      modifies this
      ensures View() == Detach(old(View())) && continuations == old(View()).active
    {
      hide PendingIDs;
      continuations := activeContinuations;
      activeContinuations := map[];
      DropQueue();
    }

    method DropQueue()
      modifies this`pendingOperations, this`abandoned
      ensures View() == var s := old(View()); s.(pending := [], abandoned := s.abandoned + PendingIDs(s.pending))
    {
      hide PendingIDs;
      DropPointers(PendingIDs(pendingOperations));
      pendingOperations := [];
    }

    method DestroyIfMounted(replies: seq<Reply>)
      requires Valid()
      modifies this, bulkController, metadataController
      ensures View() == if old(View()).context then DestroyContext(old(View()), replies) else old(View())
    {
      hide DestroyContext;
      if context {
        DestroyMountedContext(replies);
      }
    }

    method StopWithError(e: PosixError, replies: seq<Reply>)
      requires Valid()
      modifies this, bulkController, metadataController
      ensures View() == ShutdownWithError(old(View()), e, replies)
    {
      hide View, Detach, DestroyContext, ResumeAll, Grows;
      var continuations := DetachAll();
      DestroyIfMounted(replies);
      ResumeSnapshot(continuations, Threw(e));
    }

    method ForgetHandles()
      modifies this`handleRegistry
      ensures View() == old(View()).(handles := map[])
    {
      handleRegistry := map[];
    }

    method ResetControllers()
      requires Valid()
      modifies this, bulkController, metadataController
      ensures View() == var s := old(View()); s.(
                controllers := PerCategory(Restarted(s.controllers.bulk), Restarted(s.controllers.metadata)),
                inFlight := PerCategory(0, 0))
    {
      bulkController.Reset();
      metadataController.Reset();
      inFlightCount := PerCategory(0, 0);
    }

    method TearDown(rpcReplies: seq<Reply>, replies: seq<Reply>)
      requires Valid() && !(!View().context && View().active == map[])
      modifies this, bulkController, metadataController
      ensures View() == PerformShutdown(old(View()), rpcReplies, replies)
    {
      hide View, Detach, DestroyContext, ResumeAll, CleanupExports, Restarted, Grows;
      CleanUpRpcExports(rpcReplies);
      var continuations := DetachAll();
      ForgetHandles();
      DestroyIfMounted(replies);
      ResumeSnapshot(continuations, Threw(ENOTCONN));
      ResetControllers();
    }

    method Shutdown(rpcReplies: seq<Reply>, replies: seq<Reply>)
      requires Valid()
      modifies this, bulkController, metadataController
      ensures View() == PerformShutdown(old(View()), rpcReplies, replies)
    {
      hide DestroyContext, ResumeAll, CleanupExports, Detach, Grows;
      if !context && activeContinuations == map[] {
        return;
      }
      TearDown(rpcReplies, replies);
    }

    // ---- timeouts and events --------------------------------------------------------------

    /** The expired entries, in the order in which the dictionary yields them. */
    method CollectExpired(now: int) returns (timedOut: seq<ID>)
      ensures Enumerates(timedOut, Expired(View(), now))
      ensures forall i, j :: 0 <= i < j < |timedOut| ==> timedOut[i] != timedOut[j]
      ensures forall id :: id in timedOut
                <==> id in activeContinuations && activeContinuations[id].startTime + timeout < now
    {
      timedOut := [];
      var todo := activeContinuations.Keys;
      while todo != {}
        invariant todo <= activeContinuations.Keys
        invariant forall i, j :: 0 <= i < j < |timedOut| ==> timedOut[i] != timedOut[j]
        invariant forall id :: id in timedOut <==> id in Expired(View(), now) && id !in todo
        decreases |todo|
      {
        SomeElement(todo);
        var id :| id in todo;
        todo := todo - {id};
        if activeContinuations[id].startTime < now - timeout {
          timedOut := timedOut + [id];
        }
      }
      assert forall id :: id in Expired(View(), now) <==> id in set x | x in timedOut;
    }

    method TimeOut(id: ID)
      requires Valid()
      modifies this, bulkController, metadataController
      ensures View() == TimeoutOne(old(View()), id)
    {
      hide Record, Resume, Deactivate, Charge, RecordCompletion, Grows;
      if id in activeContinuations {
        Expire(id, activeContinuations[id].category);
      }
    }

    method Expire(id: ID, c: Category)
      requires Valid()
      modifies this, bulkController, metadataController
      ensures View() == Resume(RecordCompletion(Charge(Deactivate(old(View()), id), c), c, false), id, Threw(ETIMEDOUT))
    {
      hide View, Resume, Deactivate, Charge, RecordCompletion;
      Unregister(id);
      ChargeCompletion(c);
      RecordOutcome(c, false);
      ResumeOnce(id, Threw(ETIMEDOUT));
    }

    method ScanTimeouts(now: int, rpcReplies: seq<Reply>) returns (timedOut: seq<ID>)
      requires Valid()
      modifies this, bulkController, metadataController
      ensures Enumerates(timedOut, Expired(old(View()), now))
      ensures View() == Apply(old(View()), DoTimeouts(now, timedOut, rpcReplies))
    {
      hide TimeoutOne, CleanupExports, Expired, Enumerates;
      timedOut := CollectExpired(now);
      if timeout <= 0 {
        return;
      }
      var i := 0;
      while i < |timedOut|
        invariant 0 <= i <= |timedOut|
        invariant TimeoutAll(View(), timedOut[i..]) == TimeoutAll(old(View()), timedOut)
      {
        assert timedOut[i..][0] == timedOut[i] && timedOut[i..][1..] == timedOut[i + 1..];
        TimeOut(timedOut[i]);
        i := i + 1;
      }
      assert timedOut[|timedOut|..] == [];
      if rpcExports.Some? && rpcExports.value !in activeContinuations {
        CleanUpRpcExports(rpcReplies);
      }
    }

    /** The socket is ready: nfs_service yields `replies` and returns `result`. */
    method HandleIOEvent(replies: seq<Reply>, result: int, destroyReplies: seq<Reply>)
      requires Valid()
      modifies this, bulkController, metadataController
      ensures View() == IOEvent(old(View()), replies, result, destroyReplies)
    {
      hide CallbackAll, ShutdownWithError, IssuePending;
      if !context {
        return;
      }
      ServiceContext(replies, false);
      if result < 0 {
        StopWithError(ENOTCONN, destroyReplies);
        return;
      }
      IssuePendingOperations();
    }

    method HandleRpcExportsEvent(replies: seq<Reply>, result: int, destroyReplies: seq<Reply>)
      requires Valid()
      modifies this, bulkController, metadataController
      ensures View() == RpcEvent(old(View()), replies, result, destroyReplies)
    {
      hide CallbackAll, CleanupExports;
      if rpcExports.None? {
        return;
      }
      ServiceContext(replies, true);
      if rpcExportsDone || result < 0 {
        CleanUpRpcExports(destroyReplies);
      }
    }

    // ---- handles ----------------------------------------------------------------------------

    method RegisterHandle(fh: Nfsfh) returns (h: ID)
      modifies this`handleRegistry, this`openings, this`reopened, this`nextHandleID
      ensures View() == OpenHandle(old(View()), fh) && h == old(nextHandleID)
    {
      h := nextHandleID;
      LogOpening(h, fh);
      nextHandleID := nextHandleID + 1;
      handleRegistry := handleRegistry[h := fh];
    }

    ghost method LogOpening(h: ID, fh: Nfsfh)
      modifies this`openings, this`reopened
      ensures View() == var s := old(View());
                        s.(openings := s.openings[h := Opening(fh, |s.trace|)],
                           reopened := s.reopened || fh in s.handles.Values)
    {
      openings := openings[h := Opening(fh, |trace|)];
      reopened := reopened || fh in handleRegistry.Values;
    }

    /** nfs_close waits for its answer; `replies` are the answers to other calls that arrive meanwhile. */
    method CloseAndForget(h: ID, replies: seq<Reply>)
      requires Valid()
      modifies this, bulkController, metadataController
      ensures View() == CloseFireAndForget(old(View()), h, replies)
    {
      hide CallbackAll, Grows;
      if h !in handleRegistry {
        return;
      }
      var fh := handleRegistry[h];
      handleRegistry := handleRegistry - {h};
      if context {
        trace := trace + [Close(h, fh)];
        ServiceContext(replies, false);
      }
    }

    // ---- whole runs ---------------------------------------------------------------------------

    /** `taken` is `step`, except that a timeout scan chooses its own order. */
    method Perform(step: Step) returns (ghost taken: Step)
      requires Valid()
      modifies this, bulkController, metadataController
      ensures View() == Apply(old(View()), taken)
      ensures step.DoTimeouts? ==>
                && taken.DoTimeouts? && taken == DoTimeouts(step.now, taken.order, step.rpcReplies)
                && Enumerates(taken.order, Expired(old(View()), step.now))
      ensures !step.DoTimeouts? ==> taken == step
    {
      hide View, Submit, CallHandle, CallMount, CallGetExports, OpenHandle, CloseFireAndForget, IOEvent, RpcEvent,
           ScanForTimeouts, PerformShutdown, Enumerates, Expired, Grows;
      taken := step;
      match step
      case DoSubmit(c, now, rc) => SubmitOperation(c, now, rc);
      case DoHandle(h, op, now, rc) => HandleOperation(h, op, now, rc);
      case DoMount(now, rc) => MountExport(now, rc);
      case DoGetExports(available, now, rc) => GetExports(available, now, rc);
      case DoOpen(fh) => var h := RegisterHandle(fh);
      case DoForget(h, replies) => CloseAndForget(h, replies);
      case DoIO(replies, result, destroyReplies) => HandleIOEvent(replies, result, destroyReplies);
      case DoRpc(replies, result, destroyReplies) => HandleRpcExportsEvent(replies, result, destroyReplies);
      case DoTimeouts(now, order, rpcReplies) =>
        var timedOut := ScanTimeouts(now, rpcReplies);
        taken := DoTimeouts(now, timedOut, rpcReplies);
      case DoShutdown(rpcReplies, replies) => Shutdown(rpcReplies, replies);
    }
  }

  /** Any sequence of calls on a new loop is a run of the state machine, so every continuation the loop ever issued has
      been resumed exactly once or is still registered and has not been resumed. */
  method RunLoop(timeout: int, steps: seq<Step>) returns (loop: NFSEventLoop, ghost taken: seq<Step>)
    ensures |taken| == |steps| && loop.View() == After(timeout, taken)
    ensures forall i :: 0 <= i < |steps| && !steps[i].DoTimeouts? ==> taken[i] == steps[i]
    ensures forall id :: 1 <= id < loop.nextContinuationID ==>
              |OutcomesIn(loop.delivered, id)| == if id in loop.activeContinuations then 0 else 1
  {
    hide Run, Apply;
    loop := new NFSEventLoop(timeout);
    taken := [];
    RunSteps(Init(timeout), []);
    for i := 0 to |steps|
      invariant loop.Valid() && fresh(loop) && fresh(loop.bulkController) && fresh(loop.metadataController)
      invariant |taken| == i && loop.View() == After(timeout, taken)
      invariant forall j :: 0 <= j < i && !steps[j].DoTimeouts? ==> taken[j] == steps[j]
    {
      ghost var step := loop.Perform(steps[i]);
      RunAppend(Init(timeout), taken, step);
      taken := taken + [step];
    }
    ExactlyOnce(timeout, taken);
    assert forall id :: Outcomes(loop.View(), id) == OutcomesIn(loop.delivered, id);
  }

  lemma SomeElement(ids: set<ID>)
    requires ids != {}
    ensures exists id :: id in ids
  {
    if forall id :: id !in ids {
      assert false;
    }
  }

  lemma SlotThenAccept(s: State, cb: CallbackData, c: Category)
    ensures Accept(TakeSlot(s, c), cb) == TakeSlot(Accept(s, cb), c)
  {
  }

  lemma AcceptedInSteps(s: State, cb: CallbackData)
    ensures Accepted(s, cb) == if Metered(cb.kind) then TakeSlot(Accept(s, cb), cb.category) else Accept(s, cb)
  {
  }

  lemma ResumeNone(s: State, o: Outcome)
    ensures ResumeAll(s, {}, o) == s
  {
    assert s.hasResumed + {} == s.hasResumed && {} - s.hasResumed == {};
    assert DeliveredToAll(s.delivered, {}, o) == s.delivered;
  }

  lemma ResumeOneMore(s: State, done: set<ID>, id: ID, o: Outcome)
    requires id !in done
    ensures Resume(ResumeAll(s, done, o), id, o) == ResumeAll(s, done + {id}, o)
  {
    hide DeliveredToAll, Grows;
    assert s.hasResumed + done + {id} == s.hasResumed + (done + {id});
    DeliveredOneMore(s.delivered, s.hasResumed, done, id, o);
  }

  lemma DeliveredOneMore(delivered: map<ID, seq<Outcome>>, flags: set<ID>, done: set<ID>, id: ID, o: Outcome)
    requires id !in done
    ensures var before := DeliveredToAll(delivered, done - flags, o);
            DeliveredToAll(delivered, done + {id} - flags, o)
            == if id in flags + done then before else before[id := OutcomesIn(before, id) + [o]]
  {
    hide DeliveredToAll;
    if id in flags {
      assert done + {id} - flags == done - flags;
    } else {
      assert done + {id} - flags == (done - flags) + {id};
      DeliveredToAnother(delivered, done - flags, id, o);
    }
  }

  lemma DeliveredToAnother(delivered: map<ID, seq<Outcome>>, ids: set<ID>, id: ID, o: Outcome)
    requires id !in ids
    ensures var before := DeliveredToAll(delivered, ids, o);
            DeliveredToAll(delivered, ids + {id}, o) == before[id := OutcomesIn(before, id) + [o]]
  {
    var before, after := DeliveredToAll(delivered, ids, o), DeliveredToAll(delivered, ids + {id}, o);
    assert OutcomesIn(before, id) == OutcomesIn(delivered, id);
    assert after.Keys == before.Keys + {id};
  }
}
