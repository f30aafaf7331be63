/**
 The event loop as a state machine over values. Everything the loop does runs on one
 serial queue, so a run is a sequence of steps; `Apply` says what each one does.

 libnfs is the environment. Whether it accepts a call (rc >= 0) or not is part of the step
 that makes the call (for a queued operation: part of the operation, which is executed at
 most once). Which accepted calls it answers, in which order, and with which status is
 part of the steps that service or destroy a context.
 */
module EventLoopModel {
  import opened Common
  import opened Pipeline

  const MAX_PENDING_OPERATIONS := 4096

  // ---- data -----------------------------------------------------------------

  // IDs are issued from 1 upward; the model does not bound them.
  type ID = int

  type Nfsfh = int

  /** What an operation on an open handle does with memory and with the handle. */
  datatype HandleOp =
    | ReadOwned   // readFile, preadFile: the loop allocates the buffer
    | ReadInto    // preadIntoBuffer: the caller owns the buffer
    | WriteOwned  // writeFile, pwriteFile: the loop allocates a copy
    | CloseHandle // closeFile
    | OtherOp     // fsync, fstat, ftruncate, lseek

  datatype Kind =
    | Gated // submitted through submit or submitWithStatus
    | Handle(handleID: ID, op: HandleOp)
    | Mount
    | Exports

  datatype CallbackData = CallbackData(id: ID, kind: Kind, category: Category, startTime: int)

  /** A queued operation; `rc` is what its `execute` closure will return if it is ever run. */
  datatype PendingOperation = PendingOperation(cb: CallbackData, rc: int)

  datatype Outcome = Returned(status: int) | Threw(error: PosixError)

  /** One answer of libnfs to the accepted call `id`; `handled` is whether the data handler succeeds. */
  datatype Reply = Reply(id: ID, status: int, handled: bool)

  datatype Fate = Freed | HandedToData

  /** A buffer the loop allocated; `exit` is the rc or status with which its operation ended. */
  datatype Buffer = Buffer(write: bool, fates: seq<Fate>, exit: Option<int>)

  /** Calls into the mounted libnfs context, as far as handles and context lifetime are concerned. */
  datatype LibCall =
    | Issue(id: ID)
    | Use(handleID: ID, fh: Nfsfh)
    | Close(handleID: ID, fh: Nfsfh)
    | Destroy

  /** libnfs has given this reply to a call of this kind. */
  datatype Answer = Answer(kind: Kind, reply: Reply)

  /** A file got its handle when so many calls had been made. */
  datatype Opening = Opening(fh: Nfsfh, at: nat)

  datatype State = State(
    // the fields of the event loop
    context: bool,
    pending: seq<PendingOperation>,
    inFlight: PerCategory<int>,
    controllers: PerCategory<Control>,
    active: map<ID, CallbackData>,
    nextID: ID,
    handles: map<ID, Nfsfh>,
    nextHandleID: ID,
    exports: Option<ID>, // the export query's own RPC context and its continuation ID
    exportsDone: bool,
    timeout: int,
    hasResumed: set<ID>, // the flags inside the CallbackData objects
    // what happens outside the loop's fields
    outstanding: map<ID, CallbackData>, // accepted by libnfs, not yet answered
    delivered: map<ID, seq<Outcome>>,   // resumptions of each continuation
    answers: seq<Answer>,                // what libnfs has answered, in order
    refused: seq<PosixError>,            // requests answered before they got a continuation ID
    retains: map<ID, int>,              // unbalanced passRetained calls per CallbackData
    abandoned: set<ID>,                 // retained pointers dropped with a queue or a context
    lostQueries: set<ID>,               // export queries whose context was destroyed before they were answered
    uncharged: PerCategory<int>,         // completions recorded without a slot having been taken or freed
    submitted: seq<PendingOperation>,    // gated operations admitted, in order
    attempted: seq<PendingOperation>,    // gated operations handed to libnfs, in order
    buffers: map<ID, Buffer>,
    openings: map<ID, Opening>,          // every handle ever registered
    reopened: bool,                      // some open yielded a file that was still registered
    trace: seq<LibCall>)

  function Init(timeout: int): State {
    State(true, [], PerCategory(0, 0), PerCategory(Default(), Default()), map[], 1, map[], 1, None, false,
          timeout, {}, map[], map[], [], [], map[], {}, {}, PerCategory(0, 0), [], [], map[], map[], false, [])
  }

  function OutcomesIn(delivered: map<ID, seq<Outcome>>, id: ID): seq<Outcome> {
    if id in delivered then delivered[id] else []
  }

  function Outcomes(s: State, id: ID): seq<Outcome> {
    OutcomesIn(s.delivered, id)
  }

  function RetainsIn(retains: map<ID, int>, id: ID): int {
    if id in retains then retains[id] else 0
  }

  function Retains(s: State, id: ID): int {
    RetainsIn(s.retains, id)
  }

  function DepthOf(s: State, c: Category): int {
    IntegerDepth(s.controllers.Get(c))
  }

  /** Resumptions are only ever added. */
  ghost predicate Grows(delivered: map<ID, seq<Outcome>>, delivered': map<ID, seq<Outcome>>) {
    forall id :: OutcomesIn(delivered, id) <= OutcomesIn(delivered', id)
  }

  // ---- elementary effects ---------------------------------------------------

  /** A request that is answered on the spot, before it gets a continuation ID. */
  function Refuse(s: State, e: PosixError): (s': State)
    ensures Quiet(s, s') && Contained(s, s')
  {
    s.(refused := s.refused + [e])
  }

  /** The caller's continuation is resumed. */
  function Deliver(s: State, id: ID, o: Outcome): State {
    s.(delivered := s.delivered[id := Outcomes(s, id) + [o]])
  }

  /** `CallbackData.resume`: the flag lets only the first attempt through. */
  function Resume(s: State, id: ID, o: Outcome): State {
    s.(hasResumed := s.hasResumed + {id},
       delivered := if id in s.hasResumed then s.delivered else s.delivered[id := Outcomes(s, id) + [o]])
  }

  function Retain(s: State, id: ID): State {
    s.(retains := s.retains[id := Retains(s, id) + 1])
  }

  function Release(s: State, id: ID): State {
    s.(retains := s.retains[id := Retains(s, id) - 1])
  }

  function RecordCompletion(s: State, c: Category, success: bool): State {
    s.(inFlight := s.inFlight.Set(c, Max(0, s.inFlight.Get(c) - 1)),
       controllers := s.controllers.Set(c, Record(s.controllers.Get(c), success)))
  }

  function Charge(s: State, c: Category): State {
    s.(uncharged := s.uncharged.Set(c, s.uncharged.Get(c) + 1))
  }

  function TakeSlot(s: State, c: Category): State {
    s.(inFlight := s.inFlight.Set(c, s.inFlight.Get(c) + 1))
  }

  function Deactivate(s: State, id: ID): State {
    s.(active := s.active - {id})
  }

  /** A new CallbackData is created and registered. */
  function Activate(s: State, cb: CallbackData): State {
    s.(active := s.active[cb.id := cb], nextID := s.nextID + 1)
  }

  /** libnfs accepts the call. */
  function Accept(s: State, cb: CallbackData): State {
    s.(outstanding := s.outstanding[cb.id := cb])
  }

  function OwnsBuffer(k: Kind): bool {
    k.Handle? && (k.op.ReadOwned? || k.op.WriteOwned?)
  }

  /** What becomes of the buffer when its operation ends with `status` (or is rejected with rc = `status`). */
  function FatesAt(write: bool, status: int): seq<Fate> {
    if status < 0 then [Freed]
    else if write then []
    else if status > 0 then [HandedToData]
    else [Freed]
  }

  function Allocate(s: State, cb: CallbackData): State {
    s.(buffers := if OwnsBuffer(cb.kind) then s.buffers[cb.id := Buffer(cb.kind.op.WriteOwned?, [], Option.None)]
                  else s.buffers)
  }

  /** The buffers after the operation `id` has ended with `status`. */
  function EndedBuffers(buffers: map<ID, Buffer>, id: ID, status: int): map<ID, Buffer> {
    if id in buffers then
      buffers[id := buffers[id].(fates := buffers[id].fates + FatesAt(buffers[id].write, status), exit := Some(status))]
    else buffers
  }

  function EndBuffer(s: State, id: ID, status: int): State {
    s.(buffers := EndedBuffers(s.buffers, id, status))
  }

  // ---- issuing --------------------------------------------------------------

  /** What executing queued operations and answering calls leaves alone. */
  ghost predicate Framed(s: State, s': State) {
    && s'.context == s.context && s'.exports == s.exports && s'.timeout == s.timeout
    && s'.handles == s.handles && s'.nextHandleID == s.nextHandleID
    && s'.nextID == s.nextID && s'.submitted == s.submitted && s'.refused == s.refused
    && s'.abandoned == s.abandoned && s'.lostQueries == s.lostQueries && s'.openings == s.openings
    && (s.exportsDone ==> s'.exportsDone)
    && s'.active.Keys <= s.active.Keys && s.hasResumed <= s'.hasResumed
    && Grows(s.delivered, s'.delivered)
  }

  function RemoveAt<T>(q: seq<T>, i: int): seq<T>
    requires 0 <= i < |q|
  {
    q[..i] + q[i + 1..]
  }

  /** libnfs rejects a call made for a gated operation: release, unregister, resume with the error. */
  function Reject(s: State, id: ID, rc: int): State {
    Resume(Deactivate(Release(s, id), id), id, Threw(Code(-rc)))
  }

  /** libnfs is called for a gated operation. */
  function Attempted(s: State, op: PendingOperation): State {
    s.(attempted := s.attempted + [op], trace := s.trace + [Issue(op.cb.id)])
  }

  /** A queued operation is executed; the queue itself is not touched. */
  function Execute(s: State, op: PendingOperation): (s': State)
    ensures s'.pending == s.pending && Framed(s, s')
    ensures s'.attempted == s.attempted + [op] && s'.controllers == s.controllers && s'.uncharged == s.uncharged
    ensures s'.inFlight == if op.rc < 0 then s.inFlight
                           else s.inFlight.Set(op.cb.category, s.inFlight.Get(op.cb.category) + 1)
    ensures s'.outstanding == if op.rc < 0 then s.outstanding else s.outstanding[op.cb.id := op.cb]
  {
    var s1 := Attempted(s, op);
    if op.rc < 0 then Reject(s1, op.cb.id, op.rc)
    else TakeSlot(Accept(s1, op.cb), op.cb.category)
  }

  /** The operation at index `i` leaves the queue and is executed. */
  function ExecuteAt(s: State, i: int): State
    requires 0 <= i < |s.pending|
  {
    Execute(s.(pending := RemoveAt(s.pending, i)), s.pending[i])
  }

  /** The rest of the scan over the queue, from index `i` on. */
  function IssueFrom(s: State, i: nat): (s': State)
    ensures Framed(s, s') && s'.uncharged == s.uncharged
    decreases |s.pending| - i
  {
    if i >= |s.pending| then s
    else
      var c := s.pending[i].cb.category;
      if s.inFlight.Get(c) < DepthOf(s, c) then IssueFrom(ExecuteAt(s, i), i)
      else IssueFrom(s, i + 1)
  }

  function IssuePending(s: State): (s': State)
    ensures Framed(s, s') && s'.uncharged == s.uncharged
  {
    if s.context then IssueFrom(s, 0) else s
  }

  // ---- submitting -----------------------------------------------------------

  /** An operation that is executed at once: retained, then handed to libnfs like a queued one. */
  function IssueOperation(s: State, cb: CallbackData, rc: int): (s': State)
    ensures s'.context == s.context && s'.exports == s.exports && Contained(s, s')
  {
    Execute(Retain(s, cb.id), PendingOperation(cb, rc))
  }

  function Enqueue(s: State, op: PendingOperation): (s': State)
    ensures s'.context == s.context && s'.exports == s.exports && Contained(s, s')
  {
    var s1 := Retain(s, op.cb.id);
    s1.(pending := s1.pending + [op], submitted := s1.submitted + [op])
  }

  /** The queue is full: unregister and resume the continuation directly, bypassing the flag. */
  function Overflow(s: State, id: ID): (s': State)
    ensures s'.context == s.context && s'.exports == s.exports && Contained(s, s')
  {
    Deliver(Deactivate(s, id), id, Threw(ENOBUFS))
  }

  /** The operation is registered, and issued at once, rejected for want of queue space, or queued. */
  function Admit(s: State, op: PendingOperation): (s': State)
    ensures s'.context == s.context && s'.exports == s.exports
    ensures Contained(s, s')
  {
    var c, s1 := op.cb.category, Activate(s, op.cb);
    if s1.inFlight.Get(c) < DepthOf(s1, c) then IssueOperation(s1.(submitted := s1.submitted + [op]), op.cb, op.rc)
    else if |s1.pending| >= MAX_PENDING_OPERATIONS then Overflow(s1, op.cb.id)
    else Enqueue(s1, op)
  }

  function Submit(s: State, c: Category, now: int, rc: int): (s': State)
    ensures s'.context == s.context && s'.exports == s.exports
    ensures Contained(s, s')
    ensures !s.context ==> s'.outstanding == s.outstanding && s'.active == s.active
  {
    if s.context then Admit(s, PendingOperation(CallbackData(s.nextID, Gated, c, now), rc)) else Refuse(s, ENOTCONN)
  }

  /** What a call that is not gated leaves alone: the queue, its histories and the depths; it frees no slot. */
  ghost predicate Quiet(s: State, s': State) {
    && s'.context == s.context && s'.pending == s.pending && s'.attempted == s.attempted && s'.submitted == s.submitted
    && s'.controllers == s.controllers
    && s'.inFlight.bulk >= s.inFlight.bulk && s'.inFlight.metadata >= s.inFlight.metadata
  }

  /** What submitting a call of any kind leaves alone besides. */
  ghost predicate Contained(s: State, s': State) {
    && s'.abandoned == s.abandoned && s'.lostQueries == s.lostQueries && s'.uncharged == s.uncharged
    && s'.timeout == s.timeout && Grows(s.delivered, s'.delivered)
  }

  /** Gated and handle operations take a slot; mounting and the export query do not. */
  function Metered(k: Kind): bool {
    k.Gated? || k.Handle?
  }

  function Accepted(s: State, cb: CallbackData): State {
    Accept(s, cb).(inFlight := if Metered(cb.kind) then s.inFlight.Set(cb.category, s.inFlight.Get(cb.category) + 1)
                               else s.inFlight)
  }

  /** A call that is not gated is rejected: free its buffer if it has one, release, unregister, and resume directly,
      bypassing the flag. */
  function RejectDirect(s: State, id: ID, rc: int, e: PosixError): State {
    Deliver(Deactivate(Release(EndBuffer(s, id, rc), id), id), id, Threw(e))
  }

  /** A new CallbackData, registered and retained. */
  function Started(s: State, cb: CallbackData): State {
    Retain(Activate(Allocate(s, cb), cb), cb.id)
  }

  /** libnfs is called past the gate. */
  function CallDirectly(s: State, cb: CallbackData, rc: int, e: PosixError): (s': State)
    ensures Quiet(s, s') && Contained(s, s') && s'.exports == s.exports
    ensures s'.outstanding == if rc < 0 then s.outstanding else s.outstanding[cb.id := cb]
  {
    if rc < 0 then RejectDirect(s, cb.id, rc, e) else Accepted(s, cb)
  }

  function HandleCategory(op: HandleOp): Category {
    if op.CloseHandle? || op.OtherOp? then Metadata else Bulk
  }

  /** The call names the handle; a close takes it out of the registry first. */
  function Touched(s: State, h: ID, fh: Nfsfh, op: HandleOp): State {
    s.(handles := if op.CloseHandle? then s.handles - {h} else s.handles,
       trace := s.trace + [if op.CloseHandle? then Close(h, fh) else Use(h, fh)])
  }

  function CallHandle(s: State, h: ID, op: HandleOp, now: int, rc: int): (s': State)
    ensures Quiet(s, s') && Contained(s, s') && s'.exports == s.exports
    ensures !s.context ==> s'.outstanding == s.outstanding && s'.active == s.active
  {
    if h !in s.handles then Refuse(s, EBADF)
    else if !s.context then Refuse(s, ENOTCONN)
    else
      var cb := CallbackData(s.nextID, Handle(h, op), HandleCategory(op), now);
      CallDirectly(Touched(Started(s, cb), h, s.handles[h], op), cb, rc, Code(-rc))
  }

  function CallMount(s: State, now: int, rc: int): (s': State)
    ensures Quiet(s, s') && Contained(s, s') && s'.exports == s.exports
    ensures !s.context ==> s'.outstanding == s.outstanding && s'.active == s.active
  {
    if !s.context then Refuse(s, ENOTCONN)
    else
      var cb := CallbackData(s.nextID, Mount, Metadata, now);
      var s1 := Started(s, cb);
      CallDirectly(s1.(trace := s1.trace + [Issue(cb.id)]), cb, rc, Code(-rc))
  }

  /** The query's context is registered before the call and destroyed again, unused, if the call is rejected. */
  function StartExports(s: State, now: int, rc: int): (s': State)
    ensures Quiet(s, s') && Contained(s, s')
  {
    var cb := CallbackData(s.nextID, Exports, Metadata, now);
    var s1 := Started(s, cb);
    CallDirectly(s1.(exports := if rc < 0 then None else Some(cb.id), exportsDone := false), cb, rc, EIO)
  }

  function CallGetExports(s: State, rpcAvailable: bool, now: int, rc: int): (s': State)
    ensures Quiet(s, s') && Contained(s, s')
    ensures !s.context ==> s'.outstanding == s.outstanding && s'.active == s.active
  {
    if s.context && s.exports.None? && rpcAvailable then StartExports(s, now, rc)
    else Refuse(s, if !s.context then ENOTCONN else if s.exports.Some? then EBUSY else ENOMEM)
  }

  // ---- callbacks ------------------------------------------------------------

  /** Whether a reply counts as a failure before the data handler is asked. */
  function IsErrorReply(k: Kind, status: int): bool {
    if k.Exports? then status != 0 else status < 0
  }

  function ReplySucceeds(k: Kind, r: Reply): bool {
    !IsErrorReply(k, r.status) && r.handled
  }

  function ReplyOutcome(k: Kind, r: Reply): Outcome {
    if IsErrorReply(k, r.status) then Threw(Code(if k.Exports? then r.status else -r.status))
    else if r.handled then Returned(r.status)
    else Threw(HandlerError)
  }

  function HandleCompletion(s: State, id: ID, c: Category, success: bool): State {
    IssuePending(RecordCompletion(Deactivate(s, id), c, success))
  }

  /** The call has its answer; the export query's answer also ends the query. */
  function Answered(s: State, r: Reply, cb: CallbackData): State {
    s.(outstanding := s.outstanding - {r.id},
       answers := s.answers + [Answer(cb.kind, r)],
       exportsDone := s.exportsDone || cb.kind.Exports?,
       uncharged := if Metered(cb.kind) then s.uncharged
                    else s.uncharged.Set(cb.category, s.uncharged.Get(cb.category) + 1))
  }

  /** `takeRetainedValue`, then the buffer's cleanup or data handler. */
  function TakeReply(s: State, r: Reply): State
    requires r.id in s.outstanding
  {
    Answered(EndBuffer(Release(s, r.id), r.id, r.status), r, s.outstanding[r.id])
  }

  /** The C callback: bookkeeping, then newly allowed operations, then the caller. */
  function Callback(s: State, r: Reply): (s': State)
    requires r.id in s.outstanding
    ensures Framed(s, s') && r.id in s'.hasResumed && r.id !in s'.active
  {
    var cb := s.outstanding[r.id];
    var s1 := HandleCompletion(TakeReply(s, r), r.id, cb.category, ReplySucceeds(cb.kind, r));
    Resume(s1, r.id, ReplyOutcome(cb.kind, r))
  }

  /** libnfs answers a call only while it is outstanding, and only on the context it was made on. */
  predicate Answers(s: State, r: Reply, onRpc: bool) {
    r.id in s.outstanding && (s.outstanding[r.id].kind.Exports? <==> onRpc)
  }

  /** The answers given while one context is serviced or destroyed; an answer libnfs cannot give is not one. */
  function CallbackAll(s: State, replies: seq<Reply>, onRpc: bool): (s': State)
    ensures Framed(s, s')
    decreases |replies|
  {
    if replies == [] then s
    else CallbackAll(if Answers(s, replies[0], onRpc) then Callback(s, replies[0]) else s, replies[1..], onRpc)
  }

  // ---- destroying contexts --------------------------------------------------

  function OnContext(m: map<ID, CallbackData>, onRpc: bool): set<ID> {
    set id | id in m && (m[id].kind.Exports? <==> onRpc)
  }

  /** Calls the destroyed context never answered: their retained pointers are never taken back. */
  function Abandon(s: State, onRpc: bool): State {
    var lost := OnContext(s.outstanding, onRpc);
    s.(outstanding := s.outstanding - lost, abandoned := s.abandoned + lost,
       lostQueries := if onRpc then s.lostQueries + lost else s.lostQueries)
  }

  function DestroyContext(s: State, replies: seq<Reply>): (s': State)
    ensures !s'.context && Grows(s.delivered, s'.delivered)
    ensures s'.timeout == s.timeout
  {
    var s1 := s.(context := false, trace := s.trace + [Destroy]);
    Abandon(CallbackAll(s1, replies, false), false)
  }

  function CleanupExports(s: State, replies: seq<Reply>): (s': State)
    ensures s'.context == s.context && s'.exports == None && Grows(s.delivered, s'.delivered)
    ensures s.exports == None ==> s' == s.(exportsDone := false)
    ensures s.abandoned == s.lostQueries ==> s'.abandoned == s'.lostQueries
    ensures s'.timeout == s.timeout
  {
    var s1 := if s.exports.Some? then Abandon(CallbackAll(s.(exports := None), replies, true), true) else s;
    s1.(exportsDone := false)
  }

  function DeliveredToAll(delivered: map<ID, seq<Outcome>>, ids: set<ID>, o: Outcome): map<ID, seq<Outcome>> {
    delivered + map id | id in ids :: OutcomesIn(delivered, id) + [o]
  }

  /** Every continuation of `ids` is resumed through its flag, in any order. */
  function ResumeAll(s: State, ids: set<ID>, o: Outcome): (s': State)
    ensures Grows(s.delivered, s'.delivered)
  {
    s.(hasResumed := s.hasResumed + ids, delivered := DeliveredToAll(s.delivered, ids - s.hasResumed, o))
  }

  function PendingIDs(q: seq<PendingOperation>): set<ID> {
    if q == [] then {} else {q[0].cb.id} + PendingIDs(q[1..])
  }

  /** Both registries are emptied before the context goes: callbacks may fire while it does. */
  function Detach(s: State): State {
    s.(active := map[], pending := [], abandoned := s.abandoned + PendingIDs(s.pending))
  }

  function ShutdownWithError(s: State, e: PosixError, replies: seq<Reply>): (s': State)
    ensures !s'.context && Grows(s.delivered, s'.delivered)
    ensures s'.timeout == s.timeout
  {
    var s1 := Detach(s);
    var s2 := if s1.context then DestroyContext(s1, replies) else s1;
    ResumeAll(s2, s.active.Keys, Threw(e))
  }

  function PerformShutdown(s: State, rpcReplies: seq<Reply>, replies: seq<Reply>): (s': State)
    ensures !s'.context && Grows(s.delivered, s'.delivered)
    ensures s'.timeout == s.timeout
  {
    if !s.context && s.active == map[] then s
    else
      var s0 := CleanupExports(s, rpcReplies);
      var s1 := Detach(s0).(handles := map[]);
      var s2 := if s1.context then DestroyContext(s1, replies) else s1;
      var s3 := ResumeAll(s2, s0.active.Keys, Threw(ENOTCONN));
      s3.(controllers := PerCategory(Restarted(s3.controllers.bulk), Restarted(s3.controllers.metadata)),
          inFlight := PerCategory(0, 0))
  }

  // ---- timeouts and events --------------------------------------------------

  function Expired(s: State, now: int): set<ID> {
    set id | id in s.active && s.active[id].startTime < now - s.timeout
  }

  predicate Enumerates(order: seq<ID>, ids: set<ID>) {
    && (forall i, j :: 0 <= i < j < |order| ==> order[i] != order[j])
    && (set id | id in order) == ids
  }

  function TimeoutOne(s: State, id: ID): (s': State)
    ensures s'.context == s.context && s'.exports == s.exports
    ensures s'.abandoned == s.abandoned && s'.lostQueries == s.lostQueries
    ensures Grows(s.delivered, s'.delivered)
    ensures s'.timeout == s.timeout
  {
    if id in s.active then
      var c := s.active[id].category;
      Resume(RecordCompletion(Charge(Deactivate(s, id), c), c, false), id, Threw(ETIMEDOUT))
    else s
  }

  function TimeoutAll(s: State, order: seq<ID>): (s': State)
    ensures s'.context == s.context && s'.exports == s.exports
    ensures s'.abandoned == s.abandoned && s'.lostQueries == s.lostQueries
    ensures Grows(s.delivered, s'.delivered)
    ensures s'.timeout == s.timeout
    decreases |order|
  {
    if order == [] then s else TimeoutAll(TimeoutOne(s, order[0]), order[1..])
  }

  /** `order` is the order in which the expired entries come out of the dictionary. */
  function ScanForTimeouts(s: State, order: seq<ID>, rpcReplies: seq<Reply>): State {
    if s.timeout <= 0 then s
    else
      var s1 := TimeoutAll(s, order);
      if s1.exports.Some? && s1.exports.value !in s1.active then CleanupExports(s1, rpcReplies) else s1
  }

  /** The mounted context is serviced: `replies`, then the result of the service call. */
  function IOEvent(s: State, replies: seq<Reply>, result: int, destroyReplies: seq<Reply>): State {
    if !s.context then s
    else
      var s1 := CallbackAll(s, replies, false);
      if result < 0 then ShutdownWithError(s1, ENOTCONN, destroyReplies) else IssuePending(s1)
  }

  /** The export query's context is serviced. */
  function RpcEvent(s: State, replies: seq<Reply>, result: int, destroyReplies: seq<Reply>): State {
    if s.exports.None? then s
    else
      var s1 := CallbackAll(s, replies, true);
      if s1.exportsDone || result < 0 then CleanupExports(s1, destroyReplies) else s1
  }

  // ---- handles --------------------------------------------------------------

  function OpenHandle(s: State, fh: Nfsfh): State {
    s.(handles := s.handles[s.nextHandleID := fh],
       openings := s.openings[s.nextHandleID := Opening(fh, |s.trace|)],
       reopened := s.reopened || fh in s.handles.Values,
       nextHandleID := s.nextHandleID + 1)
  }

  /** The close is synchronous: while it waits, libnfs can answer other calls made on the context. */
  function CloseFireAndForget(s: State, h: ID, replies: seq<Reply>): (s': State)
    ensures s'.context == s.context && s'.exports == s.exports && s'.abandoned == s.abandoned
    ensures s'.lostQueries == s.lostQueries && Grows(s.delivered, s'.delivered)
    ensures s'.timeout == s.timeout
  {
    if h !in s.handles then s
    else
      var s1 := s.(handles := s.handles - {h});
      if s1.context then CallbackAll(s1.(trace := s1.trace + [Close(h, s.handles[h])]), replies, false) else s1
  }

  // ---- runs -----------------------------------------------------------------

  datatype Step =
    | DoSubmit(category: Category, now: int, rc: int)
    | DoHandle(handleID: ID, op: HandleOp, now: int, rc: int)
    | DoMount(now: int, rc: int)
    | DoGetExports(rpcAvailable: bool, now: int, rc: int)
    | DoOpen(fh: Nfsfh)
    | DoForget(handleID: ID, replies: seq<Reply>)
    | DoIO(replies: seq<Reply>, result: int, destroyReplies: seq<Reply>)
    | DoRpc(replies: seq<Reply>, result: int, destroyReplies: seq<Reply>)
    | DoTimeouts(now: int, order: seq<ID>, rpcReplies: seq<Reply>)
    | DoShutdown(rpcReplies: seq<Reply>, replies: seq<Reply>)

  function Apply(s: State, step: Step): (s': State)
    ensures Grows(s.delivered, s'.delivered)
  {
    match step
    case DoSubmit(c, now, rc) => Submit(s, c, now, rc)
    case DoHandle(h, op, now, rc) => CallHandle(s, h, op, now, rc)
    case DoMount(now, rc) => CallMount(s, now, rc)
    case DoGetExports(available, now, rc) => CallGetExports(s, available, now, rc)
    case DoOpen(fh) => OpenHandle(s, fh)
    case DoForget(h, replies) => CloseFireAndForget(s, h, replies)
    case DoIO(replies, result, destroyReplies) => IOEvent(s, replies, result, destroyReplies)
    case DoRpc(replies, result, destroyReplies) => RpcEvent(s, replies, result, destroyReplies)
    case DoTimeouts(now, order, rpcReplies) =>
      if Enumerates(order, Expired(s, now)) then ScanForTimeouts(s, order, rpcReplies) else s
    case DoShutdown(rpcReplies, replies) => PerformShutdown(s, rpcReplies, replies)
  }

  function Run(s: State, steps: seq<Step>): State
    decreases |steps|
  {
    if steps == [] then s else Run(Apply(s, steps[0]), steps[1..])
  }
}
