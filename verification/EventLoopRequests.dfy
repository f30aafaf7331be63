/**
 What each request does in any state that satisfies the invariant, so after any run: whether it is
 refused, with what its caller is resumed, and what becomes of the queue, the slots, the buffers and
 the handles. Codes, sizes and categories are written out.
 */
module EventLoopRequests {
  import opened Common
  import opened Pipeline
  import opened EventLoopModel
  import opened EventLoopInvariants
  import opened EventLoopSafety
  import opened EventLoopRuns

  /** The next continuation ID has left no trace yet. */
  ghost predicate Unused(s: State, id: ID) {
    && id !in s.active && id !in s.outstanding && id !in s.hasResumed && id !in s.delivered && id !in s.buffers
  }

  lemma NextIDHasNoPast(s: State)
    requires Inv(s, {}, None)
    ensures Unused(s, s.nextID)
  {
    NextIDUnused(s);
  }

  /** A request refused on the spot changes nothing else. */
  ghost predicate Refused(s: State, s': State, e: PosixError) {
    s' == s.(refused := s.refused + [e])
  }

  /** The new call got an ID, nobody else was resumed, and the export query was left alone. */
  ghost predicate OnlyNew(s: State, s': State, id: ID) {
    && s'.nextID == id + 1 && s'.context == s.context
    && (forall x :: x != id ==> Outcomes(s', x) == Outcomes(s, x))
    && s'.refused == s.refused && s'.controllers == s.controllers && s'.answers == s.answers
  }

  /** Registered iff it has not been resumed, with libnfs iff accepted. */
  ghost predicate Placed(s: State, s': State, cb: CallbackData, accepted: bool, outcome: Option<PosixError>) {
    && Outcomes(s', cb.id) == (if outcome.Some? then [Threw(outcome.value)] else [])
    && s'.active == (if outcome.Some? then s.active else s.active[cb.id := cb])
    && s'.outstanding == (if accepted then s.outstanding[cb.id := cb] else s.outstanding)
  }

  // ---- the pieces of a request ----------------------------------------------------------------

  /** The fields that calling libnfs past the gate leaves alone. */
  ghost predicate Same(s: State, s': State) {
    && s'.context == s.context && s'.pending == s.pending && s'.controllers == s.controllers
    && s'.nextID == s.nextID && s'.handles == s.handles && s'.exports == s.exports && s'.exportsDone == s.exportsDone
    && s'.answers == s.answers && s'.refused == s.refused && s'.trace == s.trace
  }

  lemma DirectFields(s: State, cb: CallbackData, rc: int, e: PosixError)
    ensures var s', id := CallDirectly(s, cb, rc, e), cb.id;
            && Same(s, s')
            && s'.delivered == (if rc < 0 then s.delivered[id := Outcomes(s, id) + [Threw(e)]] else s.delivered)
            && s'.active == (if rc < 0 then s.active - {id} else s.active)
            && s'.outstanding == (if rc < 0 then s.outstanding else s.outstanding[id := cb])
            && s'.buffers == (if rc < 0 then EndedBuffers(s.buffers, id, rc) else s.buffers)
            && s'.inFlight == if rc >= 0 && (cb.kind.Gated? || cb.kind.Handle?)
                              then s.inFlight.Set(cb.category, s.inFlight.Get(cb.category) + 1) else s.inFlight
  {
    hide Contained, Quiet, EndedBuffers;
  }

  lemma StartedFields(s: State, cb: CallbackData)
    ensures var s' := Started(s, cb);
            && Same(s.(nextID := s.nextID + 1), s')
            && s'.active == s.active[cb.id := cb] && s'.delivered == s.delivered && s'.outstanding == s.outstanding
            && s'.inFlight == s.inFlight
            && s'.buffers == if cb.kind.Handle? && (cb.kind.op == ReadOwned || cb.kind.op == WriteOwned)
                             then s.buffers[cb.id := Buffer(cb.kind.op == WriteOwned, [], None)] else s.buffers
  {
  }

  lemma PlacedDirectly(s: State, s1: State, cb: CallbackData, rc: int, e: PosixError)
    requires Unused(s, cb.id) && s1.active == s.active[cb.id := cb] && s1.delivered == s.delivered
    requires s1.outstanding == s.outstanding
    ensures Placed(s, CallDirectly(s1, cb, rc, e), cb, rc >= 0, if rc < 0 then Some(e) else None)
    ensures forall x :: x != cb.id ==> Outcomes(CallDirectly(s1, cb, rc, e), x) == Outcomes(s, x)
  {
    hide CallDirectly, EndedBuffers;
    DirectFields(s1, cb, rc, e);
    assert s.active[cb.id := cb] - {cb.id} == s.active;
  }

  // ---- gated operations -----------------------------------------------------------------------

  /** Without a context it is refused with ENOTCONN. With a free slot libnfs is called at once and takes the slot iff
      it accepts; a rejection is reported as the code -rc. Without a slot the operation is queued, unless 4096 wait
      already: then the caller gets ENOBUFS. */
  lemma SubmitAnswers(s: State, c: Category, now: int, rc: int)
    requires Inv(s, {}, None)
    ensures var s' := Apply(s, DoSubmit(c, now, rc));
            var cb := CallbackData(s.nextID, Gated, c, now);
            var free, full := s.inFlight.Get(c) < DepthOf(s, c), |s.pending| >= 4096;
            if !s.context then Refused(s, s', ENOTCONN)
            else
              && OnlyNew(s, s', s.nextID)
              && Placed(s, s', cb, free && rc >= 0,
                        if free && rc < 0 then Some(Code(-rc)) else if !free && full then Some(ENOBUFS) else None)
              && s'.pending == s.pending + (if free || full then [] else [PendingOperation(cb, rc)])
              && s'.inFlight == (if free && rc >= 0 then s.inFlight.Set(c, s.inFlight.Get(c) + 1) else s.inFlight)
              && s'.exports == s.exports && s'.exportsDone == s.exportsDone && s'.buffers == s.buffers
  {
    hide Inv, Grows, Framed, IntegerDepth, Contained, Quiet, IssueOperation, Overflow, Enqueue, Placed, OnlyNew, Unused;
    NextIDHasNoPast(s);
    var op := PendingOperation(CallbackData(s.nextID, Gated, c, now), rc);
    IssuedAnswers(s, op);
    OverflowAnswers(s, op);
    QueuedAnswers(s, op);
    assert s.pending + [] == s.pending;
  }

  lemma IssuedAnswers(s: State, op: PendingOperation)
    requires Unused(s, s.nextID) && op.cb.id == s.nextID
    ensures var s' := IssueOperation(Activate(s, op.cb).(submitted := s.submitted + [op]), op.cb, op.rc);
            && OnlyNew(s, s', s.nextID)
            && Placed(s, s', op.cb, op.rc >= 0, if op.rc < 0 then Some(Code(-op.rc)) else None)
            && s'.inFlight == (if op.rc >= 0 then s.inFlight.Set(op.cb.category, s.inFlight.Get(op.cb.category) + 1)
                               else s.inFlight)
            && s'.pending == s.pending
            && s'.exports == s.exports && s'.exportsDone == s.exportsDone && s'.buffers == s.buffers
  {
    hide Framed, Contained, Execute, Placed;
    var s1 := Retain(Activate(s, op.cb).(submitted := s.submitted + [op]), op.cb.id);
    assert op == PendingOperation(op.cb, op.rc);
    ExecutedFields(s1, op);
    PlacedAtOnce(s, s1, op);
  }

  lemma ExecutedFields(s: State, op: PendingOperation)
    requires op.cb.id !in s.hasResumed
    ensures var s', id := Execute(s, op), op.cb.id;
            && Same(s.(trace := s'.trace), s') && s'.buffers == s.buffers
            && s'.delivered == (if op.rc < 0 then s.delivered[id := Outcomes(s, id) + [Threw(Code(-op.rc))]]
                                else s.delivered)
            && s'.active == if op.rc < 0 then s.active - {id} else s.active
  {
    hide Framed, Grows;
    if op.rc < 0 {
    }
  }

  lemma PlacedAtOnce(s: State, s1: State, op: PendingOperation)
    requires Unused(s, op.cb.id) && s1.active == s.active[op.cb.id := op.cb] && s1.delivered == s.delivered
    requires s1.outstanding == s.outstanding && s1.hasResumed == s.hasResumed
    ensures Placed(s, Execute(s1, op), op.cb, op.rc >= 0, if op.rc < 0 then Some(Code(-op.rc)) else None)
    ensures forall x :: x != op.cb.id ==> Outcomes(Execute(s1, op), x) == Outcomes(s, x)
  {
    hide Framed, Execute;
    ExecutedFields(s1, op);
    assert s.active[op.cb.id := op.cb] - {op.cb.id} == s.active;
  }

  lemma OverflowAnswers(s: State, op: PendingOperation)
    requires Unused(s, s.nextID) && op.cb.id == s.nextID
    ensures var s' := Overflow(Activate(s, op.cb), op.cb.id);
            && OnlyNew(s, s', s.nextID) && Placed(s, s', op.cb, false, Some(ENOBUFS))
            && s'.inFlight == s.inFlight && s'.pending == s.pending
            && s'.exports == s.exports && s'.exportsDone == s.exportsDone && s'.buffers == s.buffers
  {
    hide Contained;
    assert s.active[op.cb.id := op.cb] - {op.cb.id} == s.active;
  }

  lemma QueuedAnswers(s: State, op: PendingOperation)
    requires Unused(s, s.nextID) && op.cb.id == s.nextID
    ensures var s' := Enqueue(Activate(s, op.cb), op);
            && OnlyNew(s, s', s.nextID) && Placed(s, s', op.cb, false, None)
            && s'.inFlight == s.inFlight && s'.pending == s.pending + [op]
            && s'.exports == s.exports && s'.exportsDone == s.exportsDone && s'.buffers == s.buffers
  {
    hide Contained;
  }

  // ---- operations on handles ------------------------------------------------------------------

  /** An unknown handle is refused with EBADF, a known one without a context with ENOTCONN. Otherwise libnfs is called
      whatever the count, on the registered file; the call takes a slot iff it is accepted, and a rejection is reported
      as the code -rc after its buffer, if it has one, has been freed. A close leaves the registry either way. */
  lemma HandleAnswers(s: State, h: ID, op: HandleOp, now: int, rc: int)
    requires Inv(s, {}, None)
    ensures var s' := Apply(s, DoHandle(h, op, now, rc));
            var c := if op == ReadOwned || op == ReadInto || op == WriteOwned then Bulk else Metadata;
            if h !in s.handles then Refused(s, s', EBADF)
            else if !s.context then Refused(s, s', ENOTCONN)
            else
              && OnlyNew(s, s', s.nextID)
              && Placed(s, s', CallbackData(s.nextID, Handle(h, op), c, now), rc >= 0,
                        if rc < 0 then Some(Code(-rc)) else None)
              && s'.pending == s.pending
              && s'.inFlight == (if rc >= 0 then s.inFlight.Set(c, s.inFlight.Get(c) + 1) else s.inFlight)
              && s'.buffers == (if op == ReadOwned || op == WriteOwned then s.buffers[s.nextID :=
                                  if rc < 0 then Buffer(op == WriteOwned, [Freed], Some(rc))
                                  else Buffer(op == WriteOwned, [], None)] else s.buffers)
              && s'.handles == (if op == CloseHandle then s.handles - {h} else s.handles)
              && s'.trace == s.trace + [if op == CloseHandle then Close(h, s.handles[h]) else Use(h, s.handles[h])]
              && s'.exports == s.exports && s'.exportsDone == s.exportsDone
  {
    hide Inv, Grows, Contained, Quiet, Started, CallDirectly, Placed, EndedBuffers, Outcomes;
    NextIDHasNoPast(s);
    var cb := CallbackData(s.nextID, Handle(h, op), HandleCategory(op), now);
    StartedFields(s, cb);
    if h in s.handles {
      var s2 := Touched(Started(s, cb), h, s.handles[h], op);
      DirectFields(s2, cb, rc, Code(-rc));
      PlacedDirectly(s, s2, cb, rc, Code(-rc));
      BufferFreed(s.buffers, s.nextID, op == WriteOwned, rc);
    }
  }

  lemma BufferFreed(buffers: map<ID, Buffer>, id: ID, write: bool, rc: int)
    ensures rc < 0 ==>
              EndedBuffers(buffers[id := Buffer(write, [], None)], id, rc)
              == buffers[id := Buffer(write, [Freed], Some(rc))]
    ensures id !in buffers ==> EndedBuffers(buffers, id, rc) == buffers
  {
    assert [] + [Freed] == [Freed];
  }

  // ---- mounting and the export query ----------------------------------------------------------

  /** Mounting takes no slot; a rejection is reported as the code -rc. */
  lemma MountAnswers(s: State, now: int, rc: int)
    requires Inv(s, {}, None)
    ensures var s' := Apply(s, DoMount(now, rc));
            if !s.context then Refused(s, s', ENOTCONN)
            else
              && OnlyNew(s, s', s.nextID)
              && Placed(s, s', CallbackData(s.nextID, Mount, Metadata, now), rc >= 0,
                        if rc < 0 then Some(Code(-rc)) else None)
              && s'.pending == s.pending && s'.inFlight == s.inFlight && s'.buffers == s.buffers
              && s'.exports == s.exports && s'.exportsDone == s.exportsDone
  {
    hide Inv, Grows, Contained, Quiet, Started, CallDirectly, Placed, EndedBuffers, Outcomes;
    NextIDHasNoPast(s);
    var cb := CallbackData(s.nextID, Mount, Metadata, now);
    StartedFields(s, cb);
    var s1 := Started(s, cb);
    var s2 := s1.(trace := s1.trace + [Issue(cb.id)]);
    DirectFields(s2, cb, rc, Code(-rc));
    PlacedDirectly(s, s2, cb, rc, Code(-rc));
    BufferFreed(s.buffers, s.nextID, false, rc);
  }

  /** One query at a time, on a context of its own; a rejected one reports EIO and leaves no context. */
  lemma GetExportsAnswers(s: State, rpcAvailable: bool, now: int, rc: int)
    requires Inv(s, {}, None)
    ensures var s' := Apply(s, DoGetExports(rpcAvailable, now, rc));
            if !s.context then Refused(s, s', ENOTCONN)
            else if s.exports.Some? then Refused(s, s', EBUSY)
            else if !rpcAvailable then Refused(s, s', ENOMEM)
            else
              && OnlyNew(s, s', s.nextID)
              && Placed(s, s', CallbackData(s.nextID, Exports, Metadata, now), rc >= 0,
                        if rc < 0 then Some(EIO) else None)
              && s'.exports == (if rc < 0 then None else Some(s.nextID)) && !s'.exportsDone
              && s'.pending == s.pending && s'.inFlight == s.inFlight && s'.buffers == s.buffers
  {
    hide Inv, Grows, Contained, Quiet, StartExports, OnlyNew, Placed, Unused;
    NextIDHasNoPast(s);
    StartExportsAnswers(s, now, rc);
  }

  lemma StartExportsAnswers(s: State, now: int, rc: int)
    requires Unused(s, s.nextID)
    ensures var s' := StartExports(s, now, rc);
            && OnlyNew(s, s', s.nextID)
            && Placed(s, s', CallbackData(s.nextID, Exports, Metadata, now), rc >= 0,
                      if rc < 0 then Some(EIO) else None)
            && s'.exports == (if rc < 0 then None else Some(s.nextID)) && !s'.exportsDone
            && s'.pending == s.pending && s'.inFlight == s.inFlight && s'.buffers == s.buffers
  {
    hide Contained, Quiet, Started, CallDirectly, Placed, EndedBuffers, Outcomes;
    var cb := CallbackData(s.nextID, Exports, Metadata, now);
    StartedFields(s, cb);
    var s1 := Started(s, cb);
    var s2 := s1.(exports := if rc < 0 then None else Some(cb.id), exportsDone := false);
    DirectFields(s2, cb, rc, EIO);
    PlacedDirectly(s, s2, cb, rc, EIO);
    BufferFreed(s.buffers, s.nextID, false, rc);
  }

  // ---- handles forgotten by their owner -------------------------------------------------------

  /** Calls are only ever added. */
  ghost predicate Extends(t: seq<LibCall>, t': seq<LibCall>) {
    t <= t'
  }

  lemma ExtendsTwice(a: seq<LibCall>, b: seq<LibCall>, c: seq<LibCall>)
    requires Extends(a, b) && Extends(b, c)
    ensures Extends(a, c)
  {
  }

  lemma ExtendsSame(t: seq<LibCall>, call: LibCall)
    ensures Extends(t, t) && Extends(t, t + [call])
  {
  }

  lemma ExecuteAtTrace(s: State, i: int)
    requires 0 <= i < |s.pending|
    ensures Extends(s.trace, ExecuteAt(s, i).trace)
  {
    hide Framed, RemoveAt, Extends;
    ExtendsSame(s.trace, Issue(s.pending[i].cb.id));
  }

  lemma {:induction false} IssueFromTrace(s: State, i: nat)
    ensures Extends(s.trace, IssueFrom(s, i).trace)
    decreases |s.pending| - i
  {
    hide DepthOf, Framed, Execute, Extends;
    if i >= |s.pending| {
      ExtendsSame(s.trace, Destroy);
    } else {
      var c := s.pending[i].cb.category;
      if s.inFlight.Get(c) < DepthOf(s, c) {
        ExecuteAtTrace(s, i);
        IssueFromTrace(ExecuteAt(s, i), i);
        ExtendsTwice(s.trace, ExecuteAt(s, i).trace, IssueFrom(s, i).trace);
      } else {
        IssueFromTrace(s, i + 1);
      }
    }
  }

  lemma AnswerTrace(s: State, r: Reply)
    requires r.id in s.outstanding
    ensures Extends(s.trace, Callback(s, r).trace)
  {
    hide Framed, IssueFrom, Record, EndedBuffers, Extends;
    var cb := s.outstanding[r.id];
    ExtendsSame(s.trace, Destroy);
    IssueFromTrace(RecordCompletion(Taken(s, r), cb.category, ReplySucceeds(cb.kind, r)), 0);
  }

  lemma {:induction false} AnswersTrace(s: State, replies: seq<Reply>, onRpc: bool)
    ensures Extends(s.trace, CallbackAll(s, replies, onRpc).trace)
    decreases |replies|
  {
    hide Framed, Callback, Extends;
    ExtendsSame(s.trace, Destroy);
    if replies != [] {
      if Answers(s, replies[0], onRpc) {
        AnswerTrace(s, replies[0]);
        AnswersTrace(Callback(s, replies[0]), replies[1..], onRpc);
        ExtendsTwice(s.trace, Callback(s, replies[0]).trace, CallbackAll(s, replies, onRpc).trace);
      } else {
        AnswersTrace(s, replies[1..], onRpc);
      }
    }
  }

  /** A handle whose owner is gone leaves the registry, and its file is closed while there is a context. */
  lemma ForgetCloses(s: State, h: ID, replies: seq<Reply>)
    ensures var s' := Apply(s, DoForget(h, replies));
            && s'.handles == s.handles - {h}
            && (h in s.handles && s.context ==> s.trace + [Close(h, s.handles[h])] <= s'.trace)
            && (h !in s.handles || !s.context ==> s' == s.(handles := s.handles - {h}))
  {
    hide CallbackAll;
    if h in s.handles && s.context {
      AnswersTrace(s.(handles := s.handles - {h}, trace := s.trace + [Close(h, s.handles[h])]), replies, false);
    }
    assert h !in s.handles ==> s.handles - {h} == s.handles;
  }

  /** An open registers the file under an ID that no handle has ever had, and changes no other handle. */
  lemma OpenRegisters(s: State, fh: Nfsfh)
    requires Inv(s, {}, None)
    ensures var s' := Apply(s, DoOpen(fh)); var h := s.nextHandleID;
            && h !in s.openings && h !in s.handles && s'.handles == s.handles[h := fh] && s'.nextHandleID == h + 1
            && s'.delivered == s.delivered && s'.outstanding == s.outstanding && s'.trace == s.trace
  {
    hide WellFormed, ResumedOnce, RetainsMatch, NoneLost, BuffersMatch, SlotsFit, FilesApart, TraceSafe;
  }
}
