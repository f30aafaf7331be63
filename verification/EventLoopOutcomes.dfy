/** With what callers are resumed. Everything here is stated in terms of replies, codes and times as they are. */
module EventLoopOutcomes {
  import opened Common
  import opened Pipeline
  import opened EventLoopModel
  import opened EventLoopInvariants
  import opened EventLoopParts
  import opened EventLoopSafety
  import opened EventLoopRuns
  import opened EventLoopTheorems
  import opened EventLoopAccounting
  import opened EventLoopBorrowing

  // ---- one answer ---------------------------------------------------------------------------

  /** What libnfs's reply means to the caller: the code of a failure (negative, except for a query), the status, or the
      failure of the data handler. */
  function Meaning(query: bool, status: int, handled: bool): Outcome {
    if query && status != 0 then Threw(Code(status))
    else if !query && status < 0 then Threw(Code(-status))
    else if handled then Returned(status)
    else Threw(HandlerError)
  }

  /** Inside any step: a continuation that has not been resumed is resumed with what the reply means, also when it has
      been detached by a shutdown; one that has been resumed keeps its outcome. */
  lemma AnswerMeans(s: State, r: Reply, detached: set<ID>)
    requires Inv(s, detached, None) && r.id in s.outstanding
    ensures var query := s.outstanding[r.id].kind.Exports?;
            Outcomes(Callback(s, r), r.id)
            == if Outcomes(s, r.id) == [] then [Meaning(query, r.status, r.handled)] else Outcomes(s, r.id)
  {
    hide WellFormed, RetainsMatch, NoneLost, BuffersMatch, HandlesMatch, SlotsFit, IssuePending, Framed, ResumedOnce,
         EndedBuffers, Record;
    var cb := s.outstanding[r.id];
    var ok := ReplySucceeds(cb.kind, r);
    var s1 := RecordCompletion(Taken(s, r), cb.category, ok);
    var waiting := detached + StillWaiting(s, r.id);
    OutstandingFacts(s, r.id, detached);
    TakenInv(s, r, ok, detached);
    IssuePendingInv(s1, waiting);
    Unresumed(s, r.id, detached);
    AlreadyResumed(s1, IssuePending(s1), r.id, waiting);
  }

  /** The controller of the call's category records a success iff the caller's status is returned; the other one does
      not move. */
  lemma AnswerRecords(s: State, r: Reply)
    requires r.id in s.outstanding
    ensures var cb := s.outstanding[r.id]; var k := s.controllers.Get(cb.category);
            && Callback(s, r).controllers.Get(cb.category)
               == (if Meaning(cb.kind.Exports?, r.status, r.handled).Returned? then Succeeded(k) else Failed(k))
            && forall c :: c != cb.category ==> Callback(s, r).controllers.Get(c) == s.controllers.Get(c)
  {
    hide IssuePending, Framed, Succeeded, Failed, EndedBuffers;
    var cb := s.outstanding[r.id];
    IssuingKeepsControllers(RecordCompletion(Taken(s, r), cb.category, ReplySucceeds(cb.kind, r)));
  }

  lemma IssuingKeepsControllers(s: State)
    ensures IssuePending(s).controllers == s.controllers && IssuePending(s).buffers == s.buffers
  {
    hide IssueFrom;
    if s.context {
      IssueFromKeepsControllers(s, 0);
    }
  }

  lemma ExecuteKeepsBuffers(s: State, op: PendingOperation)
    ensures Execute(s, op).buffers == s.buffers
  {
    hide Framed;
  }

  lemma {:induction false} IssueFromKeepsControllers(s: State, i: nat)
    ensures IssueFrom(s, i).controllers == s.controllers && IssueFrom(s, i).buffers == s.buffers
    decreases |s.pending| - i
  {
    hide Execute, DepthOf;
    if i < |s.pending| {
      var c := s.pending[i].cb.category;
      if s.inFlight.Get(c) < DepthOf(s, c) {
        ExecuteKeepsBuffers(s.(pending := RemoveAt(s.pending, i)), s.pending[i]);
        IssueFromKeepsControllers(ExecuteAt(s, i), i);
      } else {
        IssueFromKeepsControllers(s, i + 1);
      }
    }
  }

  /** An answer ends its own buffer and no other, with the status as its exit: a read's is handed over iff bytes have
      arrived and freed otherwise, a write's is freed iff the write failed. */
  lemma AnswerEndsBuffer(s: State, r: Reply)
    requires r.id in s.outstanding
    ensures Callback(s, r).buffers.Keys == s.buffers.Keys
    ensures forall id :: id in s.buffers && id != r.id ==> Callback(s, r).buffers[id] == s.buffers[id]
    ensures r.id in s.buffers ==>
              var b, b' := s.buffers[r.id], Callback(s, r).buffers[r.id];
              && b'.write == b.write && b'.exit == Some(r.status)
              && b'.fates == b.fates + (if b.write then (if r.status < 0 then [Freed] else [])
                                        else if r.status > 0 then [HandedToData] else [Freed])
  {
    hide IssuePending, Framed, Record;
    var cb := s.outstanding[r.id];
    IssuingKeepsControllers(RecordCompletion(Taken(s, r), cb.category, ReplySucceeds(cb.kind, r)));
  }

  /** An outstanding call's continuation is flagged iff it has been resumed. */
  lemma Unresumed(s: State, id: ID, detached: set<ID>)
    requires Registered(s, None) && Once(s, detached, None) && id in s.outstanding
    ensures Outcomes(s, id) == [] <==> id in s.active || id in detached
    ensures Outcomes(s, id) == [] <==> id !in s.hasResumed
  {
    assert id in HeldIDs(s, None) && 1 <= id < s.nextID;
  }

  lemma AlreadyResumed(s: State, s': State, id: ID, detached: set<ID>)
    requires Once(s, detached, None) && Once(s', detached, None) && Framed(s, s')
    requires 1 <= id < s.nextID && id !in s.active && (id in detached || id in s.hasResumed)
    ensures Outcomes(s', id) == Outcomes(s, id)
    ensures id in s'.hasResumed <==> id in s.hasResumed
  {
    hide Grows;
    assert id !in s'.active;
    assert |Outcomes(s', id)| == if id in detached then 0 else 1;
    assert |Outcomes(s, id)| == if id in detached then 0 else 1;
    if id !in detached {
      OutcomeGrows(s.delivered, s'.delivered, id);
    }
  }

  lemma OutcomeGrows(d: map<ID, seq<Outcome>>, d': map<ID, seq<Outcome>>, id: ID)
    requires Grows(d, d') && |OutcomesIn(d, id)| == |OutcomesIn(d', id)|
    ensures OutcomesIn(d', id) == OutcomesIn(d, id)
  {
    assert OutcomesIn(d, id) <= OutcomesIn(d', id);
  }

  // ---- what steps may add ---------------------------------------------------------------------

  /** libnfs has answered the call, without an error, with this status. */
  predicate AnsweredWith(answers: seq<Answer>, id: ID, status: int) {
    exists i :: 0 <= i < |answers| && ReturnsTo(answers[i], id, status)
  }

  predicate ReturnsTo(a: Answer, id: ID, status: int) {
    a.reply == Reply(id, status, true) && if a.kind.Exports? then status == 0 else status >= 0
  }

  predicate Justified(o: Outcome, id: ID, answers: seq<Answer>) {
    o.Returned? ==> AnsweredWith(answers, id, o.status)
  }

  ghost predicate Adds(d: map<ID, seq<Outcome>>, d': map<ID, seq<Outcome>>, answers: seq<Answer>) {
    forall id, o :: o in OutcomesIn(d', id) && o !in OutcomesIn(d, id) ==> Justified(o, id, answers)
  }

  /** A status is returned to a caller only after libnfs has answered its call with that status and no error. */
  ghost predicate Fresh(s: State, s': State) {
    s.answers <= s'.answers && Adds(s.delivered, s'.delivered, s'.answers)
  }

  lemma StillAnswered(answers: seq<Answer>, answers': seq<Answer>, id: ID, status: int)
    requires answers <= answers' && AnsweredWith(answers, id, status)
    ensures AnsweredWith(answers', id, status)
  {
    var i :| 0 <= i < |answers| && ReturnsTo(answers[i], id, status);
    assert answers'[i] == answers[i];
  }

  lemma FreshTwice(a: State, b: State, c: State)
    requires Fresh(a, b) && Fresh(b, c)
    ensures Fresh(a, c)
  {
    forall id, o | o in OutcomesIn(c.delivered, id) && o !in OutcomesIn(a.delivered, id)
      ensures Justified(o, id, c.answers)
    {
      if o in OutcomesIn(b.delivered, id) && o.Returned? {
        StillAnswered(b.answers, c.answers, id, o.status);
      }
    }
  }

  lemma FreshSame(s: State, s': State)
    requires s'.delivered == s.delivered && s.answers <= s'.answers
    ensures Fresh(s, s')
  {
  }

  lemma FreshOne(s: State, s': State, id: ID, o: Outcome)
    requires s'.answers == s.answers && Justified(o, id, s.answers)
    requires s'.delivered == s.delivered || s'.delivered == s.delivered[id := Outcomes(s, id) + [o]]
    ensures Fresh(s, s')
  {
  }

  lemma ExecuteFresh(s: State, op: PendingOperation)
    ensures Fresh(s, Execute(s, op))
  {
    hide Framed, Fresh;
    var s' := Execute(s, op);
    if op.rc < 0 {
      FreshOne(s, s', op.cb.id, Threw(Code(-op.rc)));
    } else {
      FreshSame(s, s');
    }
  }

  lemma {:induction false} IssueFromFresh(s: State, i: nat)
    ensures Fresh(s, IssueFrom(s, i))
    decreases |s.pending| - i
  {
    hide Execute, DepthOf, Fresh, Framed;
    if i >= |s.pending| {
      FreshSame(s, s);
    } else {
      var c := s.pending[i].cb.category;
      if s.inFlight.Get(c) < DepthOf(s, c) {
        var s0 := s.(pending := RemoveAt(s.pending, i));
        FreshSame(s, s0);
        ExecuteFresh(s0, s.pending[i]);
        FreshTwice(s, s0, ExecuteAt(s, i));
        IssueFromFresh(ExecuteAt(s, i), i);
        FreshTwice(s, ExecuteAt(s, i), IssueFrom(s, i));
      } else {
        IssueFromFresh(s, i + 1);
      }
    }
  }

  lemma IssuePendingFresh(s: State)
    ensures Fresh(s, IssuePending(s))
  {
    hide IssueFrom, Fresh, Framed;
    if s.context {
      IssueFromFresh(s, 0);
    } else {
      FreshSame(s, s);
    }
  }

  lemma AnswerFresh(s: State, r: Reply)
    requires r.id in s.outstanding
    ensures Fresh(s, Callback(s, r))
  {
    hide IssuePending, Fresh, Framed, Record, EndedBuffers;
    var cb := s.outstanding[r.id];
    var s1 := RecordCompletion(Taken(s, r), cb.category, ReplySucceeds(cb.kind, r));
    var s2, o := IssuePending(s1), ReplyOutcome(cb.kind, r);
    FreshSame(s, s1);
    IssuePendingFresh(s1);
    FreshTwice(s, s1, s2);
    assert s1.answers[|s.answers|] == Answer(cb.kind, r);
    if o.Returned? {
      assert ReturnsTo(Answer(cb.kind, r), r.id, o.status);
      AnswersKept(s1, s2);
      StillAnswered(s1.answers, s2.answers, r.id, o.status);
    }
    FreshOne(s2, Callback(s, r), r.id, o);
    FreshTwice(s, s2, Callback(s, r));
  }

  lemma AnswersKept(s: State, s': State)
    requires Fresh(s, s')
    ensures s.answers <= s'.answers
  {
  }

  lemma {:induction false} AnswersFresh(s: State, replies: seq<Reply>, onRpc: bool)
    ensures Fresh(s, CallbackAll(s, replies, onRpc))
    decreases |replies|
  {
    hide Callback, Fresh, Framed;
    if replies == [] {
      FreshSame(s, s);
    } else if Answers(s, replies[0], onRpc) {
      AnswerFresh(s, replies[0]);
      AnswersFresh(Callback(s, replies[0]), replies[1..], onRpc);
      FreshTwice(s, Callback(s, replies[0]), CallbackAll(s, replies, onRpc));
    } else {
      AnswersFresh(s, replies[1..], onRpc);
    }
  }

  lemma CleanupFresh(s: State, replies: seq<Reply>)
    ensures Fresh(s, CleanupExports(s, replies))
  {
    hide CallbackAll, Fresh, OnContext, Grows;
    if s.exports.Some? {
      var s0 := s.(exports := None);
      FreshSame(s, s0);
      AnswersFresh(s0, replies, true);
      FreshTwice(s, s0, CallbackAll(s0, replies, true));
      FreshSame(CallbackAll(s0, replies, true), CleanupExports(s, replies));
      FreshTwice(s, CallbackAll(s0, replies, true), CleanupExports(s, replies));
    } else {
      FreshSame(s, CleanupExports(s, replies));
    }
  }

  lemma DestroyFresh(s: State, replies: seq<Reply>)
    ensures Fresh(s, DestroyContext(s, replies))
  {
    hide CallbackAll, Fresh, OnContext, Grows;
    var s0 := s.(context := false, trace := s.trace + [Destroy]);
    var s1 := CallbackAll(s0, replies, false);
    FreshSame(s, s0);
    AnswersFresh(s0, replies, false);
    FreshTwice(s, s0, s1);
    FreshSame(s1, DestroyContext(s, replies));
    FreshTwice(s, s1, DestroyContext(s, replies));
  }

  lemma ResumeAllFresh(s: State, ids: set<ID>, e: PosixError)
    ensures Fresh(s, ResumeAll(s, ids, Threw(e)))
  {
    hide Grows;
  }
}
