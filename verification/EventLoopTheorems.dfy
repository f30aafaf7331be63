/** What the invariant means for callers, memory, handles and counters, over every run of a fresh event loop. */
module EventLoopTheorems {
  import opened Common
  import opened Pipeline
  import opened AimdTheorems
  import opened EventLoopModel
  import opened EventLoopInvariants
  import opened EventLoopParts
  import opened EventLoopSafety
  import opened EventLoopRuns

  // ---- callers ----------------------------------------------------------------

  /** Between two steps every continuation ever issued has been resumed exactly once, except those still
      registered, which have not been resumed at all. */
  lemma ExactlyOnce(timeout: int, steps: seq<Step>)
    ensures var s := After(timeout, steps);
            && (forall id :: 1 <= id < s.nextID ==> |Outcomes(s, id)| == if id in s.active then 0 else 1)
            && (forall id :: id in s.active || Outcomes(s, id) != [] ==> 1 <= id < s.nextID)
  {
    hide Run;
    RunInv(timeout, steps);
  }

  /** A shutdown, or a service call that fails while the connection lives, leaves nobody waiting. */
  lemma NobodyWaitsAfterShutdown(timeout: int, steps: seq<Step>, last: Step)
    requires last.DoShutdown? || (last.DoIO? && last.result < 0 && After(timeout, steps).context)
    ensures var s := Apply(After(timeout, steps), last);
            s.active == map[] && forall id :: 1 <= id < s.nextID ==> |Outcomes(s, id)| == 1
  {
    hide WellFormed, ResumedOnce, RetainsMatch, NoneLost, BuffersMatch, HandlesMatch, SlotsFit, Run, PerformShutdown,
         ShutdownWithError, CallbackAll;
    var s0 := After(timeout, steps);
    RunInv(timeout, steps);
    StepInv(s0, last);
    if last.DoShutdown? {
      PerformShutdownInv(s0, last.rpcReplies, last.replies);
    } else {
      ServicedInv(s0, last.replies, false);
      ShutdownWithErrorInv(CallbackAll(s0, last.replies, false), ENOTCONN, last.destroyReplies);
    }
    NobodyActive(Apply(s0, last));
  }

  lemma NobodyActive(s: State)
    requires Inv(s, {}, None) && s.active == map[]
    ensures forall id :: 1 <= id < s.nextID ==> |Outcomes(s, id)| == 1
  {
  }

  /** A registered continuation is queued or has a call outstanding; only an export query can lose its call. */
  lemma SomebodyWillAnswer(timeout: int, steps: seq<Step>, id: ID)
    requires id in After(timeout, steps).active
    ensures var s := After(timeout, steps);
            s.active[id].kind.Exports? || id in s.outstanding || id in PendingIDs(s.pending)
  {
    hide Run;
    RunInv(timeout, steps);
  }

  /** The first outcome is final: whatever happens later (late replies, timeouts, shutdowns), a continuation that has
      been resumed keeps that one outcome. */
  lemma {:induction false} FirstOutcomeIsFinal(timeout: int, steps: seq<Step>, later: seq<Step>, id: ID)
    requires Outcomes(After(timeout, steps), id) != []
    ensures Outcomes(Run(After(timeout, steps), later), id) == Outcomes(After(timeout, steps), id)
    decreases |later|
  {
    hide Run, Apply, Inv;
    var s := After(timeout, steps);
    RunSteps(s, later);
    if later != [] {
      RunInv(timeout, steps);
      StepInv(s, later[0]);
      OutcomeKept(s, Apply(s, later[0]), id);
      RunAppend(Init(timeout), steps, later[0]);
      FirstOutcomeIsFinal(timeout, steps + [later[0]], later[1..], id);
    }
  }

  lemma RunSteps(s: State, steps: seq<Step>)
    ensures Run(s, []) == s
    ensures steps != [] ==> Run(s, steps) == Run(Apply(s, steps[0]), steps[1..])
  {
  }

  lemma {:induction false} RunAppend(s: State, steps: seq<Step>, last: Step)
    ensures Run(s, steps + [last]) == Apply(Run(s, steps), last)
    decreases |steps|
  {
    hide Apply;
    if steps == [] {
      assert ([] + [last])[1..] == [];
      RunSteps(s, [last]);
      RunSteps(Apply(s, last), []);
    } else {
      assert (steps + [last])[1..] == steps[1..] + [last];
      RunAppend(Apply(s, steps[0]), steps[1..], last);
    }
  }

  lemma OutcomeKept(s: State, s': State, id: ID)
    requires Inv(s, {}, None) && Inv(s', {}, None) && Grows(s.delivered, s'.delivered) && Outcomes(s, id) != []
    ensures Outcomes(s', id) == Outcomes(s, id)
  {
  }

  // ---- retained pointers --------------------------------------------------------

  /** Each CallbackData has one unbalanced retain while it is queued, outstanding or abandoned, and none otherwise. */
  lemma RetainBalance(timeout: int, steps: seq<Step>, id: ID)
    ensures var s := After(timeout, steps);
            && Retains(s, id)
               == (if id in s.outstanding || id in PendingIDs(s.pending) || id in s.abandoned then 1 else 0)
            && (id in s.abandoned ==> id !in s.outstanding && id !in PendingIDs(s.pending))
  {
    hide Run;
    RunInv(timeout, steps);
  }

  /** While the connection lives, only unanswered export queries are dropped. */
  ghost predicate OnlyQueriesDropped(s: State) {
    s.context ==> s.abandoned == s.lostQueries
  }

  lemma StepDropsOnlyQueries(s: State, step: Step)
    requires OnlyQueriesDropped(s)
    ensures OnlyQueriesDropped(Apply(s, step))
  {
    hide CallbackAll, IssuePending, ShutdownWithError, PerformShutdown, CleanupExports, TimeoutAll, CallHandle,
         CallMount, CallGetExports, Submit, CloseFireAndForget, Grows;
  }

  lemma {:induction false} RunDropsOnlyQueries(s: State, steps: seq<Step>)
    requires OnlyQueriesDropped(s)
    ensures OnlyQueriesDropped(Run(s, steps))
    decreases |steps|
  {
    hide OnlyQueriesDropped, Apply;
    if steps != [] {
      StepDropsOnlyQueries(s, steps[0]);
      RunDropsOnlyQueries(Apply(s, steps[0]), steps[1..]);
    }
  }

  /** While the connection lives, every retained pointer is in the queue or with libnfs, or belongs to an export query
      whose own context was destroyed before it was answered. */
  lemma NoLeakBeforeShutdown(timeout: int, steps: seq<Step>, id: ID)
    requires After(timeout, steps).context
    ensures var s := After(timeout, steps);
            Retains(s, id) == if id in s.outstanding || id in PendingIDs(s.pending) || id in s.lostQueries then 1 else 0
  {
    hide Run;
    RetainBalance(timeout, steps, id);
    RunDropsOnlyQueries(Init(timeout), steps);
  }

  // ---- buffers ------------------------------------------------------------------

  /** A buffer allocated for a read is untouched while its operation is open, and freed or handed to the caller's
      data exactly once when it ends: handed over iff bytes arrived. */
  lemma ReadBuffersOnce(timeout: int, steps: seq<Step>, id: ID)
    requires id in After(timeout, steps).buffers && !After(timeout, steps).buffers[id].write
    ensures var s := After(timeout, steps); var b := s.buffers[id];
            && (b.exit.None? <==> id in s.outstanding || id in s.abandoned)
            && (b.exit.None? ==> b.fates == [])
            && (b.exit.Some? ==> |b.fates| == 1 && (b.fates[0] == HandedToData <==> b.exit.value > 0))
  {
    hide Run;
    RunInv(timeout, steps);
  }

  /** A buffer allocated for a write is freed iff the write failed; after a success nobody frees it. */
  lemma WriteBufferFreedIff(timeout: int, steps: seq<Step>, id: ID)
    requires id in After(timeout, steps).buffers && After(timeout, steps).buffers[id].write
    ensures var b := After(timeout, steps).buffers[id];
            && (b.fates == [Freed] <==> b.exit.Some? && b.exit.value < 0)
            && (b.fates == [] <==> b.exit.None? || b.exit.value >= 0)
  {
    hide Run;
    RunInv(timeout, steps);
  }

  // ---- handles ------------------------------------------------------------------

  /** After a close of a handle ID there is no further call on it, in particular no second close; after the context
      is destroyed there is no call at all; every call passes the file registered under its ID; and the next ID to be
      issued has never been used. */
  lemma HandleSafety(timeout: int, steps: seq<Step>, i: int, j: int)
    requires 0 <= i < j < |After(timeout, steps).trace|
    ensures var s := After(timeout, steps); var t := s.trace;
            && t[i] != Destroy
            && (t[i].Close? && (t[j].Close? || t[j].Use?) ==> t[j].handleID != t[i].handleID)
            && (t[i].Close? ==> t[i].handleID !in s.handles)
            && (t[i].Close? || t[i].Use? ==>
                  t[i].handleID in s.openings && t[i].fh == s.openings[t[i].handleID].fh
                      && t[i].handleID != s.nextHandleID)
            && s.nextHandleID !in s.openings && (forall h :: h in s.handles ==> h in s.openings)
  {
    hide Run;
    RunInv(timeout, steps);
  }

  /** If no open yields a file that is still registered, then a call that names a closed file, in particular a second
      close of it, does so through a handle opened after that close: each opening is closed at most once. */
  lemma FilesClosedOnce(timeout: int, steps: seq<Step>, i: int, j: int)
    requires !After(timeout, steps).reopened
    requires var t := After(timeout, steps).trace;
             0 <= i < j < |t| && t[i].Close? && (t[j].Close? || t[j].Use?) && t[j].fh == t[i].fh
    ensures var s := After(timeout, steps); var t := s.trace;
            t[j].handleID != t[i].handleID && t[j].handleID in s.openings && s.openings[t[j].handleID].at > i
  {
    hide Run;
    RunInv(timeout, steps);
  }

  // ---- after the connection is gone ----------------------------------------------

  /** No context, nobody registered, and nothing but an export query's answer can still arrive. */
  ghost predicate Down(s: State) {
    !s.context && s.active == map[]
  }

  lemma StepStaysDown(s: State, step: Step)
    requires Down(s)
    ensures Down(Apply(s, step))
  {
    hide Callback, CallbackAll, IssuePending, Abandon, TimeoutOne, Grows, PendingIDs, Record, Submit, CallHandle,
         CallMount, CallGetExports, Contained;
    match step
    case DoIO(replies, result, destroyReplies) =>
    case DoRpc(replies, result, destroyReplies) =>
      CleanupStaysDown(CallbackAll(s, replies, true), destroyReplies);
    case DoTimeouts(now, order, rpcReplies) =>
      NobodyTimesOut(s, order);
      CleanupStaysDown(s, rpcReplies);
    case _ =>
  }

  lemma CleanupStaysDown(s: State, replies: seq<Reply>)
    requires Down(s)
    ensures Down(CleanupExports(s, replies))
  {
    hide CallbackAll;
  }

  lemma {:induction false} NobodyTimesOut(s: State, order: seq<ID>)
    requires s.active == map[]
    ensures TimeoutAll(s, order) == s
    decreases |order|
  {
    if order != [] {
      NobodyTimesOut(s, order[1..]);
    }
  }

  lemma {:induction false} RunStaysDown(s: State, steps: seq<Step>)
    requires Down(s)
    ensures Down(Run(s, steps))
    decreases |steps|
  {
    hide Apply, Down;
    if steps != [] {
      StepStaysDown(s, steps[0]);
      RunStaysDown(Apply(s, steps[0]), steps[1..]);
    }
  }

  /** Nobody is left waiting after a shutdown, and nobody ever waits again, whatever is requested or arrives later. */
  lemma NobodyWaitsEverAfter(timeout: int, steps: seq<Step>, last: Step, later: seq<Step>)
    requires last.DoShutdown? || (last.DoIO? && last.result < 0 && After(timeout, steps).context)
    ensures Run(Apply(After(timeout, steps), last), later).active == map[]
  {
    hide Run, CallbackAll;
    NobodyWaitsAfterShutdown(timeout, steps, last);
    RunStaysDown(Apply(After(timeout, steps), last), later);
  }

  // ---- shutting down twice ---------------------------------------------------------

  predicate EndsConnection(step: Step) {
    step.DoShutdown? || (step.DoIO? && step.result < 0)
  }

  lemma OtherStepsKeepContext(s: State, step: Step)
    requires !EndsConnection(step)
    ensures Apply(s, step).context == s.context
  {
    hide Submit, CallHandle, CallMount, CallGetExports, CallbackAll, CleanupExports, TimeoutAll, IssuePending, Grows,
         Contained, CloseFireAndForget;
  }

  /** Without a context nobody is registered, so a shutdown returns at its guard. */
  lemma {:induction false} NoContextMeansDown(timeout: int, steps: seq<Step>)
    ensures !After(timeout, steps).context ==> Down(After(timeout, steps))
    decreases |steps|
  {
    hide Run, Apply;
    if steps == [] {
      RunSteps(Init(timeout), []);
    } else {
      var before, last := steps[..|steps| - 1], steps[|steps| - 1];
      var s := After(timeout, before);
      NoContextMeansDown(timeout, before);
      RunAppend(Init(timeout), before, last);
      assert before + [last] == steps;
      if !s.context {
        StepStaysDown(s, last);
      } else if EndsConnection(last) {
        NobodyWaitsAfterShutdown(timeout, before, last);
      } else {
        OtherStepsKeepContext(s, last);
      }
    }
  }

  /** The shutdown after a failed service call leaves the export query's context alone, and the next shutdown does
      nothing at all. */
  lemma ErrorShutdownKeepsQuery(timeout: int, steps: seq<Step>, replies: seq<Reply>, result: int,
                                destroyReplies: seq<Reply>, rpcReplies: seq<Reply>, lateReplies: seq<Reply>)
    requires After(timeout, steps).context && result < 0
    ensures var s' := Apply(After(timeout, steps), DoIO(replies, result, destroyReplies));
            && Down(s') && s'.exports == After(timeout, steps).exports
            && Apply(s', DoShutdown(rpcReplies, lateReplies)) == s'
  {
    hide Run, CallbackAll, Grows;
    var s, last := After(timeout, steps), DoIO(replies, result, destroyReplies);
    NobodyWaitsAfterShutdown(timeout, steps, last);
  }

  /** The query's own events and the timeout scan are all that could still end it; the scan's timer is cancelled with
      the connection. */
  predicate LeavesQueryAlone(step: Step) {
    !step.DoRpc? && !step.DoTimeouts?
  }

  lemma StepLeavesQuery(s: State, step: Step)
    requires Down(s) && LeavesQueryAlone(step)
    ensures Apply(s, step).exports == s.exports
  {
    hide Submit, CallHandle, CallMount, StartExports, CallbackAll, Grows, Contained, Quiet;
  }

  lemma {:induction false} RunLeavesQuery(s: State, later: seq<Step>)
    requires Down(s) && forall i :: 0 <= i < |later| ==> LeavesQueryAlone(later[i])
    ensures Run(s, later).exports == s.exports
    decreases |later|
  {
    hide Apply, Down, LeavesQueryAlone;
    if later != [] {
      StepLeavesQuery(s, later[0]);
      StepStaysDown(s, later[0]);
      assert forall i :: 0 <= i < |later| - 1 ==> later[1..][i] == later[i + 1];
      RunLeavesQuery(Apply(s, later[0]), later[1..]);
    }
  }

  /** An export query that is open when the connection fails keeps its context for ever, through any shutdown, unless an
      event of its own ends it. */
  lemma QueryOutlivesConnection(timeout: int, steps: seq<Step>, replies: seq<Reply>, result: int,
                                destroyReplies: seq<Reply>, later: seq<Step>)
    requires After(timeout, steps).context && result < 0
    requires forall i :: 0 <= i < |later| ==> LeavesQueryAlone(later[i])
    ensures Run(Apply(After(timeout, steps), DoIO(replies, result, destroyReplies)), later).exports
         == After(timeout, steps).exports
  {
    hide Run, Apply, LeavesQueryAlone;
    ErrorShutdownKeepsQuery(timeout, steps, replies, result, destroyReplies, [], []);
    RunLeavesQuery(Apply(After(timeout, steps), DoIO(replies, result, destroyReplies)), later);
  }

  // ---- timeouts -----------------------------------------------------------------

  /** The registered continuations among `ids` that belong to category `c`. */
  function OfCategory(active: map<ID, CallbackData>, ids: set<ID>, c: Category): set<ID> {
    set id | id in ids && id in active && active[id].category == c
  }

  /** The state after timing out `ids`, whatever the order. */
  ghost function TimedOut(s: State, ids: set<ID>): State {
    var b, m := |OfCategory(s.active, ids, Bulk)|, |OfCategory(s.active, ids, Metadata)|;
    s.(active := s.active - ids,
       inFlight := PerCategory(if b == 0 then s.inFlight.bulk else Max(0, s.inFlight.bulk - b),
                               if m == 0 then s.inFlight.metadata else Max(0, s.inFlight.metadata - m)),
       controllers := PerCategory(Repeat(s.controllers.bulk, false, b), Repeat(s.controllers.metadata, false, m)),
       uncharged := PerCategory(s.uncharged.bulk + b, s.uncharged.metadata + m),
       hasResumed := s.hasResumed + ids,
       delivered := DeliveredToAll(s.delivered, ids - s.hasResumed, Threw(ETIMEDOUT)))
  }

  lemma {:induction false} RepeatShift(k: Control, success: bool, n: nat)
    ensures Repeat(Record(k, success), success, n) == Repeat(k, success, n + 1)
  {
    if n > 0 {
      RepeatShift(k, success, n - 1);
    }
  }

  lemma TimedOutStep(s: State, id: ID, rest: set<ID>)
    requires id in s.active && id !in rest && rest <= s.active.Keys && 0 <= s.inFlight.bulk && 0 <= s.inFlight.metadata
    ensures TimedOut(TimeoutOne(s, id), rest) == TimedOut(s, {id} + rest)
  {
    hide Record, OfCategory, DeliveredToAll, Grows;
    var s1, ids := TimeoutOne(s, id), {id} + rest;
    assert s.active - {id} - rest == s.active - ids;
    assert s.hasResumed + {id} + rest == s.hasResumed + ids;
    OfCategoryStep(s.active, id, rest, Bulk);
    OfCategoryStep(s.active, id, rest, Metadata);
    RepeatShift(s.controllers.bulk, false, |OfCategory(s.active, rest, Bulk)|);
    RepeatShift(s.controllers.metadata, false, |OfCategory(s.active, rest, Metadata)|);
    DeliveredStep(s.delivered, s.hasResumed, id, rest);
  }

  lemma OfCategoryStep(active: map<ID, CallbackData>, id: ID, rest: set<ID>, c: Category)
    requires id in active && id !in rest
    ensures OfCategory(active - {id}, rest, c) == OfCategory(active, rest, c)
    ensures |OfCategory(active, {id} + rest, c)|
            == |OfCategory(active, rest, c)| + if active[id].category == c then 1 else 0
  {
    if active[id].category == c {
      assert OfCategory(active, {id} + rest, c) == OfCategory(active, rest, c) + {id};
    } else {
      assert OfCategory(active, {id} + rest, c) == OfCategory(active, rest, c);
    }
  }

  lemma DeliveredStep(delivered: map<ID, seq<Outcome>>, flags: set<ID>, id: ID, rest: set<ID>)
    requires id !in rest
    ensures var o := Threw(ETIMEDOUT);
            var delivered1 := if id in flags then delivered else delivered[id := OutcomesIn(delivered, id) + [o]];
            DeliveredToAll(delivered1, rest - (flags + {id}), o) == DeliveredToAll(delivered, {id} + rest - flags, o)
  {
    var o := Threw(ETIMEDOUT);
    assert {id} + rest - flags == (rest - (flags + {id})) + if id in flags then {} else {id};
  }

  lemma NothingTimedOut(s: State)
    ensures TimedOut(s, {}) == s
  {
    assert OfCategory(s.active, {}, Bulk) == {} && OfCategory(s.active, {}, Metadata) == {};
    assert DeliveredToAll(s.delivered, {}, Threw(ETIMEDOUT)) == s.delivered;
    assert s.active - {} == s.active && {} - s.hasResumed == {};
  }

  lemma {:induction false} TimeoutAllIsTimedOut(s: State, order: seq<ID>)
    requires Enumerates(order, set id | id in order) && (forall id :: id in order ==> id in s.active)
    requires 0 <= s.inFlight.bulk && 0 <= s.inFlight.metadata
    ensures TimeoutAll(s, order) == TimedOut(s, set id | id in order)
    decreases |order|
  {
    hide Record;
    if order == [] {
      assert (set id | id in order) == {};
      NothingTimedOut(s);
    } else {
      var id, rest := order[0], order[1..];
      var ids := set x | x in rest;
      assert (set x | x in order) == {id} + ids;
      TimeoutAllIsTimedOut(TimeoutOne(s, id), rest);
      TimedOutStep(s, id, ids);
    }
  }

  /** The order in which the dictionary yields the expired entries makes no difference. */
  lemma TimeoutOrderIrrelevant(s: State, now: int, order: seq<ID>, order': seq<ID>)
    requires Enumerates(order, Expired(s, now)) && Enumerates(order', Expired(s, now))
    requires 0 <= s.inFlight.bulk && 0 <= s.inFlight.metadata
    ensures TimeoutAll(s, order) == TimeoutAll(s, order')
  {
    hide TimedOut, TimeoutAll;
    assert forall id :: id in order ==> id in Expired(s, now);
    assert forall id :: id in order' ==> id in Expired(s, now);
    TimeoutAllIsTimedOut(s, order);
    TimeoutAllIsTimedOut(s, order');
  }
}
