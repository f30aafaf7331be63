/**
 How the parts of the event loop's invariant move, one elementary effect at a time. Every
 lemma speaks of the fields its part depends on and of nothing else.
 */
module EventLoopParts {
  import opened Common
  import opened Pipeline
  import opened EventLoopModel
  import opened EventLoopInvariants

  // ---- the queue ------------------------------------------------------------

  lemma {:induction false} QueuedIDs(q: seq<PendingOperation>, id: ID)
    ensures id in PendingIDs(q) <==> exists i :: 0 <= i < |q| && q[i].cb.id == id
  {
    if q != [] {
      QueuedIDs(q[1..], id);
      if id in PendingIDs(q[1..]) {
        var i :| 0 <= i < |q| - 1 && q[1..][i].cb.id == id;
        assert q[i + 1].cb.id == id;
      }
      if i :| 0 <= i < |q| && q[i].cb.id == id {
        assert i > 0 ==> q[1..][i - 1].cb.id == id;
      }
    }
  }

  lemma QueueAfterRemoval(q: seq<PendingOperation>, i: int)
    requires 0 <= i < |q|
    requires forall a, b :: 0 <= a < b < |q| ==> q[a].cb.id != q[b].cb.id
    ensures PendingIDs(RemoveAt(q, i)) == PendingIDs(q) - {q[i].cb.id}
    ensures q[i].cb.id in PendingIDs(q)
    ensures |RemoveAt(q, i)| == |q| - 1
    ensures forall k :: 0 <= k < |q| - 1 ==> RemoveAt(q, i)[k] == if k < i then q[k] else q[k + 1]
  {
    var q' := RemoveAt(q, i);
    forall id ensures id in PendingIDs(q') <==> id in PendingIDs(q) && id != q[i].cb.id {
      QueuedIDs(q, id);
      QueuedIDs(q', id);
      if k :| 0 <= k < |q| && k != i && q[k].cb.id == id {
        assert q'[if k < i then k else k - 1] == q[k];
      }
    }
    QueuedIDs(q, q[i].cb.id);
  }

  lemma QueueAfterAppend(q: seq<PendingOperation>, op: PendingOperation)
    ensures PendingIDs(q + [op]) == PendingIDs(q) + {op.cb.id}
  {
    var q' := q + [op];
    forall id ensures id in PendingIDs(q') <==> id in PendingIDs(q) || id == op.cb.id {
      QueuedIDs(q, id);
      QueuedIDs(q', id);
      assert q'[|q|] == op;
      if k :| 0 <= k < |q| && q[k].cb.id == id {
        assert q'[k].cb.id == id;
      }
    }
  }

  // ---- well-formedness ------------------------------------------------------

  lemma WellFormedStart(nextID: ID, active: set<ID>, outstanding: map<ID, CallbackData>, q: seq<PendingOperation>,
                        context: bool, cb: CallbackData)
    requires WellFormed(nextID, active, outstanding, q, context, None) && cb.id == nextID
    ensures WellFormed(nextID + 1, active + {nextID}, outstanding, q, context, Some(cb))
  {
  }

  lemma WellFormedDequeue(nextID: ID, active: set<ID>, outstanding: map<ID, CallbackData>, q: seq<PendingOperation>,
                          context: bool, i: int)
    requires WellFormed(nextID, active, outstanding, q, context, None) && 0 <= i < |q|
    ensures WellFormed(nextID, active, outstanding, RemoveAt(q, i), context, Some(q[i].cb))
  {
    QueueAfterRemoval(q, i);
  }

  lemma WellFormedEnqueue(nextID: ID, active: set<ID>, outstanding: map<ID, CallbackData>, q: seq<PendingOperation>,
                          op: PendingOperation)
    requires WellFormed(nextID, active, outstanding, q, true, Some(op.cb)) && op.cb.kind.Gated?
    ensures WellFormed(nextID, active, outstanding, q + [op], true, None)
  {
    QueueAfterAppend(q, op);
    forall i | 0 <= i < |q| ensures q[i].cb.id != op.cb.id {
      QueuedIDs(q, q[i].cb.id);
    }
  }

  lemma WellFormedAccept(nextID: ID, active: set<ID>, outstanding: map<ID, CallbackData>, q: seq<PendingOperation>,
                         context: bool, cb: CallbackData)
    requires WellFormed(nextID, active, outstanding, q, context, Some(cb))
    ensures WellFormed(nextID, active, outstanding[cb.id := cb], q, context, None)
  {
  }

  lemma WellFormedShrink(nextID: ID, active: set<ID>, active': set<ID>, outstanding: map<ID, CallbackData>,
                         gone: set<ID>, q: seq<PendingOperation>, context: bool, hand: Option<CallbackData>)
    requires WellFormed(nextID, active, outstanding, q, context, hand) && active' <= active
    ensures WellFormed(nextID, active', outstanding - gone, q, context, None)
    ensures WellFormed(nextID, active', outstanding, q, context, None)
  {
  }

  // ---- exactly-once resumption ----------------------------------------------

  lemma OnceStart(nextID: ID, active: set<ID>, held: set<ID>, reserved: set<ID>, flags: set<ID>,
                  delivered: map<ID, seq<Outcome>>)
    requires ResumedOnce(nextID, active, {}, held, reserved, flags, delivered) && 1 <= nextID
    ensures ResumedOnce(nextID + 1, active + {nextID}, {}, held + {nextID}, reserved + {nextID}, flags, delivered)
  {
  }

  lemma OnceShrink(nextID: ID, active: set<ID>, detached: set<ID>, held: set<ID>, held': set<ID>, reserved: set<ID>,
                   reserved': set<ID>, flags: set<ID>, delivered: map<ID, seq<Outcome>>)
    requires ResumedOnce(nextID, active, detached, held, reserved, flags, delivered)
    requires held' <= held && reserved' <= reserved
    ensures ResumedOnce(nextID, active, detached, held', reserved', flags, delivered)
  {
  }

  /** A continuation leaves the registry, to be resumed later in the same step. */
  lemma OnceDetach(nextID: ID, active: set<ID>, detached: set<ID>, held: set<ID>, reserved: set<ID>, flags: set<ID>,
                   delivered: map<ID, seq<Outcome>>, ids: set<ID>)
    requires ResumedOnce(nextID, active, detached, held, reserved, flags, delivered)
    requires ids <= active && ids !! reserved && forall id :: id in active ==> 1 <= id < nextID
    ensures ResumedOnce(nextID, active - ids, detached + ids, held, reserved, flags, delivered)
  {
  }

  /** A waiting continuation is resumed: its flag is set, or nobody holds its CallbackData any more. */
  lemma OnceDeliver(nextID: ID, active: set<ID>, detached: set<ID>, held: set<ID>, reserved: set<ID>, flags: set<ID>,
                    delivered: map<ID, seq<Outcome>>, id: ID, o: Outcome, flag: bool)
    requires ResumedOnce(nextID, active, detached, held, reserved, flags, delivered)
    requires id in active || id in detached
    requires 1 <= id < nextID && (flag || id !in held)
    ensures ResumedOnce(nextID, active - {id}, detached - {id}, held, reserved, flags + if flag then {id} else {},
                        delivered[id := OutcomesIn(delivered, id) + [o]])
  {
  }

  /** All detached continuations are resumed at once. */
  lemma OnceDeliverAll(nextID: ID, detached: set<ID>, held: set<ID>, reserved: set<ID>, flags: set<ID>,
                       delivered: map<ID, seq<Outcome>>, ids: set<ID>, o: Outcome)
    requires ResumedOnce(nextID, {}, detached, held, reserved, flags, delivered)
    requires detached == ids - flags && forall id :: id in ids ==> 1 <= id < nextID
    ensures ResumedOnce(nextID, {}, {}, held, reserved, flags + ids,
                        DeliveredToAll(delivered, ids - flags, o))
  {
    var delivered' := DeliveredToAll(delivered, ids - flags, o);
    forall id | 1 <= id < nextID ensures |OutcomesIn(delivered', id)| == 1 {
      assert id in ids - flags ==> OutcomesIn(delivered', id) == OutcomesIn(delivered, id) + [o];
      assert id !in ids - flags ==> OutcomesIn(delivered', id) == OutcomesIn(delivered, id);
    }
  }

  // ---- nobody is forgotten --------------------------------------------------

  lemma NoneLostStart(active: map<ID, CallbackData>, outstanding: map<ID, CallbackData>, queued: set<ID>,
                      cb: CallbackData)
    requires NoneLost(active, outstanding, queued, None) && cb.id !in outstanding && cb.id !in queued
    ensures NoneLost(active[cb.id := cb], outstanding, queued, Some(cb))
  {
  }

  lemma NoneLostDequeue(active: map<ID, CallbackData>, outstanding: map<ID, CallbackData>, queued: set<ID>,
                        cb: CallbackData)
    requires NoneLost(active, outstanding, queued, None) && cb.id in queued && cb.kind.Gated?
    ensures NoneLost(active, outstanding, queued - {cb.id}, Some(cb))
  {
  }

  lemma NoneLostEnqueue(active: map<ID, CallbackData>, outstanding: map<ID, CallbackData>, queued: set<ID>,
                        cb: CallbackData)
    requires NoneLost(active, outstanding, queued, Some(cb)) && cb.kind.Gated?
    ensures NoneLost(active, outstanding, queued + {cb.id}, None)
  {
  }

  lemma NoneLostAccept(active: map<ID, CallbackData>, outstanding: map<ID, CallbackData>, queued: set<ID>,
                       cb: CallbackData)
    requires NoneLost(active, outstanding, queued, Some(cb))
    ensures NoneLost(active, outstanding[cb.id := cb], queued, None)
  {
  }

  lemma NoneLostDrop(active: map<ID, CallbackData>, outstanding: map<ID, CallbackData>, queued: set<ID>,
                     hand: Option<CallbackData>, id: ID)
    requires NoneLost(active, outstanding, queued, hand) && (hand.Some? ==> hand.value.id == id)
    ensures NoneLost(active - {id}, outstanding, queued, None)
    ensures NoneLost(active - {id}, outstanding - {id}, queued, None)
  {
  }

  // ---- retained pointers ----------------------------------------------------

  lemma RetainsUp(nextID: ID, held: set<ID>, abandoned: set<ID>, retains: map<ID, int>)
    requires RetainsMatch(nextID, held, abandoned, retains) && 1 <= nextID
    ensures RetainsMatch(nextID + 1, held + {nextID}, abandoned, retains[nextID := RetainsIn(retains, nextID) + 1])
  {
  }

  lemma RetainsDown(nextID: ID, held: set<ID>, abandoned: set<ID>, retains: map<ID, int>, id: ID)
    requires RetainsMatch(nextID, held, abandoned, retains) && id in held
    ensures RetainsMatch(nextID, held - {id}, abandoned, retains[id := RetainsIn(retains, id) - 1])
  {
  }

  lemma RetainsAbandon(nextID: ID, held: set<ID>, abandoned: set<ID>, retains: map<ID, int>, lost: set<ID>)
    requires RetainsMatch(nextID, held, abandoned, retains) && lost <= held
    ensures RetainsMatch(nextID, held - lost, abandoned + lost, retains)
  {
  }

  // ---- buffers --------------------------------------------------------------

  lemma BuffersStart(nextID: ID, buffers: map<ID, Buffer>, outstanding: map<ID, CallbackData>, abandoned: set<ID>,
                     queued: set<ID>, cb: CallbackData)
    requires BuffersMatch(nextID, buffers, outstanding, abandoned, queued, None)
    requires cb.id == nextID && 1 <= nextID && nextID !in queued && nextID !in outstanding && nextID !in abandoned
    ensures OwnsBuffer(cb.kind) ==>
              BuffersMatch(nextID + 1, buffers[cb.id := Buffer(cb.kind.op.WriteOwned?, [], Option.None)],
                           outstanding, abandoned, queued, Some(cb))
    ensures !OwnsBuffer(cb.kind) ==> BuffersMatch(nextID + 1, buffers, outstanding, abandoned, queued, Some(cb))
  {
  }

  lemma BuffersDequeue(nextID: ID, buffers: map<ID, Buffer>, outstanding: map<ID, CallbackData>, abandoned: set<ID>,
                       queued: set<ID>, cb: CallbackData)
    requires BuffersMatch(nextID, buffers, outstanding, abandoned, queued, None) && cb.id in queued && cb.kind.Gated?
    ensures BuffersMatch(nextID, buffers, outstanding, abandoned, queued - {cb.id}, Some(cb))
  {
  }

  lemma BuffersEnqueue(nextID: ID, buffers: map<ID, Buffer>, outstanding: map<ID, CallbackData>, abandoned: set<ID>,
                       queued: set<ID>, cb: CallbackData)
    requires BuffersMatch(nextID, buffers, outstanding, abandoned, queued, Some(cb)) && cb.kind.Gated?
    ensures BuffersMatch(nextID, buffers, outstanding, abandoned, queued + {cb.id}, None)
  {
  }

  lemma BuffersAccept(nextID: ID, buffers: map<ID, Buffer>, outstanding: map<ID, CallbackData>, abandoned: set<ID>,
                      queued: set<ID>, cb: CallbackData)
    requires BuffersMatch(nextID, buffers, outstanding, abandoned, queued, Some(cb))
    ensures BuffersMatch(nextID, buffers, outstanding[cb.id := cb], abandoned, queued, None)
  {
  }

  lemma BuffersEnd(nextID: ID, buffers: map<ID, Buffer>, outstanding: map<ID, CallbackData>, abandoned: set<ID>,
                   queued: set<ID>, hand: Option<CallbackData>, id: ID, status: int)
    requires BuffersMatch(nextID, buffers, outstanding, abandoned, queued, hand)
    requires (hand.Some? && hand.value.id == id) || (hand.None? && id in outstanding)
    requires id !in abandoned
    ensures BuffersMatch(nextID, EndedBuffers(buffers, id, status), outstanding - {id}, abandoned, queued, None)
    ensures id !in outstanding ==>
              BuffersMatch(nextID, EndedBuffers(buffers, id, status), outstanding, abandoned, queued, None)
  {
    assert id !in outstanding ==> outstanding - {id} == outstanding;
  }

  lemma BuffersDrop(nextID: ID, buffers: map<ID, Buffer>, outstanding: map<ID, CallbackData>, abandoned: set<ID>,
                    queued: set<ID>, cb: CallbackData)
    requires BuffersMatch(nextID, buffers, outstanding, abandoned, queued, Some(cb)) && !OwnsBuffer(cb.kind)
    ensures BuffersMatch(nextID, buffers, outstanding, abandoned, queued, None)
  {
  }

  // `lost` can hold queued IDs as well: a queued operation owns no buffer.
  lemma BuffersAbandon(nextID: ID, buffers: map<ID, Buffer>, outstanding: map<ID, CallbackData>, abandoned: set<ID>,
                       queued: set<ID>, queued': set<ID>, lost: set<ID>)
    requires BuffersMatch(nextID, buffers, outstanding, abandoned, queued, None)
    requires queued' <= queued && lost <= outstanding.Keys + queued
    ensures BuffersMatch(nextID, buffers, outstanding - lost, abandoned + lost, queued', None)
  {
  }

  // ---- slots ----------------------------------------------------------------

  lemma SlotsAccept(c: Category, k: Control, inFlight: int, uncharged: int, context: bool,
                    outstanding: map<ID, CallbackData>, cb: CallbackData)
    requires SlotsFit(c, k, inFlight, uncharged, context, outstanding) && cb.id !in outstanding
    requires cb.kind.Gated? && cb.category == c ==> inFlight < DEFAULT_MAX_DEPTH
    ensures SlotsFit(c, k, inFlight + if Metered(cb.kind) && cb.category == c then 1 else 0, uncharged, context,
                     outstanding[cb.id := cb])
  {
    CountsAfterAccept(outstanding, cb, c, false);
    CountsAfterAccept(outstanding, cb, c, true);
  }

  lemma SlotsAnswer(c: Category, k: Control, k': Control, inFlight: int, uncharged: int, context: bool,
                    outstanding: map<ID, CallbackData>, id: ID)
    requires SlotsFit(c, k, inFlight, uncharged, context, outstanding) && ControllerInRange(k')
    requires id in outstanding && outstanding[id].id == id
    ensures outstanding[id].category != c ==> SlotsFit(c, k, inFlight, uncharged, context, outstanding - {id})
    ensures outstanding[id].category == c ==>
              SlotsFit(c, k', Max(0, inFlight - 1), uncharged + if Metered(outstanding[id].kind) then 0 else 1, context,
                       outstanding - {id})
  {
    CountsAfterAnswer(outstanding, id, c, false);
    CountsAfterAnswer(outstanding, id, c, true);
  }

  lemma SlotsAbandonExports(c: Category, k: Control, inFlight: int, uncharged: int, context: bool,
                            outstanding: map<ID, CallbackData>)
    requires SlotsFit(c, k, inFlight, uncharged, context, outstanding)
    ensures SlotsFit(c, k, inFlight, uncharged, context, outstanding - OnContext(outstanding, true))
  {
    CountsWithoutExports(outstanding, c, false);
    CountsWithoutExports(outstanding, c, true);
  }

  // ---- handles --------------------------------------------------------------

  lemma HandlesCall(trace: seq<LibCall>, handles: map<ID, Nfsfh>, openings: map<ID, Opening>, reopened: bool,
                    nextHandleID: ID, call: LibCall)
    requires HandlesMatch(true, trace, handles, openings, reopened, nextHandleID)
    requires call.Use? || call.Close? ==> call.handleID in handles && call.fh == handles[call.handleID]
    ensures call.Use? || call.Issue? ==> HandlesMatch(true, trace + [call], handles, openings, reopened, nextHandleID)
    ensures call.Close? ==>
              HandlesMatch(true, trace + [call], handles - {call.handleID}, openings, reopened, nextHandleID)
    ensures call.Destroy? ==> HandlesMatch(false, trace + [call], handles, openings, reopened, nextHandleID)
  {
    hide FilesApart;
    if !reopened {
      ApartAfterCall(trace, handles, openings, call);
    }
  }

  lemma ApartAfterCall(trace: seq<LibCall>, handles: map<ID, Nfsfh>, openings: map<ID, Opening>, call: LibCall)
    requires FilesApart(trace, handles, openings)
    requires forall h :: h in handles ==> h in openings && openings[h].fh == handles[h]
    requires forall h :: h in openings ==> openings[h].at <= |trace|
    requires call.Use? || call.Close? ==> call.handleID in handles && call.fh == handles[call.handleID]
    ensures !call.Close? ==> FilesApart(trace + [call], handles, openings)
    ensures call.Close? ==> FilesApart(trace + [call], handles - {call.handleID}, openings)
  {
  }

  lemma HandlesOpen(context: bool, trace: seq<LibCall>, handles: map<ID, Nfsfh>, openings: map<ID, Opening>,
                    reopened: bool, nextHandleID: ID, fh: Nfsfh)
    requires HandlesMatch(context, trace, handles, openings, reopened, nextHandleID)
    ensures HandlesMatch(context, trace, handles[nextHandleID := fh],
                         openings[nextHandleID := Opening(fh, |trace|)],
                         reopened || fh in handles.Values, nextHandleID + 1)
  {
    hide FilesApart;
    if !reopened && fh !in handles.Values {
      ApartAfterOpen(trace, handles, openings, nextHandleID, fh);
    }
  }

  lemma ApartAfterOpen(trace: seq<LibCall>, handles: map<ID, Nfsfh>, openings: map<ID, Opening>, h: ID, fh: Nfsfh)
    requires FilesApart(trace, handles, openings) && h !in openings && h !in handles && fh !in handles.Values
    requires forall i :: 0 <= i < |trace| && (trace[i].Close? || trace[i].Use?) ==> trace[i].handleID in openings
    ensures FilesApart(trace, handles[h := fh], openings[h := Opening(fh, |trace|)])
  {
    assert forall h' :: h' in handles ==> handles[h'] in handles.Values;
  }

  lemma HandlesForget(context: bool, trace: seq<LibCall>, handles: map<ID, Nfsfh>, openings: map<ID, Opening>,
                      reopened: bool, nextHandleID: ID, gone: set<ID>)
    requires HandlesMatch(context, trace, handles, openings, reopened, nextHandleID)
    ensures HandlesMatch(context, trace, handles - gone, openings, reopened, nextHandleID)
  {
  }
}
