/**
 What every step of the event loop keeps.

 Between two queue steps the parameters `detached` and `hand` are empty. Inside a step
 `detached` holds the continuations that are no longer registered but not resumed yet (a
 callback resumes its caller last, a shutdown too), and `hand` the one CallbackData whose
 retained pointer is held by the running code rather than by the queue or by libnfs.
 */
module EventLoopInvariants {
  import opened Common
  import opened Pipeline
  import opened EventLoopModel

  function HandIDs(hand: Option<CallbackData>): set<ID> {
    if hand.Some? then {hand.value.id} else {}
  }

  /** The CallbackData objects somebody holds a retained pointer to. */
  function HeldIDs(s: State, hand: Option<CallbackData>): set<ID> {
    s.outstanding.Keys + PendingIDs(s.pending) + HandIDs(hand)
  }

  // Each part below is stated over the fields it depends on, so that a step that leaves them alone keeps it.

  ghost predicate WellFormed(nextID: ID, active: set<ID>, outstanding: map<ID, CallbackData>,
                             pending: seq<PendingOperation>, context: bool, hand: Option<CallbackData>) {
    && 1 <= nextID
    && (forall id :: id in active ==> 1 <= id < nextID)
    && (forall id :: id in outstanding ==> 1 <= id < nextID && outstanding[id].id == id)
    && (forall id :: id in PendingIDs(pending) ==> 1 <= id < nextID && id !in outstanding)
    && (forall i :: 0 <= i < |pending| ==> pending[i].cb.kind.Gated?)
    && (forall i, j :: 0 <= i < j < |pending| ==> pending[i].cb.id != pending[j].cb.id)
    && (!context ==> pending == [])
    && (hand.Some? ==>
          1 <= hand.value.id < nextID && hand.value.id !in outstanding && hand.value.id !in PendingIDs(pending))
  }

  /** Exactly-once resumption; `reserved` are the held pointers that libnfs does not have. */
  ghost predicate ResumedOnce(nextID: ID, active: set<ID>, detached: set<ID>, held: set<ID>, reserved: set<ID>,
                              hasResumed: set<ID>, delivered: map<ID, seq<Outcome>>) {
    && (forall id :: id in detached ==> id !in active && id !in reserved && 1 <= id < nextID)
    && (forall id :: id in active || id in detached ==> id !in hasResumed)
    && (forall id :: id in hasResumed ==> 1 <= id < nextID)
    && (forall id :: id in delivered ==> 1 <= id < nextID)
    && (forall id :: 1 <= id < nextID ==>
          |OutcomesIn(delivered, id)| == if id in active || id in detached then 0 else 1)
    && (forall id :: id in held ==> id in active || id in detached || id in hasResumed)
  }

  /** A registered continuation is waiting for something that can still resume it. */
  ghost predicate NoneLost(active: map<ID, CallbackData>, outstanding: map<ID, CallbackData>,
                           queued: set<ID>, hand: Option<CallbackData>) {
    && (forall id :: id in active && !active[id].kind.Exports? ==>
          id in outstanding || id in queued || id in HandIDs(hand))
    && (forall id :: id in active && id in outstanding ==> active[id].kind == outstanding[id].kind)
    && (forall id :: id in active && id in queued ==> active[id].kind.Gated?)
    && (hand.Some? && hand.value.id in active ==> active[hand.value.id].kind == hand.value.kind)
  }

  /** Retain balance. */
  ghost predicate RetainsMatch(nextID: ID, held: set<ID>, abandoned: set<ID>, retains: map<ID, int>) {
    && (forall id :: id in held ==> 1 <= id < nextID && id !in abandoned)
    && (forall id :: id in abandoned ==> 1 <= id < nextID)
    && (forall id :: id in retains ==> 1 <= id < nextID)
    && (forall id :: RetainsIn(retains, id) == if id in held || id in abandoned then 1 else 0)
  }

  /** Buffers the loop allocated: nothing has happened to them while their operation is open, and exactly what
      its exit says afterwards. */
  ghost predicate BuffersMatch(nextID: ID, buffers: map<ID, Buffer>, outstanding: map<ID, CallbackData>,
                               abandoned: set<ID>, queued: set<ID>, hand: Option<CallbackData>) {
    && (forall id :: id in buffers ==> 1 <= id < nextID && id !in queued)
    && (forall id :: id in buffers ==>
          (buffers[id].exit.None? <==> id in outstanding || id in abandoned || id in HandIDs(hand)))
    && (forall id :: id in buffers ==>
          buffers[id].fates
          == if buffers[id].exit.None? then [] else FatesAt(buffers[id].write, buffers[id].exit.value))
    && (forall id :: id in outstanding && OwnsBuffer(outstanding[id].kind) ==> id in buffers)
    && (hand.Some? ==> (hand.value.id in buffers <==> OwnsBuffer(hand.value.kind)))
  }

  /** No call on a closed handle ID, none after the context is gone. */
  ghost predicate TraceSafe(t: seq<LibCall>) {
    && (forall i, j :: 0 <= i < j < |t| && t[i].Close? && (t[j].Close? || t[j].Use?) ==> t[j].handleID != t[i].handleID)
    && (forall i :: 0 <= i < |t| - 1 ==> t[i] != Destroy)
  }

  /** Registered files are distinct, and a file with a handle that was opened before the file was closed is neither
      registered nor used after the close. */
  ghost predicate FilesApart(trace: seq<LibCall>, handles: map<ID, Nfsfh>, openings: map<ID, Opening>) {
    && (forall h, h' :: h in handles && h' in handles && h != h' ==> handles[h] != handles[h'])
    && (forall i, h ::
          (0 <= i < |trace| && trace[i].Close? && h in handles && handles[h] == trace[i].fh && h in openings) ==>
            openings[h].at > i)
    && (forall i, j ::
          (0 <= i < j < |trace| && trace[i].Close? && (trace[j].Close? || trace[j].Use?) && trace[j].fh == trace[i].fh
           && trace[j].handleID in openings) ==>
            openings[trace[j].handleID].at > i)
  }

  ghost predicate HandlesMatch(context: bool, trace: seq<LibCall>, handles: map<ID, Nfsfh>,
                               openings: map<ID, Opening>, reopened: bool, nextHandleID: ID) {
    && TraceSafe(trace)
    && (context <==> Destroy !in trace)
    && 1 <= nextHandleID
    && (forall h :: h in openings ==> 1 <= h < nextHandleID && openings[h].at <= |trace|)
    && (forall h :: h in handles ==> h in openings && openings[h].fh == handles[h])
    && (forall i :: 0 <= i < |trace| && trace[i].Close? ==> trace[i].handleID !in handles)
    && (forall i :: 0 <= i < |trace| && (trace[i].Close? || trace[i].Use?) ==>
          trace[i].handleID in openings && trace[i].fh == openings[trace[i].handleID].fh)
    && (!reopened ==> FilesApart(trace, handles, openings))
  }

  // ---- counting -------------------------------------------------------------

  /** Accepted calls of category `c` that took a slot; with `direct`, only those that skipped the gate. */
  predicate Counts(cb: CallbackData, c: Category, direct: bool) {
    cb.category == c && if direct then cb.kind.Handle? else Metered(cb.kind)
  }

  function Counted(m: map<ID, CallbackData>, c: Category, direct: bool): set<ID> {
    set id | id in m && Counts(m[id], c, direct)
  }

  ghost predicate ControllerInRange(k: Control) {
    InRange(k) && k.minDepth == DEFAULT_MIN_DEPTH && k.maxDepth == DEFAULT_MAX_DEPTH
  }

  /** While the context lives, the count never exceeds the accepted calls that took a slot, falls short of them by
      at most the uncharged completions, and exceeds the cap only by calls that skip the gate. */
  ghost predicate SlotsFit(c: Category, k: Control, inFlight: int, uncharged: int, context: bool,
                           outstanding: map<ID, CallbackData>) {
    && ControllerInRange(k)
    && 0 <= inFlight
    && 0 <= uncharged
    && (context ==>
          && inFlight <= |Counted(outstanding, c, false)| <= inFlight + uncharged
          && inFlight <= DEFAULT_MAX_DEPTH + |Counted(outstanding, c, true)|)
  }

  // ---- the parts, for a state -------------------------------------------------

  ghost predicate Registered(s: State, hand: Option<CallbackData>) {
    WellFormed(s.nextID, s.active.Keys, s.outstanding, s.pending, s.context, hand)
  }

  ghost predicate Once(s: State, detached: set<ID>, hand: Option<CallbackData>) {
    ResumedOnce(s.nextID, s.active.Keys, detached, HeldIDs(s, hand), PendingIDs(s.pending) + HandIDs(hand),
                s.hasResumed, s.delivered)
  }

  ghost predicate Balanced(s: State, hand: Option<CallbackData>) {
    RetainsMatch(s.nextID, HeldIDs(s, hand), s.abandoned, s.retains)
  }

  ghost predicate Links(s: State, hand: Option<CallbackData>) {
    && NoneLost(s.active, s.outstanding, PendingIDs(s.pending), hand)
    && BuffersMatch(s.nextID, s.buffers, s.outstanding, s.abandoned, PendingIDs(s.pending), hand)
  }

  ghost predicate HandlesSafe(s: State) {
    HandlesMatch(s.context, s.trace, s.handles, s.openings, s.reopened, s.nextHandleID)
  }

  ghost predicate Slots(s: State, c: Category) {
    SlotsFit(c, s.controllers.Get(c), s.inFlight.Get(c), s.uncharged.Get(c), s.context, s.outstanding)
  }

  ghost predicate Accounted(s: State) {
    Slots(s, Bulk) && Slots(s, Metadata) && |s.pending| <= MAX_PENDING_OPERATIONS
  }

  ghost predicate Inv(s: State, detached: set<ID>, hand: Option<CallbackData>) {
    && Registered(s, hand)
    && Once(s, detached, hand)
    && Balanced(s, hand)
    && Links(s, hand)
    && HandlesSafe(s)
    && Accounted(s)
  }

  // ---- cardinalities of the counted sets ------------------------------------

  lemma CountsAfterAccept(m: map<ID, CallbackData>, cb: CallbackData, c: Category, direct: bool)
    requires cb.id !in m
    ensures |Counted(m[cb.id := cb], c, direct)| == |Counted(m, c, direct)| + if Counts(cb, c, direct) then 1 else 0
  {
    hide Counts;
    var before, after := Counted(m, c, direct), Counted(m[cb.id := cb], c, direct);
    var added := if Counts(cb, c, direct) then {cb.id} else {};
    forall id ensures id in after <==> id in before || id in added {
    }
    assert after == before + added;
  }

  lemma CountsAfterAnswer(m: map<ID, CallbackData>, id: int, c: Category, direct: bool)
    requires id in m && m[id].id == id
    ensures |Counted(m - {id}, c, direct)| == |Counted(m, c, direct)| - if Counts(m[id], c, direct) then 1 else 0
  {
    assert m == (m - {id})[id := m[id]];
    CountsAfterAccept(m - {id}, m[id], c, direct);
  }

  lemma CountsWithoutExports(m: map<ID, CallbackData>, c: Category, direct: bool)
    ensures Counted(m - OnContext(m, true), c, direct) == Counted(m, c, direct)
  {
    var m' := m - OnContext(m, true);
    forall id ensures id in Counted(m', c, direct) <==> id in Counted(m, c, direct) {
      assert id in m' <==> id in m && !m[id].kind.Exports?;
    }
  }
}
