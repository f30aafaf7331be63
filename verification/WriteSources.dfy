/**
 The write sources of the event loop: one on the mounted context's socket and one on the
 export query's. A dispatch source is created suspended, must not be resumed more often than
 it was suspended, and must not be cancelled or released while suspended. The loop cannot ask a
 source for its count; it keeps one flag per source instead. The preconditions of
 `DispatchSource` are the rules; that every call site meets them is the balance.
 */
module WriteSources {
  import opened Common

  class DispatchSource {
    const fd: int
    ghost var suspensions: nat
    ghost var cancelled: bool

    constructor (fd: int)
      ensures this.fd == fd && suspensions == 1 && !cancelled
    {
      this.fd := fd;
      suspensions, cancelled := 1, false;
    }

    method Resume()
      requires suspensions > 0 && !cancelled
      modifies this
      ensures suspensions == old(suspensions) - 1 && !cancelled
    {
      suspensions := suspensions - 1;
    }

    /** A second suspension is legal for dispatch, but no single flag could undo it. */
    method Suspend()
      requires suspensions == 0 && !cancelled
      modifies this
      ensures suspensions == 1 && !cancelled
    {
      suspensions := suspensions + 1;
    }

    method Cancel()
      requires suspensions == 0 && !cancelled
      modifies this
      ensures suspensions == 0 && cancelled
    {
      cancelled := true;
    }
  }

  // ---- which sources are live -----------------------------------------------------------

  /** What decides about the sources; `main` and `rpc` are the flags of the live ones. */
  datatype Live = Live(
    context: bool,  // there is a mounted context
    query: bool,    // there is an export query's context
    waiting: bool,  // some continuation is registered
    timer: bool,    // the timeout timer is there
    timed: bool,    // timeouts are enabled
    main: Option<bool>,
    rpc: Option<bool>)

  function Idle(timed: bool): Live {
    Live(true, false, false, false, timed, None, None)
  }

  /** What can happen to the sources; the arguments are what libnfs, the system and the callers do. */
  datatype SourceStep =
    | Mount(accepted: bool, fd: int, ino: int, pollOut: bool)
    | Query(accepted: bool, fd: int)
    | Register(waiting: bool)
    | Update(pollOut: bool)
    | MainEvent(failed: bool, newFd: int, newIno: int, pollOut: bool)
    | RpcEvent(done: bool, newFd: int, pollOut: bool) // `done` also stands for a failed service call
    | TimerFires(queryExpired: bool)
    | Shutdown

  function Next(l: Live, step: SourceStep): Live {
    match step
    case Mount(accepted, fd, ino, pollOut) =>
      if !l.context || !accepted then l
      else l.(waiting := true, timer := l.timed, main := if fd >= 0 then Some(!pollOut) else l.main)
    case Query(accepted, fd) =>
      if !l.context || l.query || !accepted then l
      else l.(query := true, waiting := true, timer := l.timed, rpc := if fd >= 0 then Some(false) else l.rpc)
    case Register(waiting) => if l.context then l.(waiting := waiting) else l
    case Update(pollOut) => if l.context && l.main.Some? then l.(main := Some(!pollOut)) else l
    case MainEvent(failed, newFd, newIno, pollOut) =>
      if !l.context || l.main.None? then l
      else if failed then l.(context := false, waiting := false, timer := false, main := None)
      else l.(main := Some(!pollOut))
    case RpcEvent(done, newFd, pollOut) =>
      if !l.query || l.rpc.None? then l
      else if done then l.(query := false, rpc := None)
      else l.(rpc := Some(!pollOut))
    case TimerFires(queryExpired) =>
      if l.timer && l.query && queryExpired then l.(query := false, rpc := None) else l
    case Shutdown =>
      if !l.context && !l.waiting then l
      else l.(context := false, query := false, waiting := false, timer := false, main := None, rpc := None)
  }

  function RunLive(l: Live, steps: seq<SourceStep>): Live
    decreases |steps|
  {
    if steps == [] then l else RunLive(Next(l, steps[0]), steps[1..])
  }

  class EventSources {
    const timeout: int
    var context: bool
    var waiting: bool
    var timeoutTimer: bool
    var writeSource: DispatchSource?
    var writeSourceSuspended: bool
    var currentFd: int
    var currentSocketIno: int
    var rpcExportsCtx: bool
    var rpcExportsWriteSource: DispatchSource?
    var rpcExportsWriteSuspended: bool
    ghost var created: set<DispatchSource> // every write source ever made

    /** A live source's true count is what its flag says. */
    ghost predicate Tracks(source: DispatchSource?, flag: bool)
      reads source
    {
      source != null ==> !source.cancelled && source.suspensions == if flag then 1 else 0
    }

    ghost predicate Valid()
      reads this, created
    {
      && (writeSource != null ==> writeSource in created && writeSource != rpcExportsWriteSource)
      && (rpcExportsWriteSource != null ==> rpcExportsWriteSource in created)
      && Tracks(writeSource, writeSourceSuspended)
      && Tracks(rpcExportsWriteSource, rpcExportsWriteSuspended)
      && (writeSource == null ==> currentFd == -1 && currentSocketIno == 0)
      && (writeSource != null ==> writeSource.fd == currentFd)
      && (forall s :: s in created && s != writeSource && s != rpcExportsWriteSource ==>
          s.cancelled && s.suspensions == 0)
    }

    /** What holds between two steps besides. */
    ghost predicate Settled()
      reads this, created
    {
      && Valid()
      && (writeSource != null ==> context && timeoutTimer == (timeout > 0))
      && (rpcExportsWriteSource != null ==> rpcExportsCtx)
      && (!context ==> !waiting && !timeoutTimer)
      && (timeoutTimer ==> timeout > 0)
    }

    ghost function View(): Live
      reads this
    {
      Live(context, rpcExportsCtx, waiting, timeoutTimer, timeout > 0,
           if writeSource == null then None else Some(writeSourceSuspended),
           if rpcExportsWriteSource == null then None else Some(rpcExportsWriteSuspended))
    }

    /** Every source ever made is cancelled and not suspended. */
    ghost predicate AllRetired()
      reads this, created
    {
      forall s :: s in created ==> s.cancelled && s.suspensions == 0
    }

    constructor (timeout: int)
      ensures Settled() && created == {} && View() == Idle(timeout > 0) && this.timeout == timeout
    {
      this.timeout := timeout;
      context, waiting, timeoutTimer := true, false, false;
      writeSource, writeSourceSuspended := null, true;
      currentFd, currentSocketIno := -1, 0;
      rpcExportsCtx, rpcExportsWriteSource, rpcExportsWriteSuspended := false, null, true;
      created := {};
    }

    // ---- the mounted context ------------------------------------------------------

    method CancelSources()
      requires Valid()
      modifies this, created
      ensures Valid() && created == old(created) && View() == old(View()).(main := None)
      ensures old(writeSource) != null ==> old(writeSource).cancelled && !writeSourceSuspended
      ensures old(writeSource) == null ==> writeSourceSuspended == old(writeSourceSuspended)
      ensures rpcExportsWriteSource == old(rpcExportsWriteSource)
    {
      if writeSource != null {
        if writeSourceSuspended {
          writeSource.Resume();
          writeSourceSuspended := false;
        }
        writeSource.Cancel();
        writeSource := null;
      }
      currentFd, currentSocketIno := -1, 0;
    }

    method StartTimeoutTimer()
      modifies this`timeoutTimer
      ensures timeoutTimer == (old(timeoutTimer) || timeout > 0)
    {
      if !timeoutTimer && timeout > 0 {
        timeoutTimer := true;
      }
    }

    /** The old source is retired and a new one, suspended, takes its place. */
    method SetupSources(fd: int, ino: int)
      requires Valid()
      modifies this, created
      ensures Valid() && writeSource != null && fresh(writeSource) && created == old(created) + {writeSource}
      ensures View() == old(View()).(main := Some(true), timer := old(timeoutTimer) || timeout > 0)
      ensures currentFd == fd && currentSocketIno == ino
      ensures old(writeSource) != null ==> old(writeSource).cancelled
      ensures rpcExportsWriteSource == old(rpcExportsWriteSource)
    {
      CancelSources();
      currentFd, currentSocketIno := fd, ino;
      StartTimeoutTimer();
      var ws := new DispatchSource(fd);
      writeSourceSuspended := true;
      writeSource := ws;
      created := created + {ws};
    }

    /** Afterwards a mounted context's source is active iff libnfs has something to send. */
    method UpdateWriteSource(pollOut: bool)
      requires Valid()
      modifies this, created
      ensures Valid() && created == old(created) && View() == Next(old(View()), Update(pollOut))
      ensures writeSource == old(writeSource) && rpcExportsWriteSource == old(rpcExportsWriteSource)
      ensures currentFd == old(currentFd) && currentSocketIno == old(currentSocketIno)
      ensures context && writeSource != null ==> (writeSource.suspensions == 0 <==> pollOut)
    {
      if !context || writeSource == null {
        return;
      }
      if pollOut {
        if writeSourceSuspended {
          writeSource.Resume();
          writeSourceSuspended := false;
        }
      } else {
        if !writeSourceSuspended {
          writeSource.Suspend();
          writeSourceSuspended := true;
        }
      }
    }

    method MountExport(accepted: bool, fd: int, ino: int, pollOut: bool)
      requires Settled()
      modifies this, created
      ensures Settled() && fresh(created - old(created))
              && View() == Next(old(View()), Mount(accepted, fd, ino, pollOut))
      ensures old(context) && accepted && fd >= 0 ==>
                writeSource != null && writeSource.fd == fd && (writeSource.suspensions == 0 <==> pollOut)
    {
      if !context || !accepted {
        return;
      }
      waiting := true;
      if fd >= 0 {
        SetupSources(fd, ino);
        UpdateWriteSource(pollOut);
      } else {
        StartTimeoutTimer();
      }
    }

    /** The sources' part of `shutdownWithError`: the export query is left alone. */
    method StopWithError()
      requires Valid()
      modifies this, created
      ensures Valid() && created == old(created) && rpcExportsWriteSource == old(rpcExportsWriteSource)
      ensures View() == old(View()).(context := false, waiting := false, timer := false, main := None)
    {
      CancelSources();
      timeoutTimer := false;
      waiting, context := false, false;
    }

    /** The sources are made anew when libnfs has moved to another socket, or may have. */
    method Rewatch(newFd: int, newIno: int)
      requires Settled() && context && writeSource != null
      modifies this, created
      ensures Settled() && writeSource != null && fresh(created - old(created))
      ensures View() == old(View()).(main := Some(writeSourceSuspended)) && context == old(context)
      ensures newFd >= 0 ==> writeSource.fd == newFd && currentSocketIno == newIno
      ensures newFd < 0 ==> writeSource == old(writeSource)
      ensures newFd >= 0 ==>
                (fresh(writeSource) <==>
                   newFd != old(currentFd) || old(currentSocketIno) == 0 || newIno != old(currentSocketIno))
    {
      if newFd >= 0 {
        if newFd != currentFd {
          SetupSources(newFd, newIno);
        } else if currentSocketIno == 0 || newIno != currentSocketIno {
          SetupSources(newFd, newIno);
        }
      }
    }

    /**
     An event of the mounted context's own source. Whenever libnfs reports a socket the source watches that
     socket afterwards, and it is a new one iff the descriptor or a known inode changed or the inode is unknown.
     */
    method HandleEvent(failed: bool, newFd: int, newIno: int, pollOut: bool)
      requires Settled()
      modifies this, created
      ensures Settled() && fresh(created - old(created))
      ensures View() == Next(old(View()), MainEvent(failed, newFd, newIno, pollOut))
      ensures old(context) && old(writeSource) != null && !failed && newFd >= 0 ==>
                && writeSource != null && writeSource.fd == newFd && currentSocketIno == newIno
                && (fresh(writeSource) <==>
                      newFd != old(currentFd) || old(currentSocketIno) == 0 || newIno != old(currentSocketIno))
      ensures !failed && newFd < 0 ==> writeSource == old(writeSource)
      ensures old(context) && old(writeSource) != null && !failed ==>
                writeSource != null && (writeSource.suspensions == 0 <==> pollOut)
    {
      if !context || writeSource == null {
        return;
      }
      if failed {
        StopWithError();
        return;
      }
      Rewatch(newFd, newIno);
      UpdateWriteSource(pollOut);
    }

    // ---- the export query -----------------------------------------------------------

    method CancelRpcExportsSources()
      requires Valid()
      modifies this, created
      ensures Valid() && created == old(created) && View() == old(View()).(rpc := None) && rpcExportsWriteSuspended
      ensures old(rpcExportsWriteSource) != null ==> old(rpcExportsWriteSource).cancelled
      ensures writeSource == old(writeSource)
    {
      if rpcExportsWriteSource != null {
        if rpcExportsWriteSuspended {
          rpcExportsWriteSource.Resume();
        }
        rpcExportsWriteSource.Cancel();
      }
      rpcExportsWriteSource := null;
      rpcExportsWriteSuspended := true;
    }

    method CleanUpRpcExports()
      requires Valid()
      modifies this, created
      ensures Valid() && created == old(created) && View() == old(View()).(rpc := None, query := false)
      ensures writeSource == old(writeSource)
    {
      CancelRpcExportsSources();
      rpcExportsCtx := false;
    }

    /** Unlike the mounted context's, this source starts active: the query has to connect first. */
    method SetupRpcExportsSources(fd: int)
      requires Valid()
      modifies this, created
      ensures Valid() && rpcExportsWriteSource != null && fresh(rpcExportsWriteSource)
      ensures created == old(created) + {rpcExportsWriteSource} && rpcExportsWriteSource.fd == fd
      ensures View() == old(View()).(rpc := Some(false))
      ensures old(rpcExportsWriteSource) != null ==> old(rpcExportsWriteSource).cancelled
      ensures writeSource == old(writeSource)
    {
      CancelRpcExportsSources();
      var ws := new DispatchSource(fd);
      ws.Resume();
      rpcExportsWriteSuspended := false;
      rpcExportsWriteSource := ws;
      created := created + {ws};
    }

    method UpdateRpcExportsWriteSource(pollOut: bool)
      requires Valid()
      modifies this, created
      ensures Valid() && created == old(created) && rpcExportsWriteSource == old(rpcExportsWriteSource)
      ensures View() == if rpcExportsCtx && rpcExportsWriteSource != null then old(View()).(rpc := Some(!pollOut))
                        else old(View())
      ensures writeSource == old(writeSource)
      ensures rpcExportsCtx && rpcExportsWriteSource != null ==>
                (rpcExportsWriteSource.suspensions == 0 <==> pollOut)
    {
      if !rpcExportsCtx || rpcExportsWriteSource == null {
        return;
      }
      if pollOut {
        if rpcExportsWriteSuspended {
          rpcExportsWriteSource.Resume();
          rpcExportsWriteSuspended := false;
        }
      } else {
        if !rpcExportsWriteSuspended {
          rpcExportsWriteSource.Suspend();
          rpcExportsWriteSuspended := true;
        }
      }
    }

    /** A query whose call is rejected is cleaned up at once. */
    method GetExports(accepted: bool, fd: int)
      requires Settled()
      modifies this, created
      ensures Settled() && fresh(created - old(created)) && View() == Next(old(View()), Query(accepted, fd))
      ensures old(context) && !old(rpcExportsCtx) && accepted && fd >= 0 ==>
                && rpcExportsWriteSource != null && rpcExportsWriteSource.fd == fd
                && rpcExportsWriteSource.suspensions == 0
    {
      if !context || rpcExportsCtx {
        return;
      }
      rpcExportsCtx := true;
      if !accepted {
        CleanUpRpcExports();
        return;
      }
      waiting := true;
      if fd >= 0 {
        SetupRpcExportsSources(fd);
      }
      StartTimeoutTimer();
    }

    /** An event of the query's own source. */
    method HandleRpcEvent(done: bool, newFd: int, pollOut: bool)
      requires Settled()
      modifies this, created
      ensures Settled() && fresh(created - old(created)) && View() == Next(old(View()), RpcEvent(done, newFd, pollOut))
      ensures old(rpcExportsWriteSource) != null && !done && newFd >= 0 ==>
                rpcExportsWriteSource != null && fresh(rpcExportsWriteSource) && rpcExportsWriteSource.fd == newFd
      ensures old(rpcExportsCtx) && old(rpcExportsWriteSource) != null && !done ==>
                rpcExportsWriteSource != null && (rpcExportsWriteSource.suspensions == 0 <==> pollOut)
    {
      if !rpcExportsCtx || rpcExportsWriteSource == null {
        return;
      }
      if done {
        CleanUpRpcExports();
        return;
      }
      if newFd >= 0 {
        SetupRpcExportsSources(newFd);
      }
      UpdateRpcExportsWriteSource(pollOut);
    }

    // ---- timer and shutdown -----------------------------------------------------------

    /** `queryExpired` is whether the query's continuation is no longer registered after the scan. */
    method ScanForTimeouts(queryExpired: bool)
      requires Settled()
      modifies this, created
      ensures Settled() && created == old(created) && View() == Next(old(View()), TimerFires(queryExpired))
    {
      if timeoutTimer && rpcExportsCtx && queryExpired {
        CleanUpRpcExports();
      }
    }

    /** The sources' part of `performShutdown`, with its guard. */
    method PerformShutdown()
      requires Settled()
      modifies this, created
      ensures Settled() && created == old(created) && View() == Next(old(View()), Shutdown)
    {
      if !context && !waiting {
        return;
      }
      CancelSources();
      CleanUpRpcExports();
      timeoutTimer := false;
      waiting, context := false, false;
    }

    // ---- whole runs -------------------------------------------------------------------

    method Perform(step: SourceStep)
      requires Settled()
      modifies this, created
      ensures Settled() && fresh(created - old(created)) && View() == Next(old(View()), step)
    {
      match step
      case Mount(accepted, fd, ino, pollOut) => MountExport(accepted, fd, ino, pollOut);
      case Query(accepted, fd) => GetExports(accepted, fd);
      case Register(registered) => waiting := if context then registered else waiting;
      case Update(pollOut) => UpdateWriteSource(pollOut);
      case MainEvent(failed, newFd, newIno, pollOut) => HandleEvent(failed, newFd, newIno, pollOut);
      case RpcEvent(done, newFd, pollOut) => HandleRpcEvent(done, newFd, pollOut);
      case TimerFires(queryExpired) => ScanForTimeouts(queryExpired);
      case Shutdown => PerformShutdown();
    }

    lemma RetiredIff()
      requires Valid()
      ensures AllRetired() <==> NoneLive(View())
    {
    }
  }

  predicate NoneLive(l: Live) {
    l.main.None? && l.rpc.None?
  }

  /**
   Any sequence of steps: no source is misused on the way, and every source ever created is cancelled with count zero
   iff the run leaves none live.
   */
  method RunSources(timeout: int, steps: seq<SourceStep>) returns (sources: EventSources)
    ensures fresh(sources) && sources.Settled() && sources.View() == RunLive(Idle(timeout > 0), steps)
    ensures sources.AllRetired() <==> NoneLive(RunLive(Idle(timeout > 0), steps))
  {
    sources := new EventSources(timeout);
    assert steps[..0] == [];
    for i := 0 to |steps|
      invariant sources.Settled() && fresh(sources) && fresh(sources.created)
      invariant sources.View() == RunLive(Idle(timeout > 0), steps[..i])
    {
      sources.Perform(steps[i]);
      RunLiveAppend(Idle(timeout > 0), steps[..i], steps[i]);
      assert steps[..i + 1] == steps[..i] + [steps[i]];
    }
    assert steps[..|steps|] == steps;
    sources.RetiredIff();
  }

  lemma {:induction false} RunLiveAppend(l: Live, steps: seq<SourceStep>, last: SourceStep)
    ensures RunLive(l, steps + [last]) == Next(RunLive(l, steps), last)
    decreases |steps|
  {
    if steps == [] {
      assert ([] + [last])[1..] == [];
    } else {
      assert (steps + [last])[1..] == steps[1..] + [last];
      RunLiveAppend(Next(l, steps[0]), steps[1..], last);
    }
  }

  // ---- which runs end with every source cancelled -----------------------------------------

  /** What every run keeps. */
  predicate Coherent(l: Live) {
    && (l.main.Some? ==> l.context)
    && (l.rpc.Some? ==> l.query)
    && (!l.context ==> !l.waiting && !l.timer)
  }

  lemma {:induction false} RunCoherent(l: Live, steps: seq<SourceStep>)
    requires Coherent(l)
    ensures Coherent(RunLive(l, steps))
    decreases |steps|
  {
    if steps != [] {
      RunCoherent(Next(l, steps[0]), steps[1..]);
    }
  }

  predicate EndsQuery(step: SourceStep) {
    step.RpcEvent? && step.done
  }

  /** Without a connection nothing but an event of its own ends a query's source; in particular no shutdown does. */
  lemma {:induction false} QuerySourceStays(l: Live, later: seq<SourceStep>)
    requires Coherent(l) && !l.context
    ensures RunLive(l, later).main.None?
    ensures RunLive(l, later).rpc.Some? <==> l.rpc.Some? && forall i :: 0 <= i < |later| ==> !EndsQuery(later[i])
    decreases |later|
  {
    if later != [] {
      QuerySourceStays(Next(l, later[0]), later[1..]);
      assert forall i :: 1 <= i < |later| ==> later[i] == later[1..][i - 1];
    }
  }

  /**
   The connection ends with a shutdown or with a failed service call. However the run goes on, in the end every source
   is cancelled iff it was a shutdown, or no query had a live source, or an event of the query's own ended it later.
   */
  lemma AllCancelledIff(timed: bool, steps: seq<SourceStep>, last: SourceStep, later: seq<SourceStep>)
    requires var l := RunLive(Idle(timed), steps); l.context && !Next(l, last).context
    ensures var l := RunLive(Idle(timed), steps);
            && (last.Shutdown? || (last.MainEvent? && last.failed))
            && (NoneLive(RunLive(Next(l, last), later)) <==>
                  last.Shutdown? || l.rpc.None? || exists i :: 0 <= i < |later| && EndsQuery(later[i]))
  {
    var l := RunLive(Idle(timed), steps);
    RunCoherent(Idle(timed), steps);
    QuerySourceStays(Next(l, last), later);
  }

  /** A mount, a query whose source is suspended, a failed service call, a shutdown: the source stays, suspended,
      with no timer left. */
  lemma ShutdownLeavesQuerySource(timed: bool)
    ensures RunLive(Idle(timed), [Mount(true, 3, 1, false), Query(true, 4), RpcEvent(false, 4, false),
                                  MainEvent(true, -1, 0, false), Shutdown])
         == Live(false, true, false, false, timed, None, Some(true))
  {
    var a, b, c := Mount(true, 3, 1, false), Query(true, 4), RpcEvent(false, 4, false);
    var d, e := MainEvent(true, -1, 0, false), Shutdown;
    assert [a, b, c, d, e][1..] == [b, c, d, e];
    assert [b, c, d, e][1..] == [c, d, e];
    assert [c, d, e][1..] == [d, e];
    assert [d, e][1..] == [e];
    assert [e][1..] == [];
  }
}
