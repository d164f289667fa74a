/** The auto-reconnect of the stream screen. Every method is one event: a handler on the UI thread, or a
    step of a thread it started. Which event comes next is anyone's choice, as long as it is pending;
    Valid holds after every one of them. */
module Reconnect {
  /** How far the latest NvConnection.start() is. Waiting: for the connection semaphore. Connecting: inside
      startConnection, holding it. FailPosted, LivePosted: it has reported, and the UI thread has not yet heard. */
  datatype StartPhase = Idle | Requesting | Waiting | Connecting | FailPosted | LivePosted

  /** The thread that stops the connection that dropped: still at it, or done and its report posted. */
  datatype DeadStop = NoStop | Stopping | StopPosted

  datatype Event =
    | RequestOver(ok: bool)
    | PermitFree
    | ConnectOver(ok: bool)
    | FailedReleases
    | StopThread
    | DeadStopThread
    | SurfaceReady
    | Terminated(drop: bool, surfaceValid: bool, finishing: bool)
    | DeadStopDone
    | Network
    | AttemptTimer(surfaceValid: bool)
    | TickTimer(withinWindow: bool)
    | Failed(final: bool)
    | Started
    | SurfaceGone
    | Left
    | Watchdog(quiet: bool, heard: bool)

  function Count(b: bool): nat { if b then 1 else 0 }

  class Game {
    const autoReconnect: bool

    // UI thread
    var connected: bool
    var reconnecting: bool
    var deadConnectionStopped: bool
    var reconnectAttemptInFlight: bool
    var displayedFailureDialog: bool
    var attemptedConnection: bool
    var parkingOpen: bool
    /** silenceStartMs is set: the control stream went quiet. */
    var silent: bool
    var reconnectStatusShown: bool

    // timerHandler: how often each callback is queued
    var attemptQueued: nat
    var tickQueued: nat

    // NvConnection and the threads
    var permits: nat
    var start: StartPhase
    var startAborted: bool
    /** The core runs a connection, alive or dead, that has not been stopped. */
    var live: bool
    /** Failed starts that have reported but not yet given the semaphore back. */
    var releasing: nat
    var deadStop: DeadStop
    /** Threads about to call conn.stop(), other than deadStop. */
    var stops: nat

    /** The last start that failed inside startConnection has not given its permit back since. */
    ghost var owed: bool
    /** The stream has been up. */
    ghost var wentLive: bool
    /** It has been left since, or a reconnect ended without bringing it back. */
    ghost var ended: bool

    /** The semaphore's one permit is somewhere: free, with the connection, with a start, or being given back. */
    ghost predicate OnePermit()
      reads this`permits, this`live, this`start, this`releasing, this`owed
    {
      permits + Count(live) + Count(start == Connecting) + releasing == 1 && (owed <==> releasing > 0)
    }

    /** A connection the core runs has exactly one owner, which alone will stop it. */
    ghost predicate OneOwner()
      reads this`connected, this`start, this`deadStop, this`stops, this`live
    {
      && stops <= 1
      && (live <==> connected || start == LivePosted || deadStop == Stopping || stops == 1)
      && !(connected && (start == LivePosted || deadStop == Stopping || stops == 1))
      && !(start == LivePosted && (deadStop == Stopping || stops == 1))
      && !(deadStop == Stopping && stops == 1)
    }

    /** A reconnect never stalls: it is stopping the dead connection, or waiting for the next attempt's
        callback, or an attempt is in flight, and only one of these; and the countdown runs. */
    ghost predicate NoStall()
      reads this`reconnecting, this`tickQueued, this`attemptQueued, this`deadConnectionStopped,
            this`reconnectAttemptInFlight, this`deadStop
    {
      if reconnecting then
        && tickQueued == 1
        && (attemptQueued == if deadConnectionStopped && !reconnectAttemptInFlight then 1 else 0)
        && (reconnectAttemptInFlight ==> deadConnectionStopped)
        && (!deadConnectionStopped <==> deadStop != NoStop)
      else tickQueued == 0 && attemptQueued == 0
    }

    /** How far the stream has come: a start is the first one or a reconnect's attempt, what was left was up. */
    ghost predicate Progress()
      reads this`wentLive, this`ended, this`start, this`reconnectAttemptInFlight, this`attemptedConnection, this`stops
    {
      && (start != Idle ==> attemptedConnection && (reconnectAttemptInFlight || !wentLive))
      && (reconnectAttemptInFlight ==> start != Idle && wentLive)
      && (wentLive ==> attemptedConnection)
      && (ended ==> wentLive)
      && (stops > 0 ==> ended)
    }

    ghost predicate Modes()
      reads this`reconnecting, this`connected, this`displayedFailureDialog, this`wentLive, this`ended, this`parkingOpen
      reads this`reconnectAttemptInFlight, this`deadStop, this`startAborted, this`reconnectStatusShown, this`silent
    {
      && (reconnecting ==> autoReconnect && !connected && !displayedFailureDialog && wentLive && !ended)
      && (reconnecting <==> parkingOpen)
      && (reconnectAttemptInFlight ==>
          deadStop == NoStop && (startAborted <==> !reconnecting) && (!reconnecting ==> ended))
      && (connected ==> wentLive && deadStop == NoStop && !ended)
      && (deadStop != NoStop ==> wentLive)
      && (!wentLive ==> !reconnectStatusShown && !silent)
    }

    /** The status is up throughout a reconnect, and on a live stream exactly while the network is silent. */
    ghost predicate StatusRight()
      reads this`reconnecting, this`connected, this`reconnectStatusShown, this`silent
    {
      && (reconnecting ==> reconnectStatusShown)
      && (connected ==> (reconnectStatusShown <==> silent))
    }

    ghost predicate Valid()
      reads this
    {
      OnePermit() && OneOwner() && NoStall() && Progress() && Modes() && StatusRight()
    }

    constructor (autoReconnect: bool)
      ensures Valid() && this.autoReconnect == autoReconnect && !attemptedConnection
      ensures permits == 1 && !live && !owed && !displayedFailureDialog
    {
      this.autoReconnect := autoReconnect;
      connected, reconnecting, deadConnectionStopped, reconnectAttemptInFlight := false, false, false, false;
      displayedFailureDialog, attemptedConnection, parkingOpen := false, false, false;
      silent, reconnectStatusShown := false, false;
      attemptQueued, tickQueued := 0, 0;
      permits, start, startAborted, live, releasing, deadStop, stops := 1, Idle, false, false, 0, NoStop, 0;
      owed, wentLive, ended := false, false, false;
    }

    // ---- NvConnection ----

    /** conn.start(): the thread it starts runs by the events below. */
    method ConnStart()
      requires start == Idle
      modifies this`start, this`startAborted
      ensures start == Requesting && !startAborted
    {
      startAborted := false;
      start := Requesting;
    }

    /** conn.abortStart(): the start in progress is told to give up. */
    method AbortStart()
      modifies this`startAborted
      ensures startAborted
    {
      startAborted := true;
    }

    /** The start's request to the host is over; refused or aborted, it reports, and is done. */
    method RequestEnds(ok: bool)
      requires Valid() && start == Requesting
      modifies this`start
      ensures Valid() && start == if ok && !startAborted then Waiting else FailPosted
    {
      hide NoStall, StatusRight;
      start := if ok && !startAborted then Waiting else FailPosted;
    }

    /** The start gets the semaphore, and looks once more whether it is still wanted. */
    method AcquirePermit()
      requires Valid() && start == Waiting && permits > 0
      modifies this`start, this`permits
      ensures Valid()
      ensures if startAborted then start == FailPosted && permits == old(permits)
              else start == Connecting && permits == old(permits) - 1
      ensures start == Connecting ==> !live && releasing == 0
    {
      hide NoStall, StatusRight;
      permits := permits - 1;
      if startAborted {
        permits := permits + 1;
        start := FailPosted;
        return;
      }
      start := Connecting;
    }

    /** startConnection ends. Up, the connection keeps the semaphore; failed, it has reported already, from
        inside, and gives it back after. */
    method ConnectEnds(ok: bool)
      requires Valid() && start == Connecting
      modifies this`start, this`live, this`releasing, this`owed
      ensures Valid() && start == (if ok then LivePosted else FailPosted) && live == ok
      ensures releasing == old(releasing) + Count(!ok) && owed == !ok
    {
      hide NoStall, StatusRight;
      if ok {
        live := true;
        start := LivePosted;
      } else {
        start := FailPosted;
        releasing := releasing + 1;
        owed := true;
      }
    }

    method ReleaseFailed()
      requires Valid() && releasing > 0
      modifies this`releasing, this`permits, this`owed
      ensures Valid() && permits == old(permits) + 1 && releasing == old(releasing) - 1 && !owed
    {
      hide OneOwner, NoStall, Modes, StatusRight;
      releasing := releasing - 1;
      permits := permits + 1;
      owed := false;
    }

    /** conn.stop(), on whatever thread: what it stops is there, and it is the only one to stop it. */
    method ConnStop()
      requires Valid() && (stops > 0 || deadStop == Stopping)
      modifies this`live, this`permits
      ensures old(live) && !live && permits == old(permits) + 1 == 1
    {
      hide NoStall, StatusRight;
      live := false;
      permits := permits + 1;
    }

    /** A thread of stopConnection, or one that stops a late attempt. */
    method StopRuns()
      requires Valid() && stops > 0
      modifies this`live, this`permits, this`stops
      ensures Valid() && old(live) && !live && stops == old(stops) - 1
    {
      hide NoStall, StatusRight;
      ConnStop();
      stops := stops - 1;
    }

    /** The thread that stops the connection that dropped. */
    method DeadStopRuns()
      requires Valid() && deadStop == Stopping
      modifies this`live, this`permits, this`deadStop
      ensures Valid() && old(live) && !live && deadStop == StopPosted
    {
      hide StatusRight;
      ConnStop();
      deadStop := StopPosted;
    }

    // ---- The UI thread ----

    /** The surface is there: the first start of the stream. */
    method FirstStart()
      requires Valid() && !attemptedConnection
      modifies this`attemptedConnection, this`start, this`startAborted
      ensures Valid() && start == Requesting && !startAborted
    {
      hide NoStall, StatusRight;
      attemptedConnection := true;
      ConnStart();
    }

    method ShowReconnectStatus()
      modifies this`reconnectStatusShown
      ensures reconnectStatusShown
    {
      reconnectStatusShown := true;
    }

    method HideReconnectStatus()
      modifies this`reconnectStatusShown
      ensures !reconnectStatusShown
    {
      reconnectStatusShown := false;
    }

    /** The silence watchdog: whether the control stream has been quiet for long, or was heard. */
    method SilenceCheck(quiet: bool, heard: bool)
      requires Valid()
      modifies this`silent, this`reconnectStatusShown
      ensures Valid()
      ensures !connected ==> unchanged(this)
      ensures connected ==> silent == (quiet || (old(silent) && !heard))
    {
      hide OnePermit, OneOwner, NoStall;
      if !connected {
        return;
      }
      if quiet {
        silent := true;
        ShowReconnectStatus();
      } else if heard && silent {
        silent := false;
        HideReconnectStatus();
      }
    }

    /** The reconnect begins: the dead connection is stopped on a thread, its decoder parked. */
    method BeginReconnect()
      requires Valid() && autoReconnect && connected && !displayedFailureDialog
      modifies this`reconnecting, this`deadConnectionStopped, this`connected, this`silent, this`reconnectStatusShown
      modifies this`tickQueued, this`parkingOpen, this`deadStop
      ensures Valid() && reconnecting && !connected && !deadConnectionStopped && deadStop == Stopping && parkingOpen
    {
      hide OnePermit, Progress;
      reconnecting, deadConnectionStopped, connected, silent := true, false, false, false;
      tickQueued, parkingOpen, deadStop := tickQueued + 1, true, Stopping;
      ShowReconnectStatus();
    }

    /** A connection that was up ended. Whether it counts as a drop, and whether the screen can still show
        a stream, is given. */
    method MaybeStartReconnect(drop: bool, surfaceValid: bool, finishing: bool) returns (taken: bool)
      requires Valid()
      modifies this
      ensures old(ended) ==> ended
      ensures Valid()
      ensures taken <==>
              (autoReconnect && old(connected) && !old(displayedFailureDialog) && drop && surfaceValid && !finishing)
      ensures taken ==> reconnecting && !connected && !deadConnectionStopped && deadStop == Stopping && parkingOpen
      ensures taken ==> !owed && !old(owed)
      ensures !taken ==> unchanged(this)
    {
      hide NoStall, StatusRight;
      if !autoReconnect || !connected || reconnecting || displayedFailureDialog || finishing {
        return false;
      }
      if !drop || !surfaceValid {
        return false;
      }
      BeginReconnect();
      return true;
    }

    method ScheduleReconnectAttempt()
      modifies this`attemptQueued
      ensures attemptQueued == if reconnecting then 1 else old(attemptQueued)
    {
      if !reconnecting {
        return;
      }
      attemptQueued := 0;
      attemptQueued := attemptQueued + 1;
    }

    /** The dead connection has been stopped: attempts may start. */
    method DeadStopReported()
      requires Valid() && deadStop == StopPosted
      modifies this`deadConnectionStopped, this`attemptQueued, this`deadStop
      ensures Valid() && deadConnectionStopped && deadStop == NoStop
      ensures reconnecting ==> attemptQueued == 1
    {
      hide OnePermit, StatusRight;
      deadStop := NoStop;
      deadConnectionStopped := true;
      ScheduleReconnectAttempt();
    }

    /** Android reports a network: try now rather than later. */
    method NetworkAvailable()
      requires Valid()
      modifies this`attemptQueued
      ensures Valid() && attemptQueued == old(attemptQueued)
    {
      hide OnePermit, OneOwner, Modes, StatusRight;
      if reconnecting && deadConnectionStopped && !reconnectAttemptInFlight {
        attemptQueued := 0;
        attemptQueued := attemptQueued + 1;
      }
    }

    /** The attempt callback. When it starts an attempt, the core is free: nothing runs, nothing is being
        stopped, no other start is on its way. Its permit is free if and only if the last start that failed
        inside startConnection, if any did, has given it back since. */
    method AttemptDue(surfaceValid: bool) returns (started: bool)
      requires Valid() && attemptQueued > 0
      modifies this
      ensures old(ended) ==> ended
      ensures Valid()
      ensures started <==> surfaceValid
      ensures started ==> reconnecting && reconnectAttemptInFlight && start == Requesting && !startAborted
      ensures started ==> old(!live && start == Idle && stops == 0 && deadStop == NoStop)
      ensures started ==> (permits == 1 <==> !owed) && (permits == 0 <==> owed) && owed == old(owed)
      ensures !started ==> !reconnecting && ended && displayedFailureDialog
    {
      attemptQueued := attemptQueued - 1;
      if !reconnecting || !deadConnectionStopped || reconnectAttemptInFlight {
        return false;
      }
      if !surfaceValid {
        GiveUpReconnect();
        return false;
      }
      reconnectAttemptInFlight := true;
      ConnStart();
      return true;
    }

    /** The countdown, and the end of the reconnect window. */
    method TickDue(withinWindow: bool)
      requires Valid() && tickQueued > 0
      modifies this
      ensures old(ended) ==> ended
      ensures Valid() && reconnecting == withinWindow && (!withinWindow ==> ended && displayedFailureDialog)
    {
      hide OnePermit, OneOwner;
      tickQueued := tickQueued - 1;
      if !reconnecting {
        return;
      }
      if !withinWindow {
        GiveUpReconnect();
        return;
      }
      ShowReconnectStatus();
      tickQueued := tickQueued + 1;
    }

    /** The reconnect ends, whichever way; an attempt still on its way is told to give up. */
    method EndReconnect()
      modifies this`reconnecting, this`attemptQueued, this`tickQueued, this`startAborted, this`parkingOpen
      ensures !reconnecting && attemptQueued == 0 && tickQueued == 0 && !parkingOpen
      ensures startAborted == (old(startAborted) || reconnectAttemptInFlight)
    {
      reconnecting := false;
      attemptQueued := 0;
      tickQueued := 0;
      if reconnectAttemptInFlight {
        AbortStart();
      }
      parkingOpen := false;
    }

    /** An attempt brought the stream back: the reconnect ends, and its status goes. */
    method FinishReconnect()
      modifies this`reconnecting, this`attemptQueued, this`tickQueued, this`startAborted, this`parkingOpen,
               this`reconnectStatusShown
      ensures !reconnecting && attemptQueued == 0 && tickQueued == 0 && !parkingOpen && !reconnectStatusShown
      ensures startAborted == (old(startAborted) || reconnectAttemptInFlight)
    {
      EndReconnect();
      HideReconnectStatus();
    }

    /** As Valid, but a callback of the reconnect may just have been taken off the queue, or its attempt
        just have reported: what the handlers that end a reconnect start from. */
    ghost predicate Ending()
      reads this
    {
      OnePermit() && OneOwner() && Progress() && Modes()
    }

    method GiveUpReconnect()
      requires Ending() && reconnecting
      modifies this
      ensures Valid() && !reconnecting && ended && displayedFailureDialog
      ensures reconnectAttemptInFlight == old(reconnectAttemptInFlight)
      ensures owed == old(owed)
    {
      hide OnePermit, OneOwner;
      ended := true;
      EndReconnect();
      HideReconnectStatus();
      ShowConnectionEnd();
    }

    /** Ends a reconnect under way, and says whether there was one. */
    method CancelReconnect() returns (was: bool)
      modifies this`reconnecting, this`attemptQueued, this`tickQueued, this`startAborted, this`parkingOpen, this`ended,
               this`reconnectStatusShown
      ensures was == old(reconnecting) && !reconnecting
      ensures reconnectStatusShown == (old(reconnectStatusShown) && !was)
      ensures was ==> ended && attemptQueued == 0 && tickQueued == 0 && !parkingOpen
      ensures was ==> startAborted == (old(startAborted) || reconnectAttemptInFlight)
      ensures !was ==> ended == old(ended) && attemptQueued == old(attemptQueued) && tickQueued == old(tickQueued)
                       && parkingOpen == old(parkingOpen) && startAborted == old(startAborted)
    {
      if !reconnecting {
        return false;
      }
      ended := true;
      EndReconnect();
      HideReconnectStatus();
      return true;
    }

    /** Leaving: what is held is stopped, once, on a thread; a reconnect ends. */
    method StopConnection()
      requires Ending() && (!reconnecting ==> NoStall())
      modifies this
      ensures Valid() && !connected && !reconnecting
      ensures stops == old(stops) + Count(old(connected))
      ensures old(reconnecting) ==> ended
      ensures displayedFailureDialog == old(displayedFailureDialog)
              && reconnectAttemptInFlight == old(reconnectAttemptInFlight)
      ensures ended == (old(ended) || old(reconnecting) || old(connected))
      ensures owed == old(owed)
    {
      hide OnePermit;
      var wasReconnecting := CancelReconnect();
      if connected || wasReconnecting {
        var holdsConnection := connected;
        ended := true;
        connected := false;
        if holdsConnection {
          stops := stops + 1;
        }
      }
    }

    /** The stream is over: the first time round, everything is stopped and the user is told. */
    method ShowConnectionEnd()
      requires Ending() && (!reconnecting ==> NoStall())
      modifies this
      ensures Valid() && displayedFailureDialog && !reconnecting
      ensures old(displayedFailureDialog) ==> connected == old(connected) && ended == old(ended)
      ensures !old(displayedFailureDialog) ==>
              !connected && ended == (old(ended) || old(reconnecting) || old(connected))
      ensures reconnectAttemptInFlight == old(reconnectAttemptInFlight)
      ensures owed == old(owed)
    {
      hide OnePermit, OneOwner;
      attemptQueued := 0;
      tickQueued := 0;
      silent := false;
      HideReconnectStatus();
      if !displayedFailureDialog {
        StopConnection();
        displayedFailureDialog := true;
      }
    }

    /** connectionTerminated reaches the UI thread, at any time, even twice. */
    method ConnectionTerminated(drop: bool, surfaceValid: bool, finishing: bool)
      requires Valid()
      modifies this
      ensures old(ended) ==> ended
      ensures Valid()
      ensures reconnecting <==>
              (autoReconnect && old(connected) && !old(displayedFailureDialog) && drop && surfaceValid && !finishing)
      ensures !reconnecting ==> displayedFailureDialog
      ensures old(reconnecting) ==> ended
      ensures owed == old(owed)
      ensures reconnecting ==> deadStop == Stopping && !owed
    {
      hide OnePermit, OneOwner;
      var taken := MaybeStartReconnect(drop, surfaceValid, finishing);
      if taken {
        return;
      }
      ShowConnectionEnd();
    }

    /** A start that failed is heard of: an attempt's failure means the next one, or the end when it is
        final; the first start's, a dialog. */
    method StageFailedReported(final: bool)
      requires Valid() && start == FailPosted
      modifies this
      ensures old(ended) ==> ended
      ensures Valid() && start == Idle && !reconnectAttemptInFlight && !connected
      ensures reconnecting <==> old(reconnecting) && !final
      ensures reconnecting ==> attemptQueued == 1
      ensures owed == old(owed)
      ensures old(reconnecting) && final ==> ended
      ensures displayedFailureDialog <==>
              (old(displayedFailureDialog) || !old(reconnectAttemptInFlight) || (old(reconnecting) && final))
    {
      start := Idle;
      if reconnectAttemptInFlight {
        reconnectAttemptInFlight := false;
        if !reconnecting {
          return;
        }
        if final {
          GiveUpReconnect();
          return;
        }
        ScheduleReconnectAttempt();
        return;
      }
      displayedFailureDialog := true;
    }

    /** The stream is up: the connection nobody owned so far is the screen's. */
    method GoLive()
      requires OnePermit() && NoStall() && Progress() && Modes() && live && start == Idle && stops == 0
      requires !connected && !reconnecting && !ended && !reconnectAttemptInFlight && deadStop == NoStop
      requires attemptedConnection && !reconnectStatusShown && (silent ==> autoReconnect)
      modifies this`connected, this`wentLive, this`silent
      ensures Valid() && connected
    {
      hide OnePermit, NoStall;
      connected, wentLive := true, true;
      if autoReconnect {
        silent := false;
      }
    }

    /** A start that got through is heard of. Nobody may want it any more. */
    method ConnectionStartedReported()
      requires Valid() && start == LivePosted
      modifies this
      ensures Valid() && start == Idle && !reconnectAttemptInFlight && !reconnecting
      ensures connected <==> old(reconnecting) || !old(reconnectAttemptInFlight)
      ensures !connected ==> stops == old(stops) + 1
      ensures ended == old(ended) && displayedFailureDialog == old(displayedFailureDialog)
    {
      var reconnected := reconnectAttemptInFlight;
      start, reconnectAttemptInFlight := Idle, false;
      if reconnected {
        if !reconnecting {
          stops := stops + 1;
          return;
        }
        FinishReconnect();
      }
      GoLive();
    }

    /** The surface is gone. */
    method SurfaceDestroyed()
      requires Valid()
      modifies this
      ensures old(ended) ==> ended
      ensures Valid()
      ensures attemptedConnection == old(attemptedConnection)
      ensures !connected && !reconnecting
    {
      hide OnePermit, OneOwner;
      if attemptedConnection {
        if connected || reconnecting {
          StopConnection();
        }
      }
    }

    /** The user left the stream screen. */
    method OnStop()
      requires Valid()
      modifies this
      ensures old(ended) ==> ended
      ensures Valid() && !connected && !reconnecting && displayedFailureDialog
    {
      hide OnePermit, OneOwner;
      StopConnection();
      displayedFailureDialog := true;
    }

    // ---- Any run ----

    method Handle(e: Event)
      requires Valid()
      modifies this
      ensures Valid() && (old(ended) ==> ended)
    {
      match e
      case RequestOver(ok) => if start == Requesting { RequestEnds(ok); }
      case PermitFree => if start == Waiting && permits > 0 { AcquirePermit(); }
      case ConnectOver(ok) => if start == Connecting { ConnectEnds(ok); }
      case FailedReleases => if releasing > 0 { ReleaseFailed(); }
      case StopThread => if stops > 0 { StopRuns(); }
      case DeadStopThread => if deadStop == Stopping { DeadStopRuns(); }
      case SurfaceReady => if !attemptedConnection { FirstStart(); }
      case Terminated(drop, surfaceValid, finishing) => ConnectionTerminated(drop, surfaceValid, finishing);
      case DeadStopDone => if deadStop == StopPosted { DeadStopReported(); }
      case Network => NetworkAvailable();
      case AttemptTimer(surfaceValid) => if attemptQueued > 0 { var started := AttemptDue(surfaceValid); }
      case TickTimer(withinWindow) => if tickQueued > 0 { TickDue(withinWindow); }
      case Failed(final) => if start == FailPosted { StageFailedReported(final); }
      case Started => if start == LivePosted { ConnectionStartedReported(); }
      case SurfaceGone => SurfaceDestroyed();
      case Left => OnStop();
      case Watchdog(quiet, heard) => if autoReconnect { SilenceCheck(quiet, heard); }
    }

    /** Whatever happens, in whatever order: the invariants last, and a stream that was left, or whose
        reconnect failed, is never shown as connected again, even if a late attempt connects. */
    method AnyRun(events: seq<Event>)
      requires Valid()
      modifies this
      ensures Valid() && (old(ended) ==> ended && !connected)
    {
      for i := 0 to |events|
        invariant Valid() && (old(ended) ==> ended)
      {
        Handle(events[i]);
      }
    }

    /** From any point of a reconnect, an attempt gets going: once the dead connection is stopped, and the
        attempt that failed, if one did, is heard of. */
    method GetGoing()
      requires Valid() && reconnecting
      modifies this
      ensures Valid() && reconnecting && reconnectAttemptInFlight && start != FailPosted && stops == old(stops)
    {
      if deadStop == Stopping {
        DeadStopRuns();
      }
      if deadStop == StopPosted {
        DeadStopReported();
      }
      if start == FailPosted {
        StageFailedReported(false);
      }
      if !reconnectAttemptInFlight {
        var started := AttemptDue(true);
      }
    }

    /** No stall: from every state with a reconnect under way, the events that are pending, and a host that
        answers, bring the stream back. */
    method Recover()
      requires Valid() && reconnecting
      modifies this
      ensures Valid() && connected && !reconnecting && stops == old(stops)
    {
      GetGoing();
      if start == Requesting {
        RequestEnds(true);
      }
      if start == Waiting {
        if permits == 0 {
          ReleaseFailed();
        }
        AcquirePermit();
      }
      if start == Connecting {
        ConnectEnds(true);
      }
      ConnectionStartedReported();
    }
  }

  /** A stream that came up. */
  method CameUp() returns (g: Game)
    ensures fresh(g) && g.Valid() && g.autoReconnect && g.connected && !g.displayedFailureDialog
  {
    g := new Game(true);
    g.FirstStart();
    g.RequestEnds(true);
    g.AcquirePermit();
    g.ConnectEnds(true);
    g.ConnectionStartedReported();
  }

  /** A stream that came up, dropped, and makes its first attempt. */
  method FirstAttempt() returns (g: Game)
    ensures fresh(g) && g.Valid() && g.reconnecting && g.reconnectAttemptInFlight && g.start == Requesting
    ensures !g.startAborted && g.permits == 1
  {
    g := CameUp();
    g.ConnectionTerminated(true, true, false);
    g.DeadStopRuns();
    g.DeadStopReported();
    var started := g.AttemptDue(true);
  }

  /** A run in which an attempt starts while the one before it, heard of already, still has the permit: it
      failed inside startConnection, where the report comes first. */
  method StartedWhileOwed() returns (g: Game)
    ensures g.Valid() && g.reconnecting && g.reconnectAttemptInFlight && g.start == Requesting
    ensures g.permits == 0 && g.releasing == 1 && g.owed
  {
    g := FirstAttempt();
    g.RequestEnds(true);
    g.AcquirePermit();
    g.ConnectEnds(false);
    g.StageFailedReported(false);
    var started := g.AttemptDue(true);
  }
}
