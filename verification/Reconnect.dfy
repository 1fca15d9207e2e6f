/**
 The client window's following of a session (client/app/src/kvmwindow.cpp:163-507), without its widgets:
 polls, launches, backoff after an unexpected end, and restart on a confirmed source mode change.
 */
module Reconnect {
  import opened Common

  const POLL_FAILURE_LIMIT: nat := 10
  const RECONNECT_LIMIT: nat := 5
  const RECONNECT_MAX_DELAY_MS: nat := 8000
  const MODE_STABLE_POLLS: nat := 2

  datatype Status = Ready | NoSignal | Other

  /** What the server reports of its source. */
  datatype Mode = Mode(status: Status, width: nat, height: nat, fpsX100: nat)

  /** The program's equality of modes: the rate may differ slightly. */
  predicate SameMode(a: Mode, b: Mode) {
    a.status == b.status && a.width == b.width && a.height == b.height && -15 <= a.fpsX100 - b.fpsX100 <= 15
  }

  predicate CanStart(m: Mode) {
    m.status != Other
  }

  /** Dealings with the host. */
  datatype Link = Link(bound: bool, startEnabled: bool, polling: bool, pollBusy: bool, pollFailures: nat)

  /** The session; stopAsked: it has been told to stop. */
  datatype Play = Play(
    streaming: bool, cleanup: bool, restart: bool, sessionConnected: bool, stopAsked: bool, runningMode: Mode)

  /** The wish to stream, the backoff and the mode being watched. */
  datatype Follow = Follow(want: bool, pending: bool, attempt: nat, pendingMode: Mode, pendingPolls: nat)

  /** The member flags and counters. */
  datatype Window = Window(link: Link, play: Play, follow: Follow)

  /**
   What a run has done. launches: since the last connectionStarted, user Start or mode-change restart.
   delays: since the attempt counter was last zero. connected: some session since the last user Start did.
   modes: what the polls followed in the session in progress have reported. abandoned: the mode being watched
   was reported to an earlier session, whose launch then failed.
   */
  datatype History = History(launches: nat, delays: seq<nat>, connected: bool, modes: seq<Mode>, abandoned: bool)

  datatype State = State(w: Window, h: History)

  /** How a launch goes when runStream() tries one. */
  datatype Launch = Launched | MouseUnsupported | Refused(transport: bool)

  datatype Reply = Failure(transient: bool) | Success(mode: Mode)

  datatype Event =
    | StartClicked
    | PollTick
    | PollReply(reply: Reply, userQuit: bool, launch: Launch)
    | TimerFired
    | ConnectionStarted
    | ExecReturned
    | SessionEnded(userQuit: bool)
    | LaunchFailed(transport: bool)

  function StopFollowing(w: Window): Window {
    Window(
      w.link.(polling := false),
      w.play.(restart := false),
      w.follow.(want := false, pending := false, attempt := 0, pendingPolls := 0))
  }

  function ResumeInfoPolling(w: Window): Window {
    if w.link.bound then w.(link := w.link.(polling := true)) else w
  }

  function GiveUp(w: Window): Window {
    ResumeInfoPolling(StopFollowing(w))
  }

  /** The delay before the n-th attempt, n counting from 1. */
  function Delay(n: nat): nat
    requires 1 <= n
  {
    var d := 1000 * Doubled(n - 1);
    if d < RECONNECT_MAX_DELAY_MS then d else RECONNECT_MAX_DELAY_MS
  }

  function Doubled(n: nat): nat {
    if n == 0 then 1 else 2 * Doubled(n - 1)
  }

  function ScheduleReconnect(w: Window): Window {
    if w.follow.attempt >= RECONNECT_LIMIT then GiveUp(w)
    else
      w.(link := w.link.(polling := true, startEnabled := true),
         follow := w.follow.(attempt := w.follow.attempt + 1, pending := true))
  }

  function PollDisplay(w: Window): Window {
    if w.link.pollBusy then w else w.(link := w.link.(pollBusy := true))
  }

  function AfterLaunchFailed(w: Window, transport: bool): Window {
    var w1 := w.(play := w.play.(streaming := false, cleanup := false), link := w.link.(startEnabled := true));
    if transport && w1.follow.want && w1.follow.attempt > 0 then ScheduleReconnect(w1) else GiveUp(w1)
  }

  function RunStream(w: Window, mode: Mode, launch: Launch): Window {
    if w.play.streaming || !w.follow.want || !CanStart(mode) then w
    else if launch == MouseUnsupported then GiveUp(w)
    else
      var w1 := w.(play := w.play.(runningMode := mode, restart := false, sessionConnected := false));
      if launch.Refused? then AfterLaunchFailed(w1, launch.transport)
      else w1.(play := w1.play.(streaming := true, stopAsked := false), link := w1.link.(startEnabled := false))
  }

  /** The host is given up after a failed poll. */
  function Dismissed(w: Window, wasStreaming: bool): Window {
    w.(link := w.link.(bound := false, startEnabled := false),
       play := w.play.(stopAsked := w.play.stopAsked || wasStreaming))
  }

  function PollFailed(w: Window, transient: bool): Window {
    var w1 := w.(link := w.link.(pollBusy := false, pollFailures := w.link.pollFailures + 1));
    if transient && w1.follow.want && !w1.play.streaming && w1.follow.attempt > 0 then
      if w1.follow.pending then w1 else ScheduleReconnect(w1)
    else if transient && w1.follow.want && w1.play.streaming && w1.link.pollFailures < POLL_FAILURE_LIMIT then w1
    else if transient && !w1.follow.want && !w1.play.streaming then w1
    else Dismissed(StopFollowing(w1), w1.play.streaming)
  }

  /** A session in progress sees the mode. */
  function ModeSeen(w: Window, mode: Mode): Window {
    if SameMode(mode, w.play.runningMode) then w.(follow := w.follow.(pendingPolls := 0))
    else
      var again := w.follow.pendingPolls > 0 && SameMode(mode, w.follow.pendingMode);
      var count := if again then w.follow.pendingPolls + 1 else 1;
      var kept := if again then w.follow.pendingMode else mode;
      if count < MODE_STABLE_POLLS then w.(follow := w.follow.(pendingMode := kept, pendingPolls := count))
      else
        w.(follow := w.follow.(pendingMode := kept, pendingPolls := 0),
           play := w.play.(restart := true, stopAsked := true))
  }

  predicate Following(w: Window) {
    w.play.streaming && w.follow.want && !w.play.cleanup && !w.play.restart
  }

  /** The window once a successful poll's own bookkeeping is done. */
  function PollNoted(w: Window, userQuit: bool): Window {
    w.(link := w.link.(pollBusy := false, pollFailures := 0),
       follow := w.follow.(want := w.follow.want && !(userQuit && w.play.streaming)))
  }

  function PollSucceeded(w: Window, mode: Mode, userQuit: bool, launch: Launch): Window {
    var w1 := PollNoted(w, userQuit);
    if Following(w1) then ModeSeen(w1, mode)
    else if !w1.play.streaming && w1.follow.want && !w1.follow.pending && CanStart(mode) then
      RunStream(w1, mode, launch)
    else w1
  }

  function Wanting(w: Window): Window {
    w.(link := w.link.(polling := true), follow := w.follow.(want := true))
  }

  function Start(w: Window): Window {
    if w.play.streaming || !w.link.startEnabled then w
    else if w.follow.want then GiveUp(w)
    else PollDisplay(Wanting(StopFollowing(w)))
  }

  function MarkConnected(w: Window): Window {
    Window(
      w.link.(pollFailures := 0),
      w.play.(sessionConnected := true),
      w.follow.(attempt := 0, pending := false))
  }

  function AfterSession(w: Window, userQuit: bool): Window {
    var w0 := w.(play := w.play.(cleanup := false, streaming := false), link := w.link.(startEnabled := true));
    var w1 := w0.(play := w0.play.(restart := false),
                  follow := w0.follow.(want := w0.follow.want && !userQuit, pendingPolls := 0));
    if !w1.follow.want then ResumeInfoPolling(w1.(follow := w1.follow.(pending := false, attempt := 0)))
    else if w0.play.restart then w1
    else if !w1.play.sessionConnected && w1.follow.attempt == 0 then GiveUp(w1)
    else ScheduleReconnect(w1)
  }

  function ReconnectNow(w: Window): Window {
    if !w.follow.want || w.play.streaming || !w.follow.pending then w
    else PollDisplay(w.(follow := w.follow.(pending := false)))
  }

  function Next(w: Window, e: Event): Window {
    match e
    case StartClicked => Start(w)
    case PollTick => if w.link.polling then PollDisplay(w) else w
    case PollReply(reply, userQuit, launch) =>
      if !w.link.pollBusy then w
      else if reply.Failure? then PollFailed(w, reply.transient)
      else PollSucceeded(w, reply.mode, userQuit, launch)
    case TimerFired => ReconnectNow(w)
    case ConnectionStarted => if w.play.streaming && !w.play.cleanup then MarkConnected(w) else w
    case ExecReturned => if w.play.streaming then w.(play := w.play.(cleanup := true)) else w
    case SessionEnded(userQuit) => if w.play.streaming && w.play.cleanup then AfterSession(w, userQuit) else w
    case LaunchFailed(transport) => if w.play.streaming then AfterLaunchFailed(w, transport) else w
  }

  /** Whether runStream() gets as far as a launch in this step. */
  predicate Launches(w: Window, e: Event) {
    && e.PollReply? && w.link.pollBusy && e.reply.Success? && !w.play.streaming && w.follow.want && !w.follow.pending
    && CanStart(e.reply.mode) && e.launch != MouseUnsupported
  }

  predicate Connects(w: Window, e: Event) {
    e.ConnectionStarted? && w.play.streaming && !w.play.cleanup
  }

  predicate UserStarts(w: Window, e: Event) {
    e.StartClicked? && !w.play.streaming && w.link.startEnabled && !w.follow.want
  }

  predicate Restarts(w: Window, e: Event) {
    !w.play.restart && Next(w, e).play.restart
  }

  predicate Counted(w: Window, e: Event) {
    e.PollReply? && w.link.pollBusy && e.reply.Success? && Following(PollNoted(w, e.userQuit))
  }

  /** Launches so far after the step. */
  function CountLaunches(n: nat, w: Window, e: Event): nat {
    if Connects(w, e) || UserStarts(w, e) || Restarts(w, e) then 0 else if Launches(w, e) then n + 1 else n
  }

  function CountDelays(delays: seq<nat>, before: nat, after: nat): seq<nat> {
    if after == 0 then [] else if after == before + 1 then delays + [Delay(after)] else delays
  }

  predicate EverConnected(connected: bool, w: Window, e: Event) {
    if UserStarts(w, e) then false else connected || Connects(w, e)
  }

  function CountModes(modes: seq<Mode>, w: Window, e: Event): seq<Mode> {
    if !Next(w, e).play.streaming then [] else if Counted(w, e) then modes + [e.reply.mode] else modes
  }

  /** A launch fails on transport while recovering, with attempts left and a mode being watched. */
  predicate Abandons(w: Window, e: Event) {
    && e.LaunchFailed? && e.transport && w.play.streaming && w.follow.want
    && 0 < w.follow.attempt < RECONNECT_LIMIT && w.follow.pendingPolls > 0
  }

  predicate EverAbandoned(abandoned: bool, w: Window, e: Event) {
    Abandons(w, e) || (abandoned && !Counted(w, e) && Next(w, e).follow.pendingPolls > 0)
  }

  function Noted(s: State, e: Event): History {
    History(
      CountLaunches(s.h.launches, s.w, e), CountDelays(s.h.delays, s.w.follow.attempt, Next(s.w, e).follow.attempt),
      EverConnected(s.h.connected, s.w, e), CountModes(s.h.modes, s.w, e), EverAbandoned(s.h.abandoned, s.w, e))
  }

  function Step(s: State, e: Event): State {
    State(Next(s.w, e), Noted(s, e))
  }

  const NO_MODE := Mode(Other, 0, 0, 0)

  /** Bound to a host, before the first Start. */
  const IDLE_WINDOW := Window(
    Link(true, true, true, false, 0),
    Play(false, false, false, false, false, NO_MODE),
    Follow(false, false, 0, NO_MODE, 0))

  const IDLE := State(IDLE_WINDOW, History(0, [], false, [], false))

  function Run(es: seq<Event>): State {
    if es == [] then IDLE else Step(Run(es[..|es| - 1]), es[|es| - 1])
  }

  // ----- the budget -----

  const BACKOFF: seq<nat> := [1000, 2000, 4000, 8000, 8000]

  lemma DelayIsBackoff(n: nat)
    requires 1 <= n <= RECONNECT_LIMIT
    ensures Delay(n) == BACKOFF[n - 1]
  {
    assert Doubled(1) == 2 && Doubled(2) == 4;
    assert Doubled(3) == 8 && Doubled(4) == 16;
  }

  function AtLeastOne(n: nat): nat {
    if n == 0 then 1 else n
  }

  /** n: launches so far; connected: a session has connected since the last user Start. */
  ghost predicate BudgetInv(w: Window, n: nat, connected: bool) {
    && w.follow.attempt <= RECONNECT_LIMIT
    && (w.follow.pending ==> w.follow.want && !w.play.streaming && w.follow.attempt > 0)
    && (w.follow.attempt > 0 ==> w.follow.want || w.play.streaming)
    && (w.follow.want && !w.play.streaming ==> n <= (if w.follow.attempt == 0 then 0 else w.follow.attempt - 1))
    && (w.follow.want && w.play.streaming ==> n <= AtLeastOne(w.follow.attempt))
    && (w.play.streaming && w.play.sessionConnected ==> connected && w.follow.attempt == 0 && n == 0)
    && (!connected ==> w.follow.attempt == 0 && n <= 1)
    && (w.play.restart ==> n == 0)
    && n <= RECONNECT_LIMIT
    && (w.play.cleanup ==> w.play.streaming)
    && (w.follow.want ==> w.link.polling)
    && (w.follow.want && w.play.streaming ==> w.link.pollFailures < POLL_FAILURE_LIMIT)
  }

  /** A step leaves the attempt counter, clears it, or schedules the next attempt. */
  predicate AttemptMoved(w: Window, v: Window) {
    v.follow.attempt == 0 || v.follow.attempt == w.follow.attempt || v.follow.attempt == w.follow.attempt + 1
  }

  lemma ScheduleKeeps(w: Window, n: nat, connected: bool)
    requires !w.play.streaming && !w.play.cleanup && connected && w.follow.want && (w.play.restart ==> n == 0)
    requires w.follow.attempt <= RECONNECT_LIMIT && n <= w.follow.attempt
    ensures BudgetInv(ScheduleReconnect(w), n, connected)
    ensures AttemptMoved(w, ScheduleReconnect(w)) && (ScheduleReconnect(w).play.restart ==> w.play.restart)
  {
  }

  lemma GiveUpKeeps(w: Window, n: nat, connected: bool)
    requires n <= RECONNECT_LIMIT && (w.play.cleanup ==> w.play.streaming) && (!connected ==> n <= 1)
    requires w.play.streaming && w.play.sessionConnected ==> connected && n == 0
    ensures BudgetInv(GiveUp(w), n, connected) && !GiveUp(w).play.restart && GiveUp(w).follow.attempt == 0
  {
  }

  lemma StartKeeps(w: Window, n: nat, connected: bool)
    requires BudgetInv(w, n, connected)
    ensures var started := UserStarts(w, StartClicked);
            && BudgetInv(Start(w), if started then 0 else n, !started && connected)
            && AttemptMoved(w, Start(w)) && (Start(w).play.restart ==> w.play.restart)
  {
    GiveUpKeeps(w, n, connected);
  }

  lemma FailedKeeps(w: Window, transient: bool, n: nat, connected: bool)
    requires BudgetInv(w, n, connected)
    ensures BudgetInv(PollFailed(w, transient), n, connected)
    ensures AttemptMoved(w, PollFailed(w, transient)) && (PollFailed(w, transient).play.restart ==> w.play.restart)
  {
    var w1 := w.(link := w.link.(pollBusy := false, pollFailures := w.link.pollFailures + 1));
    if transient && w1.follow.want && !w1.play.streaming && w1.follow.attempt > 0 && !w1.follow.pending {
      ScheduleKeeps(w1, n, connected);
    }
    hide ScheduleReconnect;
  }

  lemma LaunchFailedKeeps(w: Window, transport: bool, n: nat, connected: bool)
    requires n <= RECONNECT_LIMIT && (!connected ==> n <= 1 && w.follow.attempt == 0)
    requires w.follow.attempt <= RECONNECT_LIMIT
    requires (w.play.restart ==> n == 0) && (w.follow.want ==> n <= AtLeastOne(w.follow.attempt))
    ensures BudgetInv(AfterLaunchFailed(w, transport), n, connected)
    ensures AttemptMoved(w, AfterLaunchFailed(w, transport))
    ensures AfterLaunchFailed(w, transport).play.restart ==> w.play.restart
  {
    var w1 := w.(play := w.play.(streaming := false, cleanup := false), link := w.link.(startEnabled := true));
    if transport && w1.follow.want && w1.follow.attempt > 0 {
      ScheduleKeeps(w1, n, connected);
    } else {
      GiveUpKeeps(w1, n, connected);
    }
    hide ScheduleReconnect, GiveUp;
  }

  lemma RunStreamKeeps(w: Window, mode: Mode, launch: Launch, n: nat, connected: bool)
    requires BudgetInv(w, n, connected) && CanStart(mode) && w.link.pollFailures == 0
    requires !w.play.streaming && w.follow.want && !w.follow.pending
    ensures BudgetInv(RunStream(w, mode, launch), if launch == MouseUnsupported then n else n + 1, connected)
    ensures AttemptMoved(w, RunStream(w, mode, launch)) && !RunStream(w, mode, launch).play.restart
  {
    var w1 := w.(play := w.play.(runningMode := mode, restart := false, sessionConnected := false));
    if launch == MouseUnsupported {
      GiveUpKeeps(w, n, connected);
    } else if launch.Refused? {
      LaunchFailedKeeps(w1, launch.transport, n + 1, connected);
    }
    hide AfterLaunchFailed, GiveUp;
  }

  lemma ModeSeenKeeps(w: Window, mode: Mode, n: nat, connected: bool)
    requires BudgetInv(w, n, connected) && Following(w)
    ensures BudgetInv(ModeSeen(w, mode), if ModeSeen(w, mode).play.restart then 0 else n, connected)
    ensures ModeSeen(w, mode).follow.attempt == w.follow.attempt
  {
    hide SameMode;
  }

  lemma SucceededKeeps(w: Window, mode: Mode, userQuit: bool, launch: Launch, n: nat, connected: bool)
    requires BudgetInv(w, n, connected) && w.link.pollBusy
    ensures var e := PollReply(Success(mode), userQuit, launch);
            && BudgetInv(PollSucceeded(w, mode, userQuit, launch), CountLaunches(n, w, e), connected)
            && AttemptMoved(w, PollSucceeded(w, mode, userQuit, launch))
  {
    var w1 := PollNoted(w, userQuit);
    assert BudgetInv(w1, n, connected);
    if Following(w1) {
      ModeSeenKeeps(w1, mode, n, connected);
    } else if !w1.play.streaming && w1.follow.want && !w1.follow.pending && CanStart(mode) {
      RunStreamKeeps(w1, mode, launch, n, connected);
    }
    hide BudgetInv, ModeSeen, RunStream, CanStart;
  }

  lemma SessionKeeps(w: Window, userQuit: bool, n: nat, connected: bool)
    requires BudgetInv(w, n, connected) && w.play.streaming
    ensures BudgetInv(AfterSession(w, userQuit), n, connected) && !AfterSession(w, userQuit).play.restart
    ensures AttemptMoved(w, AfterSession(w, userQuit))
  {
    var w1 := Window(
      w.link.(startEnabled := true),
      w.play.(cleanup := false, streaming := false, restart := false),
      w.follow.(want := w.follow.want && !userQuit, pendingPolls := 0));
    if w1.follow.want && !w.play.restart {
      if !w1.play.sessionConnected && w1.follow.attempt == 0 {
        GiveUpKeeps(w1, n, connected);
      } else {
        ScheduleKeeps(w1, n, connected);
      }
    }
    hide ScheduleReconnect, GiveUp;
  }

  /** Timers, connectionStarted and the return of the session's loop. */
  lemma SignalKeeps(w: Window, e: Event, n: nat, connected: bool)
    requires BudgetInv(w, n, connected) && (e.PollTick? || e.TimerFired? || e.ConnectionStarted? || e.ExecReturned?)
    ensures BudgetInv(Next(w, e), if Connects(w, e) then 0 else n, connected || Connects(w, e))
    ensures AttemptMoved(w, Next(w, e)) && Next(w, e).play.restart == w.play.restart
  {
  }

  lemma StepKeepsBudget(w: Window, e: Event, n: nat, connected: bool)
    requires BudgetInv(w, n, connected)
    ensures BudgetInv(Next(w, e), CountLaunches(n, w, e), EverConnected(connected, w, e)) && AttemptMoved(w, Next(w, e))
  {
    hide Start, PollFailed, PollSucceeded, AfterSession, AfterLaunchFailed;
    if e.PollReply? {
      if w.link.pollBusy && e.reply.Success? {
        SucceededKeeps(w, e.reply.mode, e.userQuit, e.launch, n, connected);
        hide BudgetInv;
      } else if w.link.pollBusy {
        FailedKeeps(w, e.reply.transient, n, connected);
        hide BudgetInv;
      }
    } else if e.StartClicked? {
      StartKeeps(w, n, connected);
      hide BudgetInv;
    } else if e.SessionEnded? && w.play.streaming {
      SessionKeeps(w, e.userQuit, n, connected);
      hide BudgetInv;
    } else if e.LaunchFailed? {
      LaunchFailedKeeps(w, e.transport, n, connected);
      hide BudgetInv;
    } else if !e.LaunchFailed? && !e.SessionEnded? {
      SignalKeeps(w, e, n, connected);
      hide BudgetInv;
    }
  }

  lemma DelaysKept(delays: seq<nat>, before: nat, after: nat)
    requires before <= RECONNECT_LIMIT && after <= RECONNECT_LIMIT && delays == BACKOFF[..before]
    requires after == 0 || after == before || after == before + 1
    ensures CountDelays(delays, before, after) == BACKOFF[..after]
  {
    if after == before + 1 {
      DelayIsBackoff(after);
      assert BACKOFF[..after] == BACKOFF[..before] + [BACKOFF[before]];
    }
  }

  /**
   In every run, at most five launches are made before the next connectionStarted, user Start or confirmed
   mode change, and the waits before them are the first of 1, 2, 4, 8 and 8 seconds, one per attempt; so
   each scheduled attempt brings 5 - attempt down by one. Until a session has connected after Start there
   is no retry at all. A wish to stream never waits without polling.
   */
  lemma {:induction false} RetriesAreBounded(es: seq<Event>)
    ensures var s := Run(es);
            && s.h.launches <= 5 && s.w.follow.attempt <= 5
            && s.h.delays == [1000, 2000, 4000, 8000, 8000][..s.w.follow.attempt]
            && (!s.h.connected ==> s.h.launches <= 1 && s.w.follow.attempt == 0 && !s.w.follow.pending)
            && (s.w.follow.want ==> s.w.link.polling)
            && BudgetInv(s.w, s.h.launches, s.h.connected)
  {
    if es != [] {
      var s, e := Run(es[..|es| - 1]), es[|es| - 1];
      RetriesAreBounded(es[..|es| - 1]);
      StepKeepsBudget(s.w, e, s.h.launches, s.h.connected);
      DelaysKept(s.h.delays, s.w.follow.attempt, Next(s.w, e).follow.attempt);
      hide Next, CountLaunches, CountDelays, EverConnected, CountModes, EverAbandoned;
    }
  }

  /**
   A session or an attempt to get one back fails for a reason that may pass: the session has ended unasked, its
   launch has failed on transport, or the poll before a launch has.
   */
  predicate FailsInPassing(w: Window, e: Event) {
    && w.follow.want
    && match e
       case SessionEnded(userQuit) =>
         && w.play.streaming && w.play.cleanup && !userQuit && !w.play.restart
         && (w.play.sessionConnected || w.follow.attempt > 0)
       case LaunchFailed(transport) => w.play.streaming && transport && w.follow.attempt > 0
       case PollReply(Failure(transient), _, _) =>
         w.link.pollBusy && transient && !w.play.streaming && !w.follow.pending && w.follow.attempt > 0
       case PollReply(Success(_), _, launch) =>
         Launches(w, e) && launch == Refused(true) && w.follow.attempt > 0
       case _ => false
  }

  /**
   Each such failure schedules the next attempt, with polling on, until five have been made; then following ends.
   Nothing else moves the counter up.
   */
  lemma RecoveryGoesOn(w: Window, e: Event)
    requires w.follow.attempt <= 5
    ensures var v := Next(w, e);
            && (FailsInPassing(w, e) ==>
                  && !v.play.streaming
                  && if w.follow.attempt < 5 then
                       v.follow.want && v.follow.pending && v.link.polling && v.follow.attempt == w.follow.attempt + 1
                     else !v.follow.want && !v.follow.pending && v.follow.attempt == 0)
            && (v.follow.attempt > w.follow.attempt ==> FailsInPassing(w, e))
  {
    hide SameMode;
  }

  /**
   A scheduled attempt polls when its time comes, waiting polls that fail in passing do not disturb it, and the
   next good poll launches; a session in progress is given up only by the tenth poll in a row that fails.
   */
  lemma AttemptsAreMade(w: Window, mode: Mode)
    ensures w.follow.want && w.follow.pending && !w.play.streaming ==>
              && Next(w, TimerFired).link.pollBusy && !Next(w, TimerFired).follow.pending
              && (w.link.pollBusy && w.follow.attempt > 0 ==>
                    Next(w, PollReply(Failure(true), false, Launched)).follow == w.follow)
    ensures w.link.pollBusy && w.follow.want && !w.follow.pending && !w.play.streaming && CanStart(mode) ==>
              var v := Next(w, PollReply(Success(mode), false, Launched));
              v.play.streaming && v.play.runningMode == mode && !v.play.stopAsked && !v.play.sessionConnected
    ensures w.link.pollBusy && w.follow.want && w.play.streaming ==>
              var v := Next(w, PollReply(Failure(true), false, Launched));
              && (v.follow.want <==> w.link.pollFailures + 1 < 10)
              && (!v.follow.want ==> v.play.stopAsked && !v.link.bound)
  {
  }

  /**
   How a session's end is taken: a user's quit, or the end of a session no longer wanted, ends the following; a
   session ended for its mode leaves it as it is, so that the next good poll launches; one that never connected, at
   the first try, ends it.
   */
  lemma EndingsAreTaken(w: Window, userQuit: bool)
    requires w.play.streaming && w.play.cleanup
    ensures var v := Next(w, SessionEnded(userQuit));
            && !v.play.streaming && !v.play.cleanup && !v.play.restart && v.link.startEnabled
            && (!w.follow.want || userQuit ==> !v.follow.want && !v.follow.pending && v.follow.attempt == 0)
            && (w.follow.want && !userQuit && w.play.restart ==>
                  v.follow.want && v.follow.pending == w.follow.pending && v.follow.attempt == w.follow.attempt)
            && (w.follow.want && !userQuit && !w.play.restart && !w.play.sessionConnected && w.follow.attempt == 0 ==>
                  !v.follow.want)
  {
  }

  /** A failure that will not pass ends the following, and the session if there is one; so does the user's quit. */
  lemma HardFailuresEnd(w: Window, e: Event)
    requires
      || (e.PollReply? && w.link.pollBusy && e.reply == Failure(false))
      || (e.PollReply? && Launches(w, e) && e.launch == Refused(false))
      || (e.PollReply? && Launches(w, e.(launch := Launched)) && e.launch == MouseUnsupported)
      || (e.PollReply? && w.link.pollBusy && e.reply.Success? && e.userQuit && w.play.streaming)
      || (e == LaunchFailed(false) && w.play.streaming)
    ensures var v := Next(w, e);
            && !v.follow.want
            && (!(e.PollReply? && e.userQuit) ==> !v.follow.pending && v.follow.attempt == 0)
            && (e.PollReply? && e.reply.Failure? ==>
                  !v.link.bound && !v.link.startEnabled && !v.link.polling && (w.play.streaming ==> v.play.stopAsked))
  {
    hide SameMode;
  }

  /** Start follows afresh and polls at once; another click before the session is up cancels; during one it is dead. */
  lemma ClicksAreTaken(w: Window)
    ensures var v := Next(w, StartClicked);
            if w.play.streaming || !w.link.startEnabled then v == w
            else if w.follow.want then !v.follow.want && !v.follow.pending && v.follow.attempt == 0
            else
              && v.follow.want && !v.follow.pending && v.follow.attempt == 0 && v.follow.pendingPolls == 0
              && v.link.polling && v.link.pollBusy
  {
  }

  // ----- mode changes -----

  /**
   A mode being watched was reported by the last poll followed in the session in progress, unless it was
   abandoned to it before any; outside a session only an abandoned one is watched.
   */
  ghost predicate WatchInv(w: Window, modes: seq<Mode>, abandoned: bool) {
    && (w.follow.pendingPolls > 0 ==> w.follow.pendingPolls == 1)
    && (abandoned <==> w.follow.pendingPolls > 0 && modes == [])
    && (w.follow.pendingPolls > 0 && modes != [] ==> w.follow.pendingMode == modes[|modes| - 1])
    && (!w.play.streaming ==> modes == [])
    && (Attended(w) && modes != [] ==>
          (w.follow.pendingPolls > 0 <==> !SameMode(modes[|modes| - 1], w.play.runningMode)))
  }

  predicate Attended(w: Window) {
    w.play.streaming && w.follow.want && !w.play.restart
  }

  predicate Dropped(w: Window, v: Window) {
    && (|| v.follow.pendingPolls == 0
        || (v.follow.pendingPolls == w.follow.pendingPolls && v.follow.pendingMode == w.follow.pendingMode))
    && (v.play.restart ==> w.play.restart)
  }

  lemma GiveUpDrops(w: Window)
    ensures GiveUp(w).follow.pendingPolls == 0 && !GiveUp(w).play.restart
  {
  }

  lemma ScheduleDrops(w: Window)
    ensures Dropped(w, ScheduleReconnect(w))
  {
    GiveUpDrops(w);
    hide GiveUp;
  }

  lemma FailedLaunchDrops(w: Window, transport: bool)
    ensures Dropped(w, AfterLaunchFailed(w, transport))
  {
    var w1 := w.(play := w.play.(streaming := false, cleanup := false), link := w.link.(startEnabled := true));
    ScheduleDrops(w1);
    GiveUpDrops(w1);
    hide ScheduleReconnect, GiveUp;
  }

  lemma LaunchDrops(w: Window, mode: Mode, launch: Launch)
    ensures Dropped(w, RunStream(w, mode, launch))
  {
    GiveUpDrops(w);
    var w1 := w.(play := w.play.(runningMode := mode, restart := false, sessionConnected := false));
    FailedLaunchDrops(w1, launch.Refused? && launch.transport);
    hide AfterLaunchFailed, GiveUp;
  }

  lemma FailedPollDrops(w: Window, transient: bool)
    ensures Dropped(w, PollFailed(w, transient))
  {
    ScheduleDrops(w.(link := w.link.(pollBusy := false, pollFailures := w.link.pollFailures + 1)));
    hide ScheduleReconnect;
  }

  lemma IdlePollDrops(w: Window, mode: Mode, userQuit: bool, launch: Launch)
    requires !Following(PollNoted(w, userQuit))
    ensures Dropped(w, PollSucceeded(w, mode, userQuit, launch))
  {
    LaunchDrops(PollNoted(w, userQuit), mode, launch);
    hide RunStream, ModeSeen;
  }

  lemma SessionDrops(w: Window, userQuit: bool)
    ensures Dropped(w, AfterSession(w, userQuit))
  {
    var w1 := Window(
      w.link.(startEnabled := true),
      w.play.(cleanup := false, streaming := false, restart := false),
      w.follow.(want := w.follow.want && !userQuit, pendingPolls := 0));
    ScheduleDrops(w1);
    GiveUpDrops(w1);
    hide ScheduleReconnect, GiveUp;
  }

  /** Outside a followed session's polls the watch is only ever dropped. */
  lemma WatchDropped(w: Window, e: Event)
    requires !Counted(w, e)
    ensures Dropped(w, Next(w, e))
  {
    hide PollFailed, PollSucceeded, AfterSession, AfterLaunchFailed, GiveUp;
    if e.PollReply? {
      if !w.link.pollBusy {
        DroppedSelf(w);
      } else if e.reply.Success? {
        IdlePollDrops(w, e.reply.mode, e.userQuit, e.launch);
      } else {
        FailedPollDrops(w, e.reply.transient);
      }
      hide Dropped;
    } else if e.StartClicked? {
      GiveUpDrops(w);
    } else if e.SessionEnded? {
      SessionDrops(w, e.userQuit);
    } else if e.LaunchFailed? {
      FailedLaunchDrops(w, e.transport);
    }
  }

  lemma DroppedSelf(w: Window)
    ensures Dropped(w, w)
  {
  }

  /** A session ends and leaves a watch behind only in this way. */
  lemma LeftBehind(w: Window, e: Event)
    requires w.play.streaming
    ensures !Next(w, e).play.streaming && Next(w, e).follow.pendingPolls > 0 <==> Abandons(w, e)
  {
    hide SameMode;
  }

  lemma CountedWatch(w: Window, e: Event, modes: seq<Mode>, abandoned: bool)
    requires WatchInv(w, modes, abandoned) && Counted(w, e)
    ensures WatchInv(Next(w, e), modes + [e.reply.mode], false) && Next(w, e).play.streaming
    ensures Restarts(w, e) ==>
              && SameMode(e.reply.mode, w.follow.pendingMode) && w.follow.pendingPolls > 0
              && !SameMode(e.reply.mode, w.play.runningMode)
  {
    hide SameMode;
  }

  /** A session that stays attended keeps its watch between the polls that count. */
  lemma Undisturbed(w: Window, e: Event)
    requires w.play.streaming && !Counted(w, e) && Attended(Next(w, e))
    ensures Attended(w) && Next(w, e).follow.pendingPolls == w.follow.pendingPolls
    ensures Next(w, e).play.runningMode == w.play.runningMode
  {
    hide SameMode;
  }

  lemma WatchKept(w: Window, e: Event, modes: seq<Mode>, abandoned: bool)
    requires WatchInv(w, modes, abandoned)
    ensures WatchInv(Next(w, e), CountModes(modes, w, e), EverAbandoned(abandoned, w, e))
  {
    if Counted(w, e) {
      CountedWatch(w, e, modes, abandoned);
      hide Next;
    } else {
      WatchDropped(w, e);
      if w.play.streaming {
        LeftBehind(w, e);
        if Attended(Next(w, e)) {
          Undisturbed(w, e);
        }
      }
      hide Next, SameMode;
    }
  }

  lemma {:induction false} WatchReachable(es: seq<Event>)
    ensures WatchInv(Run(es).w, Run(es).h.modes, Run(es).h.abandoned)
  {
    if es != [] {
      var s := Run(es[..|es| - 1]);
      WatchReachable(es[..|es| - 1]);
      WatchKept(s.w, es[|es| - 1], s.h.modes, s.h.abandoned);
      hide Next, CountLaunches, CountDelays, EverConnected, CountModes, EverAbandoned;
    }
  }

  /**
   In every run a session is restarted for its mode only when a poll reports one other than it runs in, and that
   the poll before it, of the same session, reported it too exactly if the watch was not abandoned to it by a
   failed launch; if it was, the session's first poll restarts it.
   */
  lemma RestartIsConfirmed(es: seq<Event>, e: Event)
    requires Restarts(Run(es).w, e)
    ensures var s := Run(es);
            && e.PollReply? && e.reply.Success? && Following(PollNoted(s.w, e.userQuit))
            && !SameMode(e.reply.mode, s.w.play.runningMode)
            && (s.h.modes != [] && SameMode(e.reply.mode, s.h.modes[|s.h.modes| - 1]) <==> !s.h.abandoned)
            && (s.h.abandoned ==> s.h.modes == [])
  {
    var s := Run(es);
    WatchReachable(es);
    if Counted(s.w, e) {
      CountedWatch(s.w, e, s.h.modes, s.h.abandoned);
    } else {
      WatchDropped(s.w, e);
    }
    hide Next, SameMode;
  }

  /** Two polls in a row that report to one session a mode other than it runs in, the same, restart it. */
  lemma RestartIsPrompt(es: seq<Event>, e: Event)
    requires var s := Run(es);
             && Counted(s.w, e) && s.h.modes != [] && SameMode(e.reply.mode, s.h.modes[|s.h.modes| - 1])
             && !SameMode(s.h.modes[|s.h.modes| - 1], s.w.play.runningMode)
             && !SameMode(e.reply.mode, s.w.play.runningMode)
    ensures Restarts(Run(es).w, e) && Next(Run(es).w, e).play.stopAsked
  {
    WatchReachable(es);
    hide SameMode;
  }

  lemma Extend(es: seq<Event>, e: Event) returns (longer: seq<Event>)
    ensures longer == es + [e] && Run(longer) == Step(Run(es), e)
  {
    longer := es + [e];
    assert longer[..|es|] == es;
  }

  const HD := Mode(Ready, 1920, 1080, 6000)
  const UHD := Mode(Ready, 3840, 2160, 3000)

  function Report(mode: Mode): Event {
    PollReply(Success(mode), false, Launched)
  }

  /** A session plays HD and has been told these modes. */
  predicate Plays(s: State, attempt: nat, pendingMode: Mode, pendingPolls: nat, modes: seq<Mode>) {
    && s.h.modes == modes
    && s.w == Window(Link(true, false, true, false, 0), Play(true, false, false, false, false, HD),
                     Follow(true, false, attempt, pendingMode, pendingPolls))
  }

  lemma FirstLaunch()
    ensures Plays(Step(Step(IDLE, StartClicked), Report(HD)), 0, NO_MODE, 0, [])
  {
  }

  predicate Waits(s: State) {
    && s.h.modes == []
    && s.w == Window(Link(true, true, true, false, 0), Play(false, false, false, true, false, HD),
                     Follow(true, true, 1, NO_MODE, 0))
  }

  lemma FirstEnd(s: State)
    requires Plays(s, 0, NO_MODE, 0, [])
    ensures Waits(Step(Step(Step(s, ConnectionStarted), ExecReturned), SessionEnded(false)))
  {
    var connected := Step(s, ConnectionStarted);
    assert connected.w.play == Play(true, false, false, true, false, HD) && connected.w.follow == s.w.follow;
    var returned := Step(connected, ExecReturned);
    assert returned.w.play == Play(true, true, false, true, false, HD) && returned.w.follow == s.w.follow;
  }

  lemma Relaunch(s: State)
    requires Waits(s)
    ensures Plays(Step(Step(s, TimerFired), Report(HD)), 1, NO_MODE, 0, [])
  {
  }

  lemma ToldOnce(s: State)
    requires Plays(s, 1, NO_MODE, 0, [])
    ensures Plays(Step(Step(s, PollTick), Report(UHD)), 1, UHD, 1, [UHD])
  {
    assert Counted(Step(s, PollTick).w, Report(UHD));
  }

  lemma FailedLaunch(s: State)
    requires Plays(s, 1, UHD, 1, [UHD])
    ensures Plays(Step(Step(Step(s, LaunchFailed(true)), TimerFired), Report(HD)), 2, UHD, 1, [])
  {
    var failed := Step(s, LaunchFailed(true));
    assert failed.w.follow == Follow(true, true, 2, UHD, 1);
    assert failed.w.play == Play(false, false, false, false, false, HD);
  }

  lemma ToldOnceMore(s: State)
    requires Plays(s, 2, UHD, 1, [])
    ensures Restarts(Step(s, PollTick).w, Report(UHD)) && Step(s, PollTick).h.modes == []
  {
    assert Counted(Step(s, PollTick).w, Report(UHD));
  }

  /**
   The other side of RestartIsConfirmed: a first session connects and ends, a second is told UHD once and its
   launch fails, and the third is restarted by the first UHD report made to it.
   */
  lemma RestartOnOneReport() returns (es: seq<Event>)
    ensures Restarts(Run(es).w, Report(UHD)) && Run(es).h.modes == []
  {
    hide Step, Plays, Waits, Restarts;
    es := Extend([], StartClicked);
    es := Extend(es, Report(HD));
    FirstLaunch();
    FirstEnd(Run(es));
    es := Extend(es, ConnectionStarted);
    es := Extend(es, ExecReturned);
    es := Extend(es, SessionEnded(false));
    Relaunch(Run(es));
    es := Extend(es, TimerFired);
    es := Extend(es, Report(HD));
    ToldOnce(Run(es));
    es := Extend(es, PollTick);
    es := Extend(es, Report(UHD));
    FailedLaunch(Run(es));
    es := Extend(es, LaunchFailed(true));
    es := Extend(es, TimerFired);
    es := Extend(es, Report(HD));
    ToldOnceMore(Run(es));
    es := Extend(es, PollTick);
  }

  // ----- the class -----

  class KvmWindow {
    var link: Link
    var play: Play
    var follow: Follow

    function View(): Window
      reads this
    {
      Window(link, play, follow)
    }

    constructor ()
      ensures View() == IDLE_WINDOW
    {
      link := Link(true, true, true, false, 0);
      play := Play(false, false, false, false, false, NO_MODE);
      follow := Follow(false, false, 0, NO_MODE, 0);
    }

    /** stopFollowing() */
    method Unfollow()
      modifies this
      ensures View() == StopFollowing(old(View()))
    {
      follow := follow.(want := false, pending := false, attempt := 0, pendingPolls := 0);
      play := play.(restart := false);
      link := link.(polling := false);
    }

    /** stopFollowing(), then back to showing what the server reports. */
    method Idle()
      modifies this
      ensures View() == GiveUp(old(View()))
    {
      Unfollow();
      if link.bound {
        link := link.(polling := true);
      }
    }

    method Schedule()
      modifies this
      ensures View() == ScheduleReconnect(old(View()))
    {
      if follow.attempt >= RECONNECT_LIMIT {
        Idle();
        return;
      }
      follow := follow.(attempt := follow.attempt + 1);
      follow, link := follow.(pending := true), link.(polling := true, startEnabled := true);
    }

    method FailLaunch(transport: bool)
      modifies this
      ensures View() == AfterLaunchFailed(old(View()), transport)
    {
      play, link := play.(streaming := false, cleanup := false), link.(startEnabled := true);
      if transport && follow.want && follow.attempt > 0 {
        Schedule();
        return;
      }
      Idle();
    }

    /** runStream() up to the start of the session, or to its failure. */
    method Launch(mode: Mode, launch: Launch)
      modifies this
      ensures View() == RunStream(old(View()), mode, launch)
    {
      if play.streaming || !follow.want || !CanStart(mode) {
        return;
      }
      if launch == MouseUnsupported {
        Idle();
        return;
      }
      play := play.(runningMode := mode, restart := false, sessionConnected := false);
      if launch.Refused? {
        FailLaunch(launch.transport);
        return;
      }
      play, link := play.(streaming := true, stopAsked := false), link.(startEnabled := false);
    }

    /** The failure half of pollDisplay()'s answer. */
    method PollError(transient: bool)
      modifies this
      ensures View() == PollFailed(old(View()), transient)
    {
      link := link.(pollBusy := false, pollFailures := link.pollFailures + 1);
      if transient && follow.want && !play.streaming && follow.attempt > 0 {
        if !follow.pending {
          Schedule();
        }
        return;
      }
      if transient && follow.want && play.streaming && link.pollFailures < POLL_FAILURE_LIMIT {
        return;
      }
      if transient && !follow.want && !play.streaming {
        return;
      }
      Unfollow();
      link := link.(bound := false, startEnabled := false);
      if play.streaming {
        play := play.(stopAsked := true);
      }
    }

    /** The success half of pollDisplay()'s answer. */
    method PollDone(mode: Mode, userQuit: bool, launch: Launch)
      modifies this
      ensures View() == PollSucceeded(old(View()), mode, userQuit, launch)
    {
      hide SameMode, RunStream;
      link := link.(pollBusy := false, pollFailures := 0);
      if userQuit && play.streaming {
        follow := follow.(want := false);
      }
      if play.streaming && follow.want && !play.cleanup && !play.restart {
        if SameMode(mode, play.runningMode) {
          follow := follow.(pendingPolls := 0);
          return;
        }
        if follow.pendingPolls > 0 && SameMode(mode, follow.pendingMode) {
          follow := follow.(pendingPolls := follow.pendingPolls + 1);
        } else {
          follow := follow.(pendingMode := mode, pendingPolls := 1);
        }
        if follow.pendingPolls < MODE_STABLE_POLLS {
          return;
        }
        follow, play := follow.(pendingPolls := 0), play.(restart := true, stopAsked := true);
      } else if !play.streaming && follow.want && !follow.pending && CanStart(mode) {
        Launch(mode, launch);
      }
    }

    method ClickStart()
      modifies this
      ensures View() == Start(old(View()))
    {
      if play.streaming || !link.startEnabled {
        return;
      }
      if follow.want {
        Idle();
        return;
      }
      Unfollow();
      follow, link := follow.(want := true), link.(polling := true);
      if !link.pollBusy {
        link := link.(pollBusy := true);
      }
    }

    /** sessionEnded(), with runStream()'s own clean-up before it. */
    method EndSession(userQuit: bool)
      requires play.streaming && play.cleanup
      modifies this
      ensures View() == AfterSession(old(View()), userQuit)
    {
      play, link := play.(cleanup := false, streaming := false), link.(startEnabled := true);
      if userQuit {
        follow := follow.(want := false);
      }
      var wasRestart := play.restart;
      play, follow := play.(restart := false), follow.(pendingPolls := 0);
      if !follow.want {
        follow := follow.(pending := false, attempt := 0);
        if link.bound {
          link := link.(polling := true);
        }
        return;
      }
      if wasRestart {
        return;
      }
      if !play.sessionConnected && follow.attempt == 0 {
        Idle();
        return;
      }
      Schedule();
    }
  }
}
