/** Starting, draining and stopping the server, as a step system: every call, completion, signal and timer may come in
    any order. What the callbacks of one completion do before the event loop turns again is one step. */
module ServerLifecycle {

  import opened Text

  datatype Effect =
    | VerifyCalled | PingCalled | ListenCalled | StartCaught | StartSettled(ok: bool)
    | ShutdownBegun | DrainBegun
    | AppCloseCalled | AppCloseSettled(ok: bool)
    | DisconnectCalled | DisconnectSettled(ok: bool)
    | DeadlineFired | ShutdownSettled(code: nat, timedOut: bool)
    | Exit(handlers: nat, code: nat)
    | StartupComplete | CheckBegun(check: nat) | CheckAnswered(check: nat, ready: bool)

  datatype StartState = NotStarted | Verifying | Pinging | Listening | Up | AwaitingClose | StartFailed

  datatype CloseState = NotClosing | ClosingApp | Disconnecting(appOk: bool) | Closed(appOk: bool, databaseOk: bool)

  datatype ShutdownState = NotCalled | Racing | Settled(code: nat, timedOut: bool)

  /** One installation of the two signal handlers. */
  datatype HandlerSet = HandlerSet(installed: bool, phase: Phase)

  datatype Phase = Armed | Signalled | Exited

  datatype Check = PingPending | Answered(ready: bool)

  datatype Server = Server(
    start: StartState, startupComplete: bool, schemaCompatible: bool, draining: bool,
    close: CloseState, shutdown: ShutdownState, handlers: seq<HandlerSet>, checks: seq<Check>)

  const INITIAL := Server(NotStarted, false, false, false, NotClosing, NotCalled, [], [])

  datatype Event =
    | StartCalled | VerifySettles(ok: bool) | PingSettles(ok: bool) | ListenSettles(ok: bool) | StartResumes
    | ShutdownCalled | AppCloseSettles(ok: bool) | DisconnectSettles(ok: bool) | DeadlineFires
    | HandlersInstalled | HandlersRemoved(handlers: nat) | Signal(handlers: nat) | ExitRuns(handlers: nat)
    | CheckBegins | CheckSettles(check: nat, ok: bool)

  /** The server after a step, and what it called, started or settled on the way. */
  datatype Moved = Moved(server: Server, effects: seq<Effect>)

  // ----- the steps -----

  function ExitCode(close: CloseState): nat {
    if close == Closed(true, true) then 0 else 1
  }

  /** Close the application, unless it is closing already. */
  function CloseResources(s: Server): Server {
    if s.close.NotClosing? then s.(close := ClosingApp) else s
  }

  /** Drain and close, as a failing start and a first shutdown do. */
  function DrainEffects(s: Server): seq<Effect> {
    if s.close.NotClosing? then [DrainBegun, AppCloseCalled] else [DrainBegun]
  }

  function StartFails(s: Server): Moved {
    Moved(CloseResources(s.(draining := true, start := AwaitingClose)), [StartCaught] + DrainEffects(s))
  }

  function Shutdown(s: Server): Moved {
    if !s.shutdown.NotCalled? then Moved(s, [])
    else if s.close.Closed? then
      Moved(s.(draining := true, shutdown := Settled(ExitCode(s.close), false)),
            [ShutdownBegun, DrainBegun, ShutdownSettled(ExitCode(s.close), false)])
    else Moved(CloseResources(s.(draining := true, shutdown := Racing)), [ShutdownBegun] + DrainEffects(s))
  }

  function Start(s: Server): Moved {
    if !s.start.NotStarted? then Moved(s, [])
    else if s.draining then StartFails(s)
    else Moved(s.(start := Verifying), [VerifyCalled])
  }

  function Verified(s: Server, ok: bool): Moved {
    if !s.start.Verifying? then Moved(s, [])
    else if ok then Moved(s.(start := Pinging, schemaCompatible := true), [PingCalled])
    else StartFails(s)
  }

  function Pinged(s: Server, ok: bool): Moved {
    if !s.start.Pinging? then Moved(s, [])
    else if ok then Moved(s.(start := Listening, startupComplete := true), [StartupComplete, ListenCalled])
    else StartFails(s)
  }

  function Listened(s: Server, ok: bool): Moved {
    if !s.start.Listening? then Moved(s, [])
    else if ok then Moved(s.(start := Up), [StartSettled(true)])
    else StartFails(s)
  }

  function StartResumed(s: Server): Moved {
    if s.start.AwaitingClose? && s.close.Closed? then Moved(s.(start := StartFailed), [StartSettled(false)])
    else Moved(s, [])
  }

  function AppClosed(s: Server, ok: bool): Moved {
    if s.close.ClosingApp? then Moved(s.(close := Disconnecting(ok)), [AppCloseSettled(ok), DisconnectCalled])
    else Moved(s, [])
  }

  function Disconnected(s: Server, ok: bool): Moved {
    if !s.close.Disconnecting? then Moved(s, [])
    else
      var close := Closed(s.close.appOk, ok);
      if s.shutdown.Racing? then
        Moved(s.(close := close, shutdown := Settled(ExitCode(close), false)),
              [DisconnectSettled(ok), ShutdownSettled(ExitCode(close), false)])
      else Moved(s.(close := close), [DisconnectSettled(ok)])
  }

  function TimedOut(s: Server): Moved {
    if s.shutdown.Racing? then Moved(s.(shutdown := Settled(1, true)), [DeadlineFired, ShutdownSettled(1, true)])
    else Moved(s, [])
  }

  function Signalling(s: Server, h: nat): Moved {
    if h < |s.handlers| && s.handlers[h] == HandlerSet(true, Armed) then
      Shutdown(s.(handlers := s.handlers[h := HandlerSet(true, Signalled)]))
    else Moved(s, [])
  }

  function Exiting(s: Server, h: nat): Moved {
    if h < |s.handlers| && s.handlers[h].phase.Signalled? && s.shutdown.Settled? then
      Moved(s.(handlers := s.handlers[h := s.handlers[h].(phase := Exited)]), [Exit(h, s.shutdown.code)])
    else Moved(s, [])
  }

  function Removed(s: Server, h: nat): Moved {
    if h < |s.handlers| then Moved(s.(handlers := s.handlers[h := s.handlers[h].(installed := false)]), [])
    else Moved(s, [])
  }

  function CheckBegan(s: Server): Moved {
    var check := |s.checks|;
    if !s.startupComplete || !s.schemaCompatible || s.draining then
      Moved(s.(checks := s.checks + [Answered(false)]), [CheckBegun(check), CheckAnswered(check, false)])
    else Moved(s.(checks := s.checks + [PingPending]), [CheckBegun(check)])
  }

  function CheckSettled(s: Server, check: nat, ok: bool): Moved {
    if check < |s.checks| && s.checks[check].PingPending? then
      Moved(s.(checks := s.checks[check := Answered(ok)]), [CheckAnswered(check, ok)])
    else Moved(s, [])
  }

  function Move(s: Server, e: Event): (m: Moved)
    ensures |m.effects| <= 3
  {
    match e
    case StartCalled => Start(s)
    case VerifySettles(ok) => Verified(s, ok)
    case PingSettles(ok) => Pinged(s, ok)
    case ListenSettles(ok) => Listened(s, ok)
    case StartResumes => StartResumed(s)
    case ShutdownCalled => Shutdown(s)
    case AppCloseSettles(ok) => AppClosed(s, ok)
    case DisconnectSettles(ok) => Disconnected(s, ok)
    case DeadlineFires => TimedOut(s)
    case HandlersInstalled => Moved(s.(handlers := s.handlers + [HandlerSet(true, Armed)]), [])
    case HandlersRemoved(h) => Removed(s, h)
    case Signal(h) => Signalling(s, h)
    case ExitRuns(h) => Exiting(s, h)
    case CheckBegins => CheckBegan(s)
    case CheckSettles(check, ok) => CheckSettled(s, check, ok)
  }

  /** A run, with everything an observer sees of it. */
  function Run(s: Server, events: seq<Event>): Moved
    decreases events
  {
    if events == [] then Moved(s, [])
    else
      var first := Move(s, events[0]);
      var rest := Run(first.server, events[1..]);
      Moved(rest.server, first.effects + rest.effects)
  }

  // ----- the running server -----

  class ReadinessController {
    var startupComplete: bool
    var schemaCompatible: bool
    var draining: bool

    constructor ()
      ensures !startupComplete && !schemaCompatible && !draining
    {
      startupComplete, schemaCompatible, draining := false, false, false;
    }

    method BeginShutdown()
      modifies this
      ensures draining
      ensures startupComplete == old(startupComplete) && schemaCompatible == old(schemaCompatible)
    {
      draining := true;
    }
  }

  class Lifecycle {
    const readiness: ReadinessController
    var start: StartState
    var close: CloseState
    var shutdown: ShutdownState
    var handlers: seq<HandlerSet>
    var checks: seq<Check>
    var calls: seq<Effect>

    constructor (readiness: ReadinessController)
      requires !readiness.startupComplete && !readiness.schemaCompatible && !readiness.draining
      ensures this.readiness == readiness && State() == INITIAL && calls == []
    {
      this.readiness := readiness;
      start, close, shutdown, handlers, checks, calls := NotStarted, NotClosing, NotCalled, [], [], [];
    }

    function State(): Server
      reads this, readiness
    {
      Server(start, readiness.startupComplete, readiness.schemaCompatible, readiness.draining, close, shutdown,
             handlers, checks)
    }

    /** The new state and the new calls are those of the step. */
    twostate predicate Did(e: Event)
      reads this, readiness
    {
      var m := Move(old(State()), e);
      State() == m.server && calls == old(calls) + m.effects
    }

    method BeginClose()
      modifies this, readiness
      ensures State() == CloseResources(old(State()).(draining := true))
      ensures calls == old(calls) + DrainEffects(old(State()))
    {
      readiness.BeginShutdown();
      calls := calls + [DrainBegun];
      if close == NotClosing {
        close, calls := ClosingApp, calls + [AppCloseCalled];
      }
    }

    method FailStart()
      modifies this, readiness
      ensures State() == StartFails(old(State())).server
      ensures calls == old(calls) + StartFails(old(State())).effects
    {
      start, calls := AwaitingClose, calls + [StartCaught];
      BeginClose();
    }

    method OnStartCalled()
      modifies this, readiness
      ensures Did(StartCalled)
    {
      if start == NotStarted {
        if readiness.draining {
          FailStart();
        } else {
          start, calls := Verifying, calls + [VerifyCalled];
        }
      }
    }

    method OnVerifySettled(ok: bool)
      requires start.Verifying?
      modifies this, readiness
      ensures Did(VerifySettles(ok))
    {
      if !ok {
        FailStart();
        return;
      }
      readiness.schemaCompatible := true;
      start, calls := Pinging, calls + [PingCalled];
    }

    method OnPingSettled(ok: bool)
      requires start.Pinging?
      modifies this, readiness
      ensures Did(PingSettles(ok))
    {
      if !ok {
        FailStart();
        return;
      }
      readiness.startupComplete := true;
      start, calls := Listening, calls + [StartupComplete, ListenCalled];
    }

    method OnListenSettled(ok: bool)
      requires start.Listening?
      modifies this, readiness
      ensures Did(ListenSettles(ok))
    {
      if !ok {
        FailStart();
        return;
      }
      start, calls := Up, calls + [StartSettled(true)];
    }

    method Settle(code: nat, timedOut: bool)
      requires !shutdown.Settled?
      modifies this
      ensures State() == old(State()).(shutdown := Settled(code, timedOut))
      ensures calls == old(calls) + [ShutdownSettled(code, timedOut)]
    {
      shutdown, calls := Settled(code, timedOut), calls + [ShutdownSettled(code, timedOut)];
    }

    method OnShutdownCalled()
      modifies this, readiness
      ensures State() == Shutdown(old(State())).server && calls == old(calls) + Shutdown(old(State())).effects
      ensures Did(ShutdownCalled)
    {
      if shutdown == NotCalled {
        calls := calls + [ShutdownBegun];
        BeginClose();
        if close.Closed? {
          Settle(ExitCode(close), false);
        } else {
          shutdown := Racing;
        }
      }
    }

    method OnAppCloseSettled(ok: bool)
      requires close.ClosingApp?
      modifies this
      ensures Did(AppCloseSettles(ok))
    {
      close, calls := Disconnecting(ok), calls + [AppCloseSettled(ok), DisconnectCalled];
    }

    method OnDisconnectSettled(ok: bool)
      requires close.Disconnecting?
      modifies this
      ensures Did(DisconnectSettles(ok))
    {
      close, calls := Closed(close.appOk, ok), calls + [DisconnectSettled(ok)];
      if shutdown == Racing {
        Settle(ExitCode(close), false);
      }
    }

    method OnDeadline()
      requires shutdown.Racing?
      modifies this
      ensures Did(DeadlineFires)
    {
      calls := calls + [DeadlineFired];
      Settle(1, true);
    }

    method OnSignal(h: nat)
      requires h < |handlers|
      modifies this, readiness
      ensures Did(Signal(h))
    {
      if handlers[h] == HandlerSet(true, Armed) {
        handlers := handlers[h := HandlerSet(true, Signalled)];
        OnShutdownCalled();
      }
    }

    method InstallSignalHandlers() returns (h: nat)
      modifies this
      ensures h == old(|handlers|) && Did(HandlersInstalled)
    {
      h := |handlers|;
      handlers := handlers + [HandlerSet(true, Armed)];
    }

    method RemoveSignalHandlers(h: nat)
      requires h < |handlers|
      modifies this
      ensures Did(HandlersRemoved(h))
    {
      handlers := handlers[h := handlers[h].(installed := false)];
    }

    method OnShutdownResult(h: nat)
      requires h < |handlers| && handlers[h].phase.Signalled? && shutdown.Settled?
      modifies this
      ensures Did(ExitRuns(h))
    {
      handlers := handlers[h := handlers[h].(phase := Exited)];
      calls := calls + [Exit(h, shutdown.code)];
    }

    method OnStartResumed()
      requires start.AwaitingClose? && close.Closed?
      modifies this
      ensures Did(StartResumes)
    {
      start, calls := StartFailed, calls + [StartSettled(false)];
    }

    method OnCheckSettled(check: nat, ok: bool)
      requires check < |checks| && checks[check].PingPending?
      modifies this
      ensures Did(CheckSettles(check, ok))
    {
      checks, calls := checks[check := Answered(ok)], calls + [CheckAnswered(check, ok)];
    }

    /** Begin a readiness check; it is answered at once when the server cannot be ready. */
    method OnCheckBegun()
      modifies this
      ensures Did(CheckBegins)
    {
      calls := calls + [CheckBegun(|checks|)];
      if !readiness.startupComplete || !readiness.schemaCompatible || readiness.draining {
        calls, checks := calls + [CheckAnswered(|checks|, false)], checks + [Answered(false)];
      } else {
        checks := checks + [PingPending];
      }
    }
  }

  // ----- observers -----

  /** Fold an observer over effects, in order. */
  function Watch<T>(note: (T, Effect) -> T, t: T, effects: seq<Effect>): T
    decreases |effects|
  {
    if effects == [] then t else Watch(note, note(t, effects[0]), effects[1..])
  }

  lemma WatchShort<T>(note: (T, Effect) -> T, t: T, effects: seq<Effect>)
    requires |effects| <= 3
    decreases |effects|
    ensures Watch(note, t, effects) ==
      if |effects| == 0 then t
      else if |effects| == 1 then note(t, effects[0])
      else if |effects| == 2 then note(note(t, effects[0]), effects[1])
      else note(note(note(t, effects[0]), effects[1]), effects[2])
  {
    if |effects| > 0 {
      WatchShort(note, note(t, effects[0]), effects[1..]);
    }
  }

  lemma {:induction false} WatchAppended<T>(note: (T, Effect) -> T, t: T, a: seq<Effect>, b: seq<Effect>)
    ensures Watch(note, t, a + b) == Watch(note, Watch(note, t, a), b)
    decreases |a|
  {
    if a == [] {
      assert a + b == b;
    } else {
      assert (a + b)[1..] == a[1..] + b;
      WatchAppended(note, note(t, a[0]), a[1..], b);
    }
  }

  lemma RunOfTwo(s: Server, a: Event, b: Event)
    ensures Run(s, [a, b]).effects == Move(s, a).effects + Move(Move(s, a).server, b).effects
  {
    var s1 := Move(s, a).server;
    assert [a, b][1..] == [b] && [b][1..] == [];
    assert Run(s1, [b]).effects == Move(s1, b).effects + [];
    assert Run(s, [a, b]).effects == Move(s, a).effects + Run(s1, [b]).effects;
  }

  // ----- the resources -----

  /** What an observer of the resources has seen. `orderly` records that each disconnect came after the application's
      close had settled, well or badly, that each shutdown answered 0 just when both had finished without error and no
      deadline had passed, and that a start failed only after everything was closed. */
  datatype Resources = Resources(
    closes: nat, closeSettled: bool, closeOk: bool, disconnects: nat, disconnectSettled: bool, disconnectOk: bool,
    deadlinePassed: bool, results: nat, code: nat, orderly: bool)

  const NO_RESOURCES := Resources(0, false, false, 0, false, false, false, 0, 0, true)

  function NoteResources(r: Resources, e: Effect): Resources {
    match e
    case AppCloseCalled => r.(closes := r.closes + 1)
    case AppCloseSettled(ok) => r.(closeSettled := true, closeOk := ok)
    case DisconnectCalled => r.(disconnects := r.disconnects + 1, orderly := r.orderly && r.closeSettled)
    case DisconnectSettled(ok) => r.(disconnectSettled := true, disconnectOk := ok)
    case DeadlineFired => r.(deadlinePassed := true)
    case ShutdownSettled(code, timedOut) =>
      r.(results := r.results + 1, code := code,
         orderly := r.orderly && (timedOut <==> r.deadlinePassed)
           && (code == 0 <==> r.closeOk && r.disconnectOk && !r.deadlinePassed))
    case StartSettled(ok) => r.(orderly := r.orderly && (ok || r.disconnectSettled))
    case _ => r
  }

  ghost predicate ResourcesFit(s: Server, r: Resources) {
    && r.orderly
    && r.closes == (if s.close.NotClosing? then 0 else 1)
    && r.closeSettled == (s.close.Disconnecting? || s.close.Closed?)
    && r.closeOk == (r.closeSettled && s.close.appOk)
    && r.disconnects == (if r.closeSettled then 1 else 0)
    && r.disconnectSettled == s.close.Closed?
    && r.disconnectOk == (s.close.Closed? && s.close.databaseOk)
    && r.results == (if s.shutdown.Settled? then 1 else 0)
    && (s.shutdown.Settled? ==> r.code == s.shutdown.code)
    && r.deadlinePassed == (s.shutdown.Settled? && s.shutdown.timedOut)
    && (s.shutdown.Racing? ==> !s.close.NotClosing? && !s.close.Closed?)
    && (s.shutdown.Settled? && s.shutdown.timedOut ==> s.shutdown.code == 1)
    && (s.shutdown.Settled? && !s.shutdown.timedOut ==> s.close.Closed? && s.shutdown.code == ExitCode(s.close))
  }

  ghost predicate KeepsResources(m: Moved, r: Resources) {
    ResourcesFit(m.server, Watch(NoteResources, r, m.effects))
  }

  lemma FailingStartKeepsResources(s: Server, r: Resources)
    requires ResourcesFit(s, r)
    ensures KeepsResources(StartFails(s), r)
  {
    WatchShort(NoteResources, r, StartFails(s).effects);
  }

  lemma StartKeepsResources(s: Server, e: Event, r: Resources)
    requires ResourcesFit(s, r)
    requires e.StartCalled? || e.VerifySettles? || e.PingSettles? || e.ListenSettles? || e.StartResumes?
    ensures KeepsResources(Move(s, e), r)
  {
    if Move(s, e) == StartFails(s) {
      FailingStartKeepsResources(s, r);
    } else {
      WatchShort(NoteResources, r, Move(s, e).effects);
    }
  }

  lemma ShutdownKeepsResources(s: Server, r: Resources)
    requires ResourcesFit(s, r)
    ensures KeepsResources(Shutdown(s), r)
  {
    WatchShort(NoteResources, r, Shutdown(s).effects);
  }

  lemma CloseKeepsResources(s: Server, e: Event, r: Resources)
    requires ResourcesFit(s, r) && (e.AppCloseSettles? || e.DisconnectSettles? || e.DeadlineFires?)
    ensures KeepsResources(Move(s, e), r)
  {
    WatchShort(NoteResources, r, Move(s, e).effects);
  }

  lemma SignalKeepsResources(s: Server, e: Event, r: Resources)
    requires ResourcesFit(s, r) && (e.HandlersInstalled? || e.HandlersRemoved? || e.Signal? || e.ExitRuns?)
    ensures KeepsResources(Move(s, e), r)
  {
    if e.Signal? {
      if e.handlers < |s.handlers| {
        ShutdownKeepsResources(s.(handlers := s.handlers[e.handlers := HandlerSet(true, Signalled)]), r);
      }
    } else {
      WatchShort(NoteResources, r, Move(s, e).effects);
    }
  }

  lemma CheckKeepsResources(s: Server, e: Event, r: Resources)
    requires ResourcesFit(s, r) && (e.CheckBegins? || e.CheckSettles?)
    ensures KeepsResources(Move(s, e), r)
  {
    WatchShort(NoteResources, r, Move(s, e).effects);
  }

  lemma MoveKeepsResources(s: Server, e: Event, r: Resources)
    requires ResourcesFit(s, r)
    ensures KeepsResources(Move(s, e), r)
  {
    match e
    case StartCalled | VerifySettles(_) | PingSettles(_) | ListenSettles(_) | StartResumes =>
      StartKeepsResources(s, e, r);
    case ShutdownCalled => ShutdownKeepsResources(s, r);
    case AppCloseSettles(_) | DisconnectSettles(_) | DeadlineFires => CloseKeepsResources(s, e, r);
    case HandlersInstalled | HandlersRemoved(_) | Signal(_) | ExitRuns(_) => SignalKeepsResources(s, e, r);
    case CheckBegins | CheckSettles(_, _) => CheckKeepsResources(s, e, r);
  }

  lemma {:induction false} RunKeepsResources(s: Server, events: seq<Event>, r: Resources)
    requires ResourcesFit(s, r)
    ensures ResourcesFit(Run(s, events).server, Watch(NoteResources, r, Run(s, events).effects))
    decreases events
  {
    if events != [] {
      var first := Move(s, events[0]);
      MoveKeepsResources(s, events[0], r);
      RunKeepsResources(first.server, events[1..], Watch(NoteResources, r, first.effects));
      WatchAppended(NoteResources, r, first.effects, Run(first.server, events[1..]).effects);
    }
  }

  /** In every run the application is closed and the database disconnected at most once, the disconnect follows the
      settled close even when that failed, the shutdown has at most one result, a failed start is reported only after
      everything is closed, and the result is 0 exactly when both finished without error before any deadline. */
  lemma EveryRunIsOrderly(events: seq<Event>)
    ensures var r := Watch(NoteResources, NO_RESOURCES, Run(INITIAL, events).effects);
      && r.orderly && r.closes <= 1 && r.disconnects <= 1 && r.results <= 1
      && (r.disconnects == 1 <==> r.closeSettled)
      && (r.results == 1 ==> (r.code == 0 <==> r.closeOk && r.disconnectOk && !r.deadlinePassed))
  {
    RunKeepsResources(INITIAL, events, NO_RESOURCES);
  }

  lemma MoveKeepsResult(s: Server, e: Event)
    requires s.shutdown.Settled?
    ensures Move(s, e).server.shutdown == s.shutdown
  {
  }

  lemma {:induction false} ResultIsFinal(s: Server, events: seq<Event>)
    requires s.shutdown.Settled?
    ensures Run(s, events).server.shutdown == s.shutdown
    decreases events
  {
    if events != [] {
      MoveKeepsResult(s, events[0]);
      ResultIsFinal(Move(s, events[0]).server, events[1..]);
    }
  }

  // ----- exits -----

  /** What an observer of the process exits has seen. `orderly` records that the shutdown settled once, and that each
      set of signal handlers exited at most once, after that, with its result. */
  datatype Exits = Exits(result: Option<nat>, exited: set<nat>, codes: set<nat>, orderly: bool)

  const NO_EXITS := Exits(None, {}, {}, true)

  function NoteExits(x: Exits, e: Effect): Exits {
    if e.ShutdownSettled? then x.(result := Some(e.code), orderly := x.orderly && x.result.None?)
    else if e.Exit? then
      x.(exited := x.exited + {e.handlers}, codes := x.codes + {e.code},
         orderly := x.orderly && e.handlers !in x.exited && x.result == Some(e.code))
    else x
  }

  ghost predicate ExitsFit(s: Server, x: Exits) {
    && x.orderly
    && x.result == (if s.shutdown.Settled? then Some(s.shutdown.code) else None)
    && x.codes <= (if s.shutdown.Settled? then {s.shutdown.code} else {})
    && (forall h: nat :: h in x.exited <==> h < |s.handlers| && s.handlers[h].phase.Exited?)
    && (forall h: nat :: h < |s.handlers| && !s.handlers[h].phase.Armed? ==> !s.shutdown.NotCalled?)
  }

  ghost predicate KeepsExits(m: Moved, x: Exits) {
    ExitsFit(m.server, Watch(NoteExits, x, m.effects))
  }

  /** A step that leaves handlers and shutdown alone, and neither settles nor exits. */
  lemma UnrelatedKeepsExits(s: Server, m: Moved, x: Exits)
    requires ExitsFit(s, x) && m.server.handlers == s.handlers && m.server.shutdown == s.shutdown && |m.effects| <= 3
    requires forall k :: 0 <= k < |m.effects| ==> !m.effects[k].ShutdownSettled? && !m.effects[k].Exit?
    ensures KeepsExits(m, x)
  {
    WatchShort(NoteExits, x, m.effects);
  }

  lemma StartKeepsExits(s: Server, e: Event, x: Exits)
    requires ExitsFit(s, x)
    requires e.StartCalled? || e.VerifySettles? || e.PingSettles? || e.ListenSettles? || e.StartResumes?
    ensures KeepsExits(Move(s, e), x)
  {
    UnrelatedKeepsExits(s, Move(s, e), x);
  }

  lemma CloseKeepsExits(s: Server, e: Event, x: Exits)
    requires ExitsFit(s, x) && (e.AppCloseSettles? || e.DisconnectSettles? || e.DeadlineFires? || e.ShutdownCalled?)
    ensures KeepsExits(Move(s, e), x)
  {
    WatchShort(NoteExits, x, Move(s, e).effects);
  }

  lemma SignalKeepsExits(s: Server, e: Event, x: Exits)
    requires ExitsFit(s, x) && (e.HandlersInstalled? || e.HandlersRemoved? || e.Signal? || e.ExitRuns?)
    ensures KeepsExits(Move(s, e), x)
  {
    WatchShort(NoteExits, x, Move(s, e).effects);
  }

  lemma CheckKeepsExits(s: Server, e: Event, x: Exits)
    requires ExitsFit(s, x) && (e.CheckBegins? || e.CheckSettles?)
    ensures KeepsExits(Move(s, e), x)
  {
    WatchShort(NoteExits, x, Move(s, e).effects);
  }

  lemma MoveKeepsExits(s: Server, e: Event, x: Exits)
    requires ExitsFit(s, x)
    ensures KeepsExits(Move(s, e), x)
  {
    match e
    case StartCalled | VerifySettles(_) | PingSettles(_) | ListenSettles(_) | StartResumes => StartKeepsExits(s, e, x);
    case ShutdownCalled | AppCloseSettles(_) | DisconnectSettles(_) | DeadlineFires => CloseKeepsExits(s, e, x);
    case HandlersInstalled | HandlersRemoved(_) | Signal(_) | ExitRuns(_) => SignalKeepsExits(s, e, x);
    case CheckBegins | CheckSettles(_, _) => CheckKeepsExits(s, e, x);
  }

  lemma {:induction false} RunKeepsExits(s: Server, events: seq<Event>, x: Exits)
    requires ExitsFit(s, x)
    ensures ExitsFit(Run(s, events).server, Watch(NoteExits, x, Run(s, events).effects))
    decreases events
  {
    if events != [] {
      var first := Move(s, events[0]);
      MoveKeepsExits(s, events[0], x);
      RunKeepsExits(first.server, events[1..], Watch(NoteExits, x, first.effects));
      WatchAppended(NoteExits, x, first.effects, Run(first.server, events[1..]).effects);
    }
  }

  /** In every run each set of signal handlers exits at most once, every exit carries the one shutdown result, and an
      exit with 0 means that both closing steps finished without error and the deadline never passed. */
  lemma EveryExitIsHonest(events: seq<Event>)
    ensures var effects := Run(INITIAL, events).effects;
      var x := Watch(NoteExits, NO_EXITS, effects);
      var r := Watch(NoteResources, NO_RESOURCES, effects);
      && x.orderly
      && (x.codes != {} ==> x.codes == {r.code} && r.results == 1)
      && (0 in x.codes ==> r.closeOk && r.disconnectOk && !r.deadlinePassed)
      && (x.codes != {} && r.closeOk && r.disconnectOk && !r.deadlinePassed ==> x.codes == {0})
  {
    RunKeepsExits(INITIAL, events, NO_EXITS);
    RunKeepsResources(INITIAL, events, NO_RESOURCES);
  }

  /** A set of handlers that has had a signal is never left waiting: once the deadline passes, if nothing settled
      sooner, its exit can run. */
  lemma SignalledHandlersExit(events: seq<Event>, h: nat)
    requires var s := Run(INITIAL, events).server; h < |s.handlers| && s.handlers[h].phase.Signalled?
    ensures exists code :: Exit(h, code) in Run(Run(INITIAL, events).server, [DeadlineFires, ExitRuns(h)]).effects
  {
    RunKeepsExits(INITIAL, events, NO_EXITS);
    var s := Run(INITIAL, events).server;
    var s1 := Move(s, DeadlineFires).server;
    assert Move(s1, ExitRuns(h)).effects[0] == Exit(h, s1.shutdown.code);
    RunOfTwo(s, DeadlineFires, ExitRuns(h));
    assert Exit(h, s1.shutdown.code) in Run(s, [DeadlineFires, ExitRuns(h)]).effects;
  }

  // ----- readiness -----

  /** What an observer of the readiness checks has seen. `orderly` records that each check was answered once, and that a
      check answered "ready" had begun before any draining and after the startup checks had passed. */
  datatype Checks = Checks(startupComplete: bool, drained: bool, late: set<nat>, early: set<nat>, answered: set<nat>,
                           orderly: bool)

  const NO_CHECKS := Checks(false, false, {}, {}, {}, true)

  function NoteChecks(c: Checks, e: Effect): Checks {
    if e.StartupComplete? then c.(startupComplete := true)
    else if e.DrainBegun? then c.(drained := true)
    else if e.CheckBegun? then
      c.(late := if c.drained then c.late + {e.check} else c.late,
         early := if c.startupComplete then c.early else c.early + {e.check})
    else if e.CheckAnswered? then
      c.(answered := c.answered + {e.check},
         orderly := c.orderly && e.check !in c.answered && (e.ready ==> e.check !in c.late && e.check !in c.early))
    else c
  }

  ghost predicate ChecksFit(s: Server, c: Checks) {
    && c.orderly && c.drained == s.draining && c.startupComplete == s.startupComplete
    && (forall i :: i in c.late || i in c.early ==> i < |s.checks| && s.checks[i].Answered?)
    && (forall i: nat :: i in c.answered <==> i < |s.checks| && s.checks[i].Answered?)
  }

  ghost predicate KeepsChecks(m: Moved, c: Checks) {
    ChecksFit(m.server, Watch(NoteChecks, c, m.effects))
  }

  lemma FailingStartKeepsChecks(s: Server, c: Checks)
    requires ChecksFit(s, c)
    ensures KeepsChecks(StartFails(s), c)
  {
    WatchShort(NoteChecks, c, StartFails(s).effects);
  }

  lemma StartKeepsChecks(s: Server, e: Event, c: Checks)
    requires ChecksFit(s, c)
    requires e.StartCalled? || e.VerifySettles? || e.PingSettles? || e.ListenSettles? || e.StartResumes?
    ensures KeepsChecks(Move(s, e), c)
  {
    if Move(s, e) == StartFails(s) {
      FailingStartKeepsChecks(s, c);
    } else {
      WatchShort(NoteChecks, c, Move(s, e).effects);
    }
  }

  lemma ShutdownKeepsChecks(s: Server, c: Checks)
    requires ChecksFit(s, c)
    ensures KeepsChecks(Shutdown(s), c)
  {
    WatchShort(NoteChecks, c, Shutdown(s).effects);
  }

  lemma CloseKeepsChecks(s: Server, e: Event, c: Checks)
    requires ChecksFit(s, c) && (e.AppCloseSettles? || e.DisconnectSettles? || e.DeadlineFires?)
    ensures KeepsChecks(Move(s, e), c)
  {
    WatchShort(NoteChecks, c, Move(s, e).effects);
  }

  lemma SignalKeepsChecks(s: Server, e: Event, c: Checks)
    requires ChecksFit(s, c) && (e.HandlersInstalled? || e.HandlersRemoved? || e.Signal? || e.ExitRuns?)
    ensures KeepsChecks(Move(s, e), c)
  {
    if e.Signal? {
      if e.handlers < |s.handlers| {
        ShutdownKeepsChecks(s.(handlers := s.handlers[e.handlers := HandlerSet(true, Signalled)]), c);
      }
    } else {
      WatchShort(NoteChecks, c, Move(s, e).effects);
    }
  }

  lemma CheckKeepsChecks(s: Server, e: Event, c: Checks)
    requires ChecksFit(s, c) && (e.CheckBegins? || e.CheckSettles?)
    ensures KeepsChecks(Move(s, e), c)
  {
    WatchShort(NoteChecks, c, Move(s, e).effects);
  }

  lemma MoveKeepsChecks(s: Server, e: Event, c: Checks)
    requires ChecksFit(s, c)
    ensures KeepsChecks(Move(s, e), c)
  {
    match e
    case StartCalled | VerifySettles(_) | PingSettles(_) | ListenSettles(_) | StartResumes => StartKeepsChecks(s, e, c);
    case ShutdownCalled => ShutdownKeepsChecks(s, c);
    case AppCloseSettles(_) | DisconnectSettles(_) | DeadlineFires => CloseKeepsChecks(s, e, c);
    case HandlersInstalled | HandlersRemoved(_) | Signal(_) | ExitRuns(_) => SignalKeepsChecks(s, e, c);
    case CheckBegins | CheckSettles(_, _) => CheckKeepsChecks(s, e, c);
  }

  lemma {:induction false} RunKeepsChecks(s: Server, events: seq<Event>, c: Checks)
    requires ChecksFit(s, c)
    ensures ChecksFit(Run(s, events).server, Watch(NoteChecks, c, Run(s, events).effects))
    decreases events
  {
    if events != [] {
      var first := Move(s, events[0]);
      MoveKeepsChecks(s, events[0], c);
      RunKeepsChecks(first.server, events[1..], Watch(NoteChecks, c, first.effects));
      WatchAppended(NoteChecks, c, first.effects, Run(first.server, events[1..]).effects);
    }
  }

  /** In every run a check begun once draining has begun, or before the startup checks have passed, never answers
      "ready". */
  lemma LateChecksAnswerFalse(events: seq<Event>)
    ensures Watch(NoteChecks, NO_CHECKS, Run(INITIAL, events).effects).orderly
  {
    RunKeepsChecks(INITIAL, events, NO_CHECKS);
  }

  // ----- every step, from what has been seen -----

  type Log = seq<Effect>

  /** How many sets of handlers have been installed. */
  function Installs(events: seq<Event>): nat {
    if events == [] then 0
    else Installs(events[..|events| - 1]) + if events[|events| - 1].HandlersInstalled? then 1 else 0
  }

  /** The h-th set has been installed, and removed since. */
  predicate WasRemoved(events: seq<Event>, h: nat) {
    events != [] &&
    var before := events[..|events| - 1];
    WasRemoved(before, h) || (events[|events| - 1] == HandlersRemoved(h) && h < Installs(before))
  }

  /** The h-th set has had a signal while it was installed. */
  predicate WasSignalled(events: seq<Event>, h: nat) {
    events != [] &&
    var before := events[..|events| - 1];
    WasSignalled(before, h)
    || (events[|events| - 1] == Signal(h) && h < Installs(before) && !WasRemoved(before, h))
  }

  /** The h-th set has been installed, not removed, and has had no signal. */
  predicate Hears(events: seq<Event>, h: nat) {
    h < Installs(events) && !WasRemoved(events, h) && !WasSignalled(events, h)
  }

  /** What an observer has seen of a start and of the closing. */
  datatype Starting = Starting(
    verify: bool, ping: bool, complete: bool, listen: bool, caught: bool, settled: Option<bool>)

  datatype Closing = Closing(
    drain: bool, shutdown: bool, close: bool, app: Option<bool>, disconnect: bool, database: Option<bool>,
    result: Option<nat>)

  const NO_START := Starting(false, false, false, false, false, None)
  const NO_CLOSE := Closing(false, false, false, None, false, None, None)

  function NoteStarting(t: Starting, e: Effect): Starting {
    match e
    case VerifyCalled => t.(verify := true)
    case PingCalled => t.(ping := true)
    case StartupComplete => t.(complete := true)
    case ListenCalled => t.(listen := true)
    case StartCaught => t.(caught := true)
    case StartSettled(ok) => t.(settled := Some(ok))
    case _ => t
  }

  function NoteClosing(c: Closing, e: Effect): Closing {
    match e
    case DrainBegun => c.(drain := true)
    case ShutdownBegun => c.(shutdown := true)
    case AppCloseCalled => c.(close := true)
    case AppCloseSettled(ok) => c.(app := Some(ok))
    case DisconnectCalled => c.(disconnect := true)
    case DisconnectSettled(ok) => c.(database := Some(ok))
    case ShutdownSettled(code, _) => c.(result := Some(code))
    case _ => c
  }

  function StartSeen(log: Log): Starting {
    Watch(NoteStarting, NO_START, log)
  }

  function CloseSeen(log: Log): Closing {
    Watch(NoteClosing, NO_CLOSE, log)
  }

  /** Draining, and closing unless that has begun. */
  function Drains(c: Closing): Log {
    if c.close then [DrainBegun] else [DrainBegun, AppCloseCalled]
  }

  function CodeOf(app: Option<bool>, database: bool): nat {
    if app.Some? && app.value && database then 0 else 1
  }

  /** What a call of shutdown does: the first drains and closes, or tells how the closing went; others do nothing. */
  function ShutsDown(c: Closing): Log {
    if c.shutdown then []
    else if c.database.Some? then [ShutdownBegun, DrainBegun, ShutdownSettled(CodeOf(c.app, c.database.value), false)]
    else [ShutdownBegun] + Drains(c)
  }

  /** A start that has failed drains and closes. */
  function Fails(c: Closing): Log {
    [StartCaught] + Drains(c)
  }

  predicate ConcernsStart(e: Event) {
    e.StartCalled? || e.VerifySettles? || e.PingSettles? || e.ListenSettles? || e.StartResumes?
  }

  predicate ConcernsClosing(e: Event) {
    e.ShutdownCalled? || e.AppCloseSettles? || e.DisconnectSettles? || e.DeadlineFires?
  }

  /** What an event makes the server do, from what has been seen: every outside call answers once, and its answer asks
      for the next call. */
  function StartAnswer(t: Starting, c: Closing, e: Event): Log
    requires ConcernsStart(e)
  {
    match e
    case StartCalled => if t.verify || t.caught then [] else if c.drain then Fails(c) else [VerifyCalled]
    case VerifySettles(ok) =>
      if !t.verify || t.ping || t.caught then [] else if ok then [PingCalled] else Fails(c)
    case PingSettles(ok) =>
      if !t.ping || t.listen || t.caught then [] else if ok then [StartupComplete, ListenCalled] else Fails(c)
    case ListenSettles(ok) =>
      if !t.listen || t.settled.Some? || t.caught then [] else if ok then [StartSettled(true)] else Fails(c)
    case StartResumes => if t.caught && t.settled.None? && c.database.Some? then [StartSettled(false)] else []
  }

  function CloseAnswer(c: Closing, e: Event): Log
    requires ConcernsClosing(e)
  {
    match e
    case ShutdownCalled => ShutsDown(c)
    case AppCloseSettles(ok) => if c.close && c.app.None? then [AppCloseSettled(ok), DisconnectCalled] else []
    case DisconnectSettles(ok) =>
      if !c.disconnect || c.database.Some? then []
      else if c.shutdown && c.result.None? then [DisconnectSettled(ok), ShutdownSettled(CodeOf(c.app, ok), false)]
      else [DisconnectSettled(ok)]
    case DeadlineFires => if c.shutdown && c.result.None? then [DeadlineFired, ShutdownSettled(1, true)] else []
  }

  ghost predicate StartTold(s: Server, t: Starting) {
    && s.startupComplete == t.complete && s.schemaCompatible == t.ping
    && (t.complete ==> t.listen) && (t.listen ==> t.ping) && (t.ping ==> t.verify)
    && (t.settled.Some? ==> if t.settled.value then t.listen && !t.caught else t.caught)
    && s.start ==
      if t.caught then if t.settled.Some? then StartFailed else AwaitingClose
      else if t.settled.Some? then Up
      else if t.listen then Listening
      else if t.ping then Pinging
      else if t.verify then Verifying else NotStarted
  }

  ghost predicate CloseTold(s: Server, c: Closing) {
    && s.draining == c.drain && (c.shutdown ==> c.drain && c.close) && (c.result.Some? ==> c.shutdown)
    && (c.app.Some? ==> c.close) && (c.disconnect <==> c.app.Some?) && (c.database.Some? ==> c.disconnect)
    && s.close ==
      (if !c.close then NotClosing
       else if c.app.None? then ClosingApp
       else if c.database.None? then Disconnecting(c.app.value) else Closed(c.app.value, c.database.value))
    && (s.shutdown.NotCalled? <==> !c.shutdown) && (s.shutdown.Settled? <==> c.result.Some?)
    && (s.shutdown.Settled? ==> s.shutdown.code == c.result.value)
  }

  ghost predicate StaysTold(m: Moved, t: Starting, c: Closing) {
    StartTold(m.server, Watch(NoteStarting, t, m.effects)) && CloseTold(m.server, Watch(NoteClosing, c, m.effects))
  }

  lemma FailingStartIsTold(s: Server, t: Starting, c: Closing)
    requires StartTold(s, t) && CloseTold(s, c) && t.settled.None? && !t.caught
    ensures StartFails(s).effects == Fails(c) && StaysTold(StartFails(s), t, c)
  {
    WatchShort(NoteStarting, t, Fails(c));
    WatchShort(NoteClosing, c, Fails(c));
  }

  lemma StartIsTold(s: Server, t: Starting, c: Closing, e: Event)
    requires StartTold(s, t) && CloseTold(s, c) && ConcernsStart(e)
    ensures Move(s, e).effects == StartAnswer(t, c, e) && StaysTold(Move(s, e), t, c)
  {
    if Move(s, e) == StartFails(s) {
      FailingStartIsTold(s, t, c);
    } else {
      WatchShort(NoteStarting, t, Move(s, e).effects);
      WatchShort(NoteClosing, c, Move(s, e).effects);
    }
  }

  /** Effects that are not the start's leave what has been seen of it. */
  lemma OthersLeaveStart(t: Starting, effects: Log)
    requires |effects| <= 3
    requires forall k :: 0 <= k < |effects| ==> NoteStarting(t, effects[k]) == t
    ensures Watch(NoteStarting, t, effects) == t
  {
    WatchShort(NoteStarting, t, effects);
  }

  lemma OthersLeaveClosing(c: Closing, effects: Log)
    requires |effects| <= 3
    requires forall k :: 0 <= k < |effects| ==> NoteClosing(c, effects[k]) == c
    ensures Watch(NoteClosing, c, effects) == c
  {
    WatchShort(NoteClosing, c, effects);
  }

  lemma ShutdownAnswers(s: Server, c: Closing)
    requires CloseTold(s, c)
    ensures Shutdown(s).effects == ShutsDown(c)
  {
  }

  lemma ShutdownIsTold(s: Server, t: Starting, c: Closing)
    requires StartTold(s, t) && CloseTold(s, c)
    ensures Shutdown(s).effects == ShutsDown(c) && StaysTold(Shutdown(s), t, c)
  {
    ShutdownAnswers(s, c);
    OthersLeaveStart(t, ShutsDown(c));
    ShutdownStaysTold(s, c);
  }

  lemma ShutdownStaysTold(s: Server, c: Closing)
    requires CloseTold(s, c)
    ensures CloseTold(Shutdown(s).server, Watch(NoteClosing, c, Shutdown(s).effects))
  {
    WatchShort(NoteClosing, c, Shutdown(s).effects);
  }

  lemma CloseAnswers(s: Server, c: Closing, e: Event)
    requires CloseTold(s, c) && ConcernsClosing(e) && !e.ShutdownCalled?
    ensures Move(s, e).effects == CloseAnswer(c, e)
  {
  }

  lemma AppCloseIsTold(s: Server, c: Closing, ok: bool)
    requires CloseTold(s, c)
    ensures CloseTold(AppClosed(s, ok).server, Watch(NoteClosing, c, AppClosed(s, ok).effects))
  {
    WatchShort(NoteClosing, c, AppClosed(s, ok).effects);
  }

  lemma DisconnectIsTold(s: Server, c: Closing, ok: bool)
    requires CloseTold(s, c)
    ensures CloseTold(Disconnected(s, ok).server, Watch(NoteClosing, c, Disconnected(s, ok).effects))
  {
    WatchShort(NoteClosing, c, Disconnected(s, ok).effects);
  }

  lemma DeadlineIsTold(s: Server, c: Closing)
    requires CloseTold(s, c)
    ensures CloseTold(TimedOut(s).server, Watch(NoteClosing, c, TimedOut(s).effects))
  {
    WatchShort(NoteClosing, c, TimedOut(s).effects);
  }

  lemma ClosingLeavesStart(s: Server, t: Starting, c: Closing, e: Event)
    requires StartTold(s, t) && CloseTold(s, c) && ConcernsClosing(e) && !e.ShutdownCalled?
    ensures StartTold(Move(s, e).server, Watch(NoteStarting, t, Move(s, e).effects))
  {
    CloseAnswers(s, c, e);
    OthersLeaveStart(t, CloseAnswer(c, e));
  }

  lemma CloseIsTold(s: Server, t: Starting, c: Closing, e: Event)
    requires StartTold(s, t) && CloseTold(s, c) && ConcernsClosing(e) && !e.ShutdownCalled?
    ensures StaysTold(Move(s, e), t, c)
  {
    ClosingLeavesStart(s, t, c, e);
    match e
    case AppCloseSettles(ok) => AppCloseIsTold(s, c, ok);
    case DisconnectSettles(ok) => DisconnectIsTold(s, c, ok);
    case DeadlineFires => DeadlineIsTold(s, c);
  }

  lemma SignalIsTold(s: Server, t: Starting, c: Closing, h: nat)
    requires StartTold(s, t) && CloseTold(s, c)
    ensures StaysTold(Signalling(s, h), t, c)
  {
    if h < |s.handlers| {
      ShutdownIsTold(s.(handlers := s.handlers[h := HandlerSet(true, Signalled)]), t, c);
    }
  }

  /** Handlers and checks have no part in starting and closing, a signal that shuts down apart. */
  lemma OthersStayTold(s: Server, t: Starting, c: Closing, e: Event)
    requires !ConcernsStart(e) && !ConcernsClosing(e) && !e.Signal?
    ensures var m := Move(s, e);
      && m.server.(handlers := s.handlers, checks := s.checks) == s
      && Watch(NoteStarting, t, m.effects) == t && Watch(NoteClosing, c, m.effects) == c
  {
    OthersLeaveStart(t, Move(s, e).effects);
    OthersLeaveClosing(c, Move(s, e).effects);
  }

  lemma RestIsTold(s: Server, t: Starting, c: Closing, e: Event)
    requires StartTold(s, t) && CloseTold(s, c) && !ConcernsStart(e) && !ConcernsClosing(e)
    ensures StaysTold(Move(s, e), t, c)
  {
    if e.Signal? {
      SignalIsTold(s, t, c, e.handlers);
    } else {
      OthersStayTold(s, t, c, e);
    }
  }

  lemma MoveIsTold(s: Server, t: Starting, c: Closing, e: Event)
    requires StartTold(s, t) && CloseTold(s, c)
    ensures StaysTold(Move(s, e), t, c)
  {
    if ConcernsStart(e) {
      StartIsTold(s, t, c, e);
    } else if e.ShutdownCalled? {
      ShutdownIsTold(s, t, c);
    } else if ConcernsClosing(e) {
      CloseIsTold(s, t, c, e);
    } else {
      RestIsTold(s, t, c, e);
    }
  }

  lemma {:induction false} RunIsTold(s: Server, events: seq<Event>, t: Starting, c: Closing)
    requires StartTold(s, t) && CloseTold(s, c)
    ensures StaysTold(Run(s, events), t, c)
    decreases events
  {
    if events != [] {
      var first := Move(s, events[0]);
      MoveIsTold(s, t, c, events[0]);
      RunIsTold(first.server, events[1..], Watch(NoteStarting, t, first.effects), Watch(NoteClosing, c, first.effects));
      WatchAppended(NoteStarting, t, first.effects, Run(first.server, events[1..]).effects);
      WatchAppended(NoteClosing, c, first.effects, Run(first.server, events[1..]).effects);
    }
  }

  lemma RunStep(s: Server, events: seq<Event>)
    requires events != []
    ensures var first := Move(s, events[0]);
      var rest := Run(first.server, events[1..]);
      Run(s, events) == Moved(rest.server, first.effects + rest.effects)
  {
  }

  lemma {:induction false} RunAppends(s: Server, events: seq<Event>, e: Event)
    ensures var r, m := Run(s, events), Move(Run(s, events).server, e);
      Run(s, events + [e]) == Moved(m.server, r.effects + m.effects)
    decreases events
  {
    if events == [] {
      assert events + [e] == [e] && [e][1..] == [];
      RunStep(s, [e]);
      assert Move(s, e).effects + [] == Move(s, e).effects == [] + Move(s, e).effects;
    } else {
      var first := Move(s, events[0]);
      assert (events + [e])[0] == events[0] && (events + [e])[1..] == events[1..] + [e];
      RunStep(s, events);
      RunStep(s, events + [e]);
      RunAppends(first.server, events[1..], e);
      var rest, m := Run(first.server, events[1..]), Move(Run(first.server, events[1..]).server, e);
      assert first.effects + (rest.effects + m.effects) == (first.effects + rest.effects) + m.effects;
    }
  }

  /** How many checks have begun. */
  function Begun(events: seq<Event>): nat {
    if events == [] then 0
    else Begun(events[..|events| - 1]) + if events[|events| - 1].CheckBegins? then 1 else 0
  }

  /** The handlers are what the events have made of them. */
  ghost predicate HandlersTold(s: Server, events: seq<Event>) {
    && |s.handlers| == Installs(events)
    && (forall h: nat :: h < |s.handlers| ==>
          && (s.handlers[h].installed <==> !WasRemoved(events, h))
          && (s.handlers[h].phase.Armed? <==> !WasSignalled(events, h)))
    && (forall h: nat :: WasSignalled(events, h) || WasRemoved(events, h) ==> h < |s.handlers|)
  }

  lemma OthersLeaveHandlers(s: Server, e: Event)
    requires !e.HandlersInstalled? && !e.HandlersRemoved? && !e.Signal? && !e.ExitRuns?
    ensures Move(s, e).server.handlers == s.handlers
  {
  }

  lemma ShutdownLeavesHandlers(s: Server, h: nat)
    ensures Signalling(s, h).server.handlers ==
      if h < |s.handlers| && s.handlers[h] == HandlerSet(true, Armed) then s.handlers[h := HandlerSet(true, Signalled)]
      else s.handlers
  {
  }

  lemma OthersLeaveChecks(s: Server, e: Event)
    requires !e.CheckBegins?
    ensures |Move(s, e).server.checks| == |s.checks|
  {
  }

  lemma HistoryGrows(before: seq<Event>, e: Event)
    ensures Installs(before + [e]) == Installs(before) + if e.HandlersInstalled? then 1 else 0
    ensures forall h: nat :: WasRemoved(before + [e], h) <==>
        WasRemoved(before, h) || (e == HandlersRemoved(h) && h < Installs(before))
    ensures forall h: nat :: WasSignalled(before + [e], h) <==>
        WasSignalled(before, h) || (e == Signal(h) && h < Installs(before) && !WasRemoved(before, h))
  {
    assert (before + [e])[..|before|] == before;
  }

  lemma HandlersStayTold(s: Server, before: seq<Event>, e: Event)
    requires HandlersTold(s, before)
    ensures HandlersTold(Move(s, e).server, before + [e])
  {
    HistoryGrows(before, e);
    match e
    case Signal(h) => ShutdownLeavesHandlers(s, h);
    case HandlersInstalled => assert Move(s, e).server.handlers == s.handlers + [HandlerSet(true, Armed)];
    case HandlersRemoved(_) =>
    case ExitRuns(_) =>
    case _ => OthersLeaveHandlers(s, e);
  }

  lemma {:induction false} HandlersAreTold(events: seq<Event>)
    ensures HandlersTold(Run(INITIAL, events).server, events)
  {
    if events != [] {
      var before, last := events[..|events| - 1], events[|events| - 1];
      HandlersAreTold(before);
      RunAppends(INITIAL, before, last);
      HandlersStayTold(Run(INITIAL, before).server, before, last);
      assert events == before + [last];
    }
  }

  lemma {:induction false} ChecksAreCounted(events: seq<Event>)
    ensures |Run(INITIAL, events).server.checks| == Begun(events)
  {
    if events != [] {
      var before, last := events[..|events| - 1], events[|events| - 1];
      ChecksAreCounted(before);
      RunAppends(INITIAL, before, last);
      assert events == before + [last];
      if !last.CheckBegins? {
        OthersLeaveChecks(Run(INITIAL, before).server, last);
      }
    }
  }

  /** What the next event makes the server do, from the events and effects so far and nothing else. */
  function Answer(events: seq<Event>, log: Log, e: Event): Log {
    var exits, checks := Watch(NoteExits, NO_EXITS, log), Watch(NoteChecks, NO_CHECKS, log);
    if ConcernsStart(e) then StartAnswer(StartSeen(log), CloseSeen(log), e)
    else if ConcernsClosing(e) then CloseAnswer(CloseSeen(log), e)
    else
      match e
      case Signal(h) => if Hears(events, h) then ShutsDown(CloseSeen(log)) else []
      case ExitRuns(h) =>
        if WasSignalled(events, h) && h !in exits.exited && exits.result.Some? then [Exit(h, exits.result.value)]
        else []
      case CheckBegins =>
        [CheckBegun(Begun(events))]
        + if checks.startupComplete && !checks.drained then [] else [CheckAnswered(Begun(events), false)]
      case CheckSettles(check, ok) =>
        if check < Begun(events) && check !in checks.answered then [CheckAnswered(check, ok)] else []
      case _ => []
  }

  /** In every run each event makes the server do exactly what the events and the effects before it ask for. */
  lemma EveryStepIsTold(events: seq<Event>, e: Event)
    ensures var log := Run(INITIAL, events).effects;
      Run(INITIAL, events + [e]).effects == log + Answer(events, log, e)
  {
    var r := Run(INITIAL, events);
    RunAppends(INITIAL, events, e);
    RunIsTold(INITIAL, events, NO_START, NO_CLOSE);
    if ConcernsStart(e) {
      StartIsTold(r.server, StartSeen(r.effects), CloseSeen(r.effects), e);
    } else if e.ShutdownCalled? {
      ShutdownAnswers(r.server, CloseSeen(r.effects));
    } else if ConcernsClosing(e) {
      CloseAnswers(r.server, CloseSeen(r.effects), e);
    } else {
      RestAnswers(events, e);
    }
  }

  lemma ExitAnswers(events: seq<Event>, h: nat)
    ensures var r := Run(INITIAL, events);
      var exits := Watch(NoteExits, NO_EXITS, r.effects);
      Exiting(r.server, h).effects ==
        if WasSignalled(events, h) && h !in exits.exited && exits.result.Some? then [Exit(h, exits.result.value)]
        else []
  {
    HandlersAreTold(events);
    RunKeepsExits(INITIAL, events, NO_EXITS);
  }

  lemma CheckAnswers(events: seq<Event>, check: nat, ok: bool)
    ensures var r := Run(INITIAL, events);
      var checks := Watch(NoteChecks, NO_CHECKS, r.effects);
      && CheckBegan(r.server).effects == [CheckBegun(Begun(events))]
           + (if checks.startupComplete && !checks.drained then [] else [CheckAnswered(Begun(events), false)])
      && CheckSettled(r.server, check, ok).effects
           == (if check < Begun(events) && check !in checks.answered then [CheckAnswered(check, ok)] else [])
  {
    RunIsTold(INITIAL, events, NO_START, NO_CLOSE);
    ChecksAreCounted(events);
    RunKeepsChecks(INITIAL, events, NO_CHECKS);
  }

  lemma RestAnswers(events: seq<Event>, e: Event)
    requires !ConcernsStart(e) && !ConcernsClosing(e)
    ensures var r := Run(INITIAL, events); Move(r.server, e).effects == Answer(events, r.effects, e)
  {
    match e
    case Signal(h) => SignalAnswers(events, h);
    case ExitRuns(h) => ExitAnswers(events, h);
    case CheckBegins => CheckAnswers(events, 0, false);
    case CheckSettles(check, ok) => CheckAnswers(events, check, ok);
    case HandlersInstalled =>
    case HandlersRemoved(_) =>
  }

  lemma SignalAnswers(events: seq<Event>, h: nat)
    ensures var r := Run(INITIAL, events);
      var m := Move(r.server, Signal(h));
      if Hears(events, h)
      then m.effects == ShutsDown(CloseSeen(r.effects)) && m.server.draining && !m.server.shutdown.NotCalled?
      else m == Moved(r.server, [])
  {
    var s, c := Run(INITIAL, events).server, CloseSeen(Run(INITIAL, events).effects);
    HandlersAreTold(events);
    RunIsTold(INITIAL, events, NO_START, NO_CLOSE);
    if h < |s.handlers| {
      ShutdownAnswers(s.(handlers := s.handlers[h := HandlerSet(true, Signalled)]), c);
    }
  }

  lemma {:induction false} CloseSeenIsThere(c: Closing, log: Log)
    ensures Watch(NoteClosing, c, log).drain <==> c.drain || DrainBegun in log
    ensures Watch(NoteClosing, c, log).close <==> c.close || AppCloseCalled in log
    decreases |log|
  {
    if log != [] {
      CloseSeenIsThere(NoteClosing(c, log[0]), log[1..]);
    }
  }

  /** The first signal of a set of handlers that is installed, and not removed, begins the shutdown: by then the server
      drains and its application has been told to close. Any other signal changes nothing. */
  lemma FirstSignalShutsDown(events: seq<Event>, h: nat)
    ensures var before, after := Run(INITIAL, events), Run(INITIAL, events + [Signal(h)]);
      if h < Installs(events) && !WasRemoved(events, h) && !WasSignalled(events, h) then
        && after.server.draining && !after.server.shutdown.NotCalled?
        && DrainBegun in after.effects && AppCloseCalled in after.effects
      else after == before
  {
    var before, after := Run(INITIAL, events), Run(INITIAL, events + [Signal(h)]);
    RunAppends(INITIAL, events, Signal(h));
    SignalAnswers(events, h);
    if Hears(events, h) {
      RunIsTold(INITIAL, events + [Signal(h)], NO_START, NO_CLOSE);
      CloseSeenIsThere(NO_CLOSE, after.effects);
    } else {
      assert before.effects + [] == before.effects;
    }
  }

  // ----- a start under way when the shutdown begins -----

  ghost predicate StaysQuiet(s: Server) {
    s.draining && !s.start.Verifying? && !s.start.Pinging?
  }

  lemma MoveStaysQuiet(s: Server, e: Event)
    requires StaysQuiet(s)
    ensures StaysQuiet(Move(s, e).server) && ListenCalled !in Move(s, e).effects
  {
  }

  /** Once draining, a server whose start is not in its checks never calls `listen`. */
  lemma {:induction false} DrainedServerNeverListens(s: Server, events: seq<Event>)
    requires StaysQuiet(s)
    ensures ListenCalled !in Run(s, events).effects
    decreases events
  {
    if events != [] {
      MoveStaysQuiet(s, events[0]);
      DrainedServerNeverListens(Move(s, events[0]).server, events[1..]);
    }
  }

  /** After a shutdown has begun the start can still go on to call `listen`, on an application already told to close,
      exactly when it was waiting for its own checks at that moment: it does not look at the draining flag again. */
  lemma ListensAfterShutdownIff(events: seq<Event>)
    requires Run(INITIAL, events).server.shutdown.NotCalled?
    ensures var s := Run(INITIAL, events).server;
      (exists more :: ListenCalled in Run(Shutdown(s).server, more).effects) <==> s.start.Verifying? || s.start.Pinging?
  {
    var s := Run(INITIAL, events).server;
    var s1 := Shutdown(s).server;
    if s.start.Verifying? || s.start.Pinging? {
      var more := [VerifySettles(true), PingSettles(true)];
      RunOfTwo(s1, more[0], more[1]);
      var s2 := Move(s1, VerifySettles(true)).server;
      assert Move(s2, PingSettles(true)).effects[1] == ListenCalled;
      assert ListenCalled in Run(s1, more).effects;
    } else {
      forall more ensures ListenCalled !in Run(s1, more).effects {
        DrainedServerNeverListens(s1, more);
      }
    }
  }
}
