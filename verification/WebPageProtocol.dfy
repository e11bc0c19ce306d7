/** The abort, cancel and listener protocol of processing a web page, as a step system: an abort may come at any
    await. */
module WebPageProtocol {

  import opened Text

  /** What an observer sees, in order. */
  datatype Effect =
    | ListenerAdded | ListenerReleased
    | BeginSent | BeginAcknowledged(isNull: bool)
    | ProcessSent | ProcessSettled(reply: Reply)
    | CancelSent | CancelSettled(ok: bool)
    | Aborted
    | Finished(outcome: Outcome)

  datatype Reply = ValidReply | BadReply | RejectedReply

  /** How the body of the call ends: with the worker's result, or by raising. */
  datatype Outcome = Result | OperationCancelled | ProtocolError | HostError | CancelError

  /** Where the call is waiting. */
  datatype Pc = NotStarted | Listening | Beginning | Processing | Finalizing | Done

  datatype CancelState = NotSent | Pending | Settled(ok: bool)

  datatype Operation = Operation(
    pc: Pc, aborted: bool, abortHooked: bool, registered: bool, invoked: bool, listening: bool, cancel: CancelState,
    body: Outcome, log: seq<Effect>)

  const INITIAL := Operation(NotStarted, false, false, false, false, false, NotSent, HostError, [])

  /** What may happen next; `mayStart` is the caller's own check at that moment. An event the call is not waiting for
      changes nothing. */
  datatype Event =
    | Start(urlValid: bool, mayStart: bool)
    | ListenSettles(ok: bool, mayStart: bool)
    | BeginSettles(ack: Acknowledgement, mayStart: bool)
    | ProcessSettles(reply: Reply)
    | Abort
    | CancelSettles(ok: bool)
    | FinallyResumes

  datatype Acknowledgement = NullAck | OtherAck | RejectedAck

  // ----- the steps -----

  function Log(s: Operation, e: Effect): Operation {
    s.(log := s.log + [e])
  }

  /** Send the cancellation, unless it has been sent. */
  function Cancel(s: Operation): Operation {
    if s.cancel.NotSent? then Log(s.(cancel := Pending), CancelSent) else s
  }

  /** Enter the finally block with the body's outcome. */
  function Finalize(s: Operation, body: Outcome): Operation {
    var unhooked := s.(pc := Finalizing, abortHooked := false, body := body);
    if s.registered && !s.invoked then Cancel(unhooked) else unhooked
  }

  function OutcomeOf(reply: Reply): Outcome {
    match reply
    case ValidReply => Result
    case BadReply => ProtocolError
    case RejectedReply => HostError
  }

  function Started(s: Operation, urlValid: bool, mayStart: bool): Operation {
    if !urlValid then Log(s.(pc := Done), Finished(ProtocolError))
    else if s.aborted || !mayStart then Log(s.(pc := Done), Finished(OperationCancelled))
    else s.(pc := Listening)
  }

  function Listened(s: Operation, ok: bool, mayStart: bool): Operation {
    if !ok then Finalize(s, HostError)
    else
      var held := Log(s.(listening := true), ListenerAdded);
      if s.aborted || !mayStart then Finalize(held, OperationCancelled)
      else Log(held.(pc := Beginning), BeginSent)
  }

  function Begun(s: Operation, ack: Acknowledgement, mayStart: bool): Operation {
    if ack.RejectedAck? then Finalize(s, HostError)
    else
      var registered := Log(s.(registered := true), BeginAcknowledged(ack.NullAck?));
      if ack.OtherAck? then Finalize(registered, ProtocolError)
      else if s.aborted || !mayStart then Finalize(registered, OperationCancelled)
      else Log(registered.(pc := Processing, abortHooked := true, invoked := true), ProcessSent)
  }

  function Resumed(s: Operation): Operation {
    if s.cancel.Pending? then s
    else
      var released := if s.listening then Log(s.(listening := false), ListenerReleased) else s;
      var outcome := if s.cancel == Settled(false) then CancelError else s.body;
      Log(released.(pc := Done), Finished(outcome))
  }

  function Step(s: Operation, e: Event): Operation {
    match e
    case Start(urlValid, mayStart) => if s.pc.NotStarted? then Started(s, urlValid, mayStart) else s
    case ListenSettles(ok, mayStart) => if s.pc.Listening? then Listened(s, ok, mayStart) else s
    case BeginSettles(ack, mayStart) => if s.pc.Beginning? then Begun(s, ack, mayStart) else s
    case ProcessSettles(reply) =>
      if s.pc.Processing? then Finalize(Log(s, ProcessSettled(reply)), OutcomeOf(reply)) else s
    case Abort =>
      if s.aborted || s.pc.Done? then s
      else
        var aborted := Log(s.(aborted := true), Aborted);
        if s.abortHooked then Cancel(aborted) else aborted
    case CancelSettles(ok) =>
      if s.cancel.Pending? then Log(s.(cancel := Settled(ok)), CancelSettled(ok)) else s
    case FinallyResumes => if s.pc.Finalizing? then Resumed(s) else s
  }

  function Run(s: Operation, events: seq<Event>): Operation
    decreases events
  {
    if events == [] then s else Run(Step(s, events[0]), events[1..])
  }

  // ----- the call as the desktop runs it: each method is the code between two awaits -----

  class WebPageCall {
    var pc: Pc
    var aborted: bool
    var abortHooked: bool
    var registered: bool
    var invoked: bool
    var listening: bool
    var cancel: CancelState
    var body: Outcome
    var log: seq<Effect>

    constructor ()
      ensures State() == INITIAL
    {
      pc, aborted, abortHooked, registered, invoked, listening := NotStarted, false, false, false, false, false;
      cancel, body, log := NotSent, HostError, [];
    }

    function State(): Operation
      reads this
    {
      Operation(pc, aborted, abortHooked, registered, invoked, listening, cancel, body, log)
    }

    method CancelOnce()
      modifies this
      ensures State() == Cancel(old(State()))
    {
      if cancel == NotSent {
        cancel := Pending;
        log := log + [CancelSent];
      }
    }

    method EnterFinally(outcome: Outcome)
      modifies this
      ensures State() == Finalize(old(State()), outcome)
    {
      abortHooked := false;
      pc, body := Finalizing, outcome;
      if registered && !invoked {
        CancelOnce();
      }
    }

    method OnStart(urlValid: bool, mayStart: bool)
      requires pc.NotStarted?
      modifies this
      ensures State() == Step(old(State()), Start(urlValid, mayStart))
    {
      if !urlValid {
        pc, log := Done, log + [Finished(ProtocolError)];
      } else if aborted || !mayStart {
        pc, log := Done, log + [Finished(OperationCancelled)];
      } else {
        pc := Listening;
      }
    }

    method OnListenSettled(ok: bool, mayStart: bool)
      requires pc.Listening?
      modifies this
      ensures State() == Step(old(State()), ListenSettles(ok, mayStart))
    {
      if !ok {
        EnterFinally(HostError);
        return;
      }
      listening, log := true, log + [ListenerAdded];
      if aborted || !mayStart {
        EnterFinally(OperationCancelled);
        return;
      }
      pc, log := Beginning, log + [BeginSent];
    }

    method OnBeginSettled(ack: Acknowledgement, mayStart: bool)
      requires pc.Beginning?
      modifies this
      ensures State() == Step(old(State()), BeginSettles(ack, mayStart))
    {
      if ack == RejectedAck {
        EnterFinally(HostError);
        return;
      }
      registered, log := true, log + [BeginAcknowledged(ack == NullAck)];
      if ack != NullAck {
        EnterFinally(ProtocolError);
        return;
      }
      abortHooked := true;
      if aborted || !mayStart {
        EnterFinally(OperationCancelled);
        return;
      }
      invoked := true;
      pc, log := Processing, log + [ProcessSent];
    }

    method OnProcessSettled(reply: Reply)
      requires pc.Processing?
      modifies this
      ensures State() == Step(old(State()), ProcessSettles(reply))
    {
      log := log + [ProcessSettled(reply)];
      EnterFinally(OutcomeOf(reply));
    }

    method OnAbort()
      modifies this
      ensures State() == Step(old(State()), Abort)
    {
      if !aborted && !pc.Done? {
        aborted, log := true, log + [Aborted];
        if abortHooked {
          CancelOnce();
        }
      }
    }

    method OnCancelSettled(ok: bool)
      requires cancel.Pending?
      modifies this
      ensures State() == Step(old(State()), CancelSettles(ok))
    {
      cancel, log := Settled(ok), log + [CancelSettled(ok)];
    }

    method OnFinallyResumed()
      requires pc.Finalizing? && !cancel.Pending?
      modifies this
      ensures State() == Step(old(State()), FinallyResumes)
    {
      if listening {
        listening, log := false, log + [ListenerReleased];
      }
      pc, log := Done, log + [Finished(if cancel == Settled(false) then CancelError else body)];
    }
  }

  // ----- an observer of the log -----

  /** What an observer has counted. `orderly` records that every page request came straight after a null acknowledgement
      with no abort before it, and that every finish came once, last, with sent cancellations settled and added
      listeners released. */
  datatype Tally = Tally(
    added: nat, released: nat, begins: nat, acknowledged: bool, nullAckLast: bool, requests: nat, inFlight: bool,
    validReply: bool, cancels: nat, cancelsSettled: nat, cancelFailed: bool, aborted: bool, abortedInFlight: bool,
    finishes: nat, outcome: Outcome, orderly: bool)

  const BLANK := Tally(0, 0, 0, false, false, 0, false, false, 0, 0, false, false, false, 0, HostError, true)

  function Counted(t: Tally, e: Effect): Tally {
    match e
    case ListenerAdded => t.(added := t.added + 1)
    case ListenerReleased => t.(released := t.released + 1)
    case BeginSent => t.(begins := t.begins + 1)
    case BeginAcknowledged(_) => t.(acknowledged := true)
    case ProcessSent =>
      t.(requests := t.requests + 1, inFlight := true, orderly := t.orderly && t.nullAckLast && !t.aborted)
    case ProcessSettled(reply) => t.(inFlight := false, validReply := reply.ValidReply?)
    case CancelSent => t.(cancels := t.cancels + 1)
    case CancelSettled(ok) => t.(cancelsSettled := t.cancelsSettled + 1, cancelFailed := !ok)
    case Aborted => t.(aborted := true, abortedInFlight := t.abortedInFlight || t.inFlight)
    case Finished(outcome) =>
      t.(finishes := t.finishes + 1, outcome := outcome,
         orderly := t.orderly && t.cancelsSettled == t.cancels && t.released == t.added)
  }

  function Noted(t: Tally, e: Effect): Tally {
    Counted(t, e).(nullAckLast := e == BeginAcknowledged(true), orderly := Counted(t, e).orderly && t.finishes == 0)
  }

  function Observe(log: seq<Effect>): Tally {
    if log == [] then BLANK else Noted(Observe(log[..|log| - 1]), log[|log| - 1])
  }

  lemma ObserveAppended(log: seq<Effect>, e: Effect)
    ensures Observe(log + [e]) == Noted(Observe(log), e)
  {
    assert (log + [e])[..|log + [e]| - 1] == log;
  }

  // ----- the invariant -----

  /** The flags tell what the observer has counted. */
  ghost predicate FlagsMatch(s: Operation, t: Tally) {
    && t.orderly && t.aborted == s.aborted && t.acknowledged == s.registered
    && t.requests == (if s.invoked then 1 else 0)
    && t.inFlight == s.pc.Processing?
    && t.added == t.released + (if s.listening then 1 else 0) <= 1
    && t.cancels == (if s.cancel.NotSent? then 0 else 1)
    && t.cancelsSettled == (if s.cancel.Settled? then 1 else 0)
    && t.cancelFailed == (s.cancel == Settled(false))
    && t.finishes == (if s.pc.Done? then 1 else 0)
    && (t.validReply ==> s.invoked && s.pc in {Finalizing, Done})
  }

  /** Where the call is, and what it has done so far. */
  ghost predicate PcMatches(s: Operation, t: Tally) {
    && (s.pc in {NotStarted, Listening} ==> t.added == 0 && !s.registered)
    && (s.pc.Beginning? ==> !s.registered)
    && (s.pc.Processing? ==> s.invoked && s.abortHooked && (s.aborted <==> !s.cancel.NotSent?))
    && (s.abortHooked ==> s.pc.Processing?)
    && (s.pc.Done? ==> !s.listening && !s.cancel.Pending?)
    && (s.invoked ==> s.registered && s.pc in {Processing, Finalizing, Done})
    && (s.registered ==> s.pc in {Processing, Finalizing, Done})
    && (!s.registered ==> s.cancel.NotSent?)
    && (s.registered ==> (!s.cancel.NotSent? <==> !s.invoked || t.abortedInFlight))
    && (t.abortedInFlight ==> s.invoked)
    && (s.pc.Finalizing? ==> (s.body.Result? <==> t.validReply) && !s.body.CancelError?)
    && (s.pc.Done? ==>
          (t.outcome.Result? <==> t.validReply && !t.cancelFailed) && (t.outcome.CancelError? <==> t.cancelFailed))
  }

  ghost predicate Fits(s: Operation, t: Tally) {
    FlagsMatch(s, t) && PcMatches(s, t)
  }

  ghost predicate Inv(s: Operation) {
    Fits(s, Observe(s.log))
  }

  /** A step that logs one effect, or two, keeps the invariant when its state fits what the observer then notes. */
  lemma OneLogged(s: Operation, log: seq<Effect>, e: Effect)
    requires s.log == log + [e] && Fits(s, Noted(Observe(log), e))
    ensures Inv(s)
  {
    ObserveAppended(log, e);
  }

  lemma TwoLogged(s: Operation, log: seq<Effect>, e: Effect, f: Effect)
    requires s.log == log + [e] + [f] && Fits(s, Noted(Noted(Observe(log), e), f))
    ensures Inv(s)
  {
    ObserveAppended(log, e);
    ObserveAppended(log + [e], f);
  }

  lemma StartedFits(s: Operation, urlValid: bool, mayStart: bool, t: Tally)
    requires Fits(s, t) && s.pc.NotStarted?
    ensures Fits(Started(s, urlValid, mayStart),
                 if !urlValid then Noted(t, Finished(ProtocolError))
                 else if s.aborted || !mayStart then Noted(t, Finished(OperationCancelled))
                 else t)
  {
  }

  lemma StartedKeepsInv(s: Operation, urlValid: bool, mayStart: bool)
    requires Inv(s) && s.pc.NotStarted?
    ensures Inv(Started(s, urlValid, mayStart))
  {
    StartedFits(s, urlValid, mayStart, Observe(s.log));
    if !urlValid {
      OneLogged(Started(s, urlValid, mayStart), s.log, Finished(ProtocolError));
    } else if s.aborted || !mayStart {
      OneLogged(Started(s, urlValid, mayStart), s.log, Finished(OperationCancelled));
    }
  }

  lemma ListenedFits(s: Operation, ok: bool, mayStart: bool, t: Tally)
    requires Fits(s, t) && s.pc.Listening?
    ensures Fits(Listened(s, ok, mayStart),
                 if !ok then t
                 else if s.aborted || !mayStart then Noted(t, ListenerAdded)
                 else Noted(Noted(t, ListenerAdded), BeginSent))
  {
  }

  lemma ListenedKeepsInv(s: Operation, ok: bool, mayStart: bool)
    requires Inv(s) && s.pc.Listening?
    ensures Inv(Listened(s, ok, mayStart))
  {
    ListenedFits(s, ok, mayStart, Observe(s.log));
    if ok && (s.aborted || !mayStart) {
      OneLogged(Listened(s, ok, mayStart), s.log, ListenerAdded);
    } else if ok {
      TwoLogged(Listened(s, ok, mayStart), s.log, ListenerAdded, BeginSent);
    }
  }

  /** What is sent once the registration has been answered. */
  ghost function AfterBegin(s: Operation, ack: Acknowledgement, mayStart: bool): Effect {
    if ack.OtherAck? || s.aborted || !mayStart then CancelSent else ProcessSent
  }

  lemma BegunFits(s: Operation, ack: Acknowledgement, mayStart: bool, t: Tally)
    requires Fits(s, t) && s.pc.Beginning?
    ensures Fits(Begun(s, ack, mayStart),
                 if ack.RejectedAck? then t
                 else Noted(Noted(t, BeginAcknowledged(ack.NullAck?)), AfterBegin(s, ack, mayStart)))
  {
  }

  lemma BegunKeepsInv(s: Operation, ack: Acknowledgement, mayStart: bool)
    requires Inv(s) && s.pc.Beginning?
    ensures Inv(Begun(s, ack, mayStart))
  {
    BegunFits(s, ack, mayStart, Observe(s.log));
    if !ack.RejectedAck? {
      TwoLogged(Begun(s, ack, mayStart), s.log, BeginAcknowledged(ack.NullAck?), AfterBegin(s, ack, mayStart));
    }
  }

  lemma SettledFits(s: Operation, reply: Reply, t: Tally)
    requires Fits(s, t) && s.pc.Processing?
    ensures Fits(Finalize(Log(s, ProcessSettled(reply)), OutcomeOf(reply)), Noted(t, ProcessSettled(reply)))
  {
  }

  lemma SettledKeepsInv(s: Operation, reply: Reply)
    requires Inv(s) && s.pc.Processing?
    ensures Inv(Finalize(Log(s, ProcessSettled(reply)), OutcomeOf(reply)))
  {
    SettledFits(s, reply, Observe(s.log));
    OneLogged(Finalize(Log(s, ProcessSettled(reply)), OutcomeOf(reply)), s.log, ProcessSettled(reply));
  }

  /** How a call leaves its finally block. */
  ghost function FinalEffect(s: Operation): Effect {
    Finished(if s.cancel == Settled(false) then CancelError else s.body)
  }

  lemma ResumedFits(s: Operation, t: Tally)
    requires Fits(s, t) && s.pc.Finalizing? && !s.cancel.Pending?
    ensures Fits(Resumed(s),
                 if s.listening then Noted(Noted(t, ListenerReleased), FinalEffect(s)) else Noted(t, FinalEffect(s)))
  {
  }

  lemma ResumedKeepsInv(s: Operation)
    requires Inv(s) && s.pc.Finalizing? && !s.cancel.Pending?
    ensures Inv(Resumed(s))
  {
    ResumedFits(s, Observe(s.log));
    if s.listening {
      TwoLogged(Resumed(s), s.log, ListenerReleased, FinalEffect(s));
    } else {
      OneLogged(Resumed(s), s.log, FinalEffect(s));
    }
  }

  lemma AbortFits(s: Operation, t: Tally)
    requires Fits(s, t) && !s.aborted && !s.pc.Done?
    ensures Fits(Step(s, Abort), if s.abortHooked then Noted(Noted(t, Aborted), CancelSent) else Noted(t, Aborted))
  {
  }

  lemma AbortKeepsInv(s: Operation)
    requires Inv(s) && !s.aborted && !s.pc.Done?
    ensures Inv(Step(s, Abort))
  {
    AbortFits(s, Observe(s.log));
    if s.abortHooked {
      TwoLogged(Step(s, Abort), s.log, Aborted, CancelSent);
    } else {
      OneLogged(Step(s, Abort), s.log, Aborted);
    }
  }

  lemma CancelSettledFits(s: Operation, ok: bool, t: Tally)
    requires Fits(s, t) && s.cancel.Pending?
    ensures Fits(Step(s, CancelSettles(ok)), Noted(t, CancelSettled(ok)))
  {
  }

  lemma CancelSettledKeepsInv(s: Operation, ok: bool)
    requires Inv(s) && s.cancel.Pending?
    ensures Inv(Step(s, CancelSettles(ok)))
  {
    CancelSettledFits(s, ok, Observe(s.log));
    OneLogged(Step(s, CancelSettles(ok)), s.log, CancelSettled(ok));
  }

  lemma StepKeepsInv(s: Operation, e: Event)
    requires Inv(s)
    ensures Inv(Step(s, e))
  {
    match e
    case Start(urlValid, mayStart) => if s.pc.NotStarted? { StartedKeepsInv(s, urlValid, mayStart); }
    case ListenSettles(ok, mayStart) => if s.pc.Listening? { ListenedKeepsInv(s, ok, mayStart); }
    case BeginSettles(ack, mayStart) => if s.pc.Beginning? { BegunKeepsInv(s, ack, mayStart); }
    case ProcessSettles(reply) => if s.pc.Processing? { SettledKeepsInv(s, reply); }
    case Abort => if !s.aborted && !s.pc.Done? { AbortKeepsInv(s); }
    case CancelSettles(ok) => if s.cancel.Pending? { CancelSettledKeepsInv(s, ok); }
    case FinallyResumes => if s.pc.Finalizing? && !s.cancel.Pending? { ResumedKeepsInv(s); }
  }

  lemma {:induction false} RunKeepsInv(s: Operation, events: seq<Event>)
    requires Inv(s)
    ensures Inv(Run(s, events))
    decreases events
  {
    if events != [] {
      StepKeepsInv(s, events[0]);
      RunKeepsInv(Step(s, events[0]), events[1..]);
    }
  }

  // ----- the guarantees -----

  /** After any events in any order: the page is requested at most once, only after a null acknowledgement and with no
      abort before it; the cancellation is sent at most once; an acquired listener is released at most once; a finish is
      the last effect and comes only when a sent cancellation has settled and an acquired listener is released. */
  lemma EveryRunIsOrderly(events: seq<Event>)
    ensures var t := Observe(Run(INITIAL, events).log);
      t.orderly && t.requests <= 1 && t.cancels <= 1 && t.released <= t.added <= 1 && t.finishes <= 1
  {
    RunKeepsInv(INITIAL, events);
  }

  /** A finished call has sent the cancellation exactly when the operation was registered and its page request either
      was never made or was aborted while in flight; it returns the worker's result exactly when that came back valid
      and no cancellation failed, and reports a failed cancellation above everything else. */
  lemma FinishedCallCancelsIff(events: seq<Event>)
    requires Run(INITIAL, events).pc.Done?
    ensures var t := Observe(Run(INITIAL, events).log);
      && t.finishes == 1 && t.released == t.added && t.cancelsSettled == t.cancels
      && (t.cancels == 1 <==> t.acknowledged && (t.requests == 0 || t.abortedInFlight))
      && (t.outcome.Result? <==> t.validReply && !t.cancelFailed)
      && (t.outcome.CancelError? <==> t.cancelFailed)
  {
    RunKeepsInv(INITIAL, events);
  }

  // ----- the call from its answers -----

  /** What the call was told at one of its checks: whether what it waited for was good, and whether it was allowed to go
      on, by the caller and with no abort before. */
  datatype Told = Told(good: bool, allowed: bool)

  /** What the call has been told, in the order in which it asks. */
  datatype Story = Story(
    aborted: bool, url: Option<Told>, listener: Option<Told>, ack: Option<Acknowledgement>, mayProcess: bool,
    reply: Option<Reply>)

  const UNTOLD := Story(false, None, None, None, false, None)

  predicate Passed(told: Option<Told>) {
    told.Some? && told.value.good && told.value.allowed
  }

  /** The page may be requested: the registration was acknowledged with null, and the call was still allowed. */
  predicate Requests(t: Story) {
    t.ack.Some? && t.ack.value.NullAck? && t.mayProcess
  }

  /** An answer counts when the one before it let the call go on, and only the first of its kind. */
  function Hear(t: Story, e: Event): Story {
    match e
    case Start(urlValid, mayStart) =>
      if t.url.None? then t.(url := Some(Told(urlValid, mayStart && !t.aborted))) else t
    case ListenSettles(ok, mayStart) =>
      if Passed(t.url) && t.listener.None? then t.(listener := Some(Told(ok, mayStart && !t.aborted))) else t
    case BeginSettles(ack, mayStart) =>
      if Passed(t.listener) && t.ack.None? then t.(ack := Some(ack), mayProcess := mayStart && !t.aborted) else t
    case ProcessSettles(reply) => if Requests(t) && t.reply.None? then t.(reply := Some(reply)) else t
    case Abort => t.(aborted := true)
    case _ => t
  }

  function StoryOf(events: seq<Event>): Story {
    if events == [] then UNTOLD else Hear(StoryOf(events[..|events| - 1]), events[|events| - 1])
  }

  /** How the body ends, once it has been told enough. */
  function Verdict(t: Story): Option<Outcome> {
    if t.url.None? then None
    else if !t.url.value.good then Some(ProtocolError)
    else if !t.url.value.allowed then Some(OperationCancelled)
    else if t.listener.None? then None
    else if !t.listener.value.good then Some(HostError)
    else if !t.listener.value.allowed then Some(OperationCancelled)
    else if t.ack.None? then None
    else if t.ack.value.RejectedAck? then Some(HostError)
    else if t.ack.value.OtherAck? then Some(ProtocolError)
    else if !t.mayProcess then Some(OperationCancelled)
    else if t.reply.None? then None else Some(OutcomeOf(t.reply.value))
  }

  /** What the next event makes the call do, from what it has been told and what an observer has counted. */
  function Answer(t: Story, n: Tally, e: Event): seq<Effect> {
    match e
    case Start(urlValid, mayStart) =>
      if t.url.Some? then []
      else if !urlValid then [Finished(ProtocolError)]
      else if t.aborted || !mayStart then [Finished(OperationCancelled)] else []
    case ListenSettles(ok, mayStart) =>
      if !Passed(t.url) || t.listener.Some? || !ok then []
      else if t.aborted || !mayStart then [ListenerAdded] else [ListenerAdded] + [BeginSent]
    case BeginSettles(ack, mayStart) =>
      if !Passed(t.listener) || t.ack.Some? || ack.RejectedAck? then []
      else if ack.NullAck? && mayStart && !t.aborted then [BeginAcknowledged(true)] + [ProcessSent]
      else [BeginAcknowledged(ack.NullAck?)] + [CancelSent]
    case ProcessSettles(reply) => if Requests(t) && t.reply.None? then [ProcessSettled(reply)] else []
    case Abort =>
      if t.aborted || n.finishes > 0 then []
      else if Requests(t) && t.reply.None? then [Aborted] + [CancelSent] else [Aborted]
    case CancelSettles(ok) => if n.cancelsSettled < n.cancels then [CancelSettled(ok)] else []
    case FinallyResumes =>
      if Verdict(t).None? || n.finishes > 0 || n.cancelsSettled < n.cancels then []
      else
        var outcome := if n.cancelFailed then CancelError else Verdict(t).value;
        if t.listener.Some? && t.listener.value.good then [ListenerReleased] + [Finished(outcome)]
        else [Finished(outcome)]
  }

  /** The call is where its answers have taken it. */
  ghost predicate Follows(s: Operation, t: Story, n: Tally) {
    && (!s.pc.Done? ==> s.aborted == t.aborted)
    && s.registered == (t.ack.Some? && !t.ack.value.RejectedAck?) && s.invoked == Requests(t)
    && s.listening == (t.listener.Some? && t.listener.value.good && n.finishes == 0)
    && (t.listener.Some? ==> Passed(t.url)) && (t.ack.Some? ==> Passed(t.listener)) && (t.reply.Some? ==> Requests(t))
    && (t.url.Some? && !Passed(t.url) ==> n.finishes > 0) && (n.finishes > 0 ==> Verdict(t).Some?)
    && s.pc == (if t.url.None? then NotStarted
                else if n.finishes > 0 then Done
                else if Verdict(t).Some? then Finalizing
                else if t.listener.None? then Listening
                else if t.ack.None? then Beginning else Processing)
    && (s.pc.Finalizing? ==> s.body == Verdict(t).value)
    && n.begins == (if Passed(t.listener) then 1 else 0)
    && (n.finishes > 0 ==> n.outcome == if n.cancelFailed then CancelError else Verdict(t).value)
  }

  lemma TwoAppended(log: seq<Effect>, a: Effect, b: Effect)
    ensures log + ([a] + [b]) == log + [a] + [b]
  {
  }

  lemma StepAnswers(s: Operation, t: Story, n: Tally, e: Event)
    requires Fits(s, n) && Follows(s, t, n)
    ensures Step(s, e).log == s.log + Answer(t, n, e)
  {
    assert s.log + [] == s.log;
    match e
    case Start(_, _) =>
    case ListenSettles(_, _) => TwoAppended(s.log, ListenerAdded, BeginSent);
    case BeginSettles(ack, mayStart) =>
      TwoAppended(s.log, BeginAcknowledged(ack.NullAck?), AfterBegin(s, ack, mayStart));
    case ProcessSettles(_) =>
    case Abort => TwoAppended(s.log, Aborted, CancelSent);
    case CancelSettles(_) =>
    case FinallyResumes => TwoAppended(s.log, ListenerReleased, FinalEffect(s));
  }

  /** What an observer has counted after more effects. */
  function NotedAll(n: Tally, effects: seq<Effect>): Tally {
    if |effects| == 0 then n
    else if |effects| == 1 then Noted(n, effects[0]) else Noted(Noted(n, effects[0]), effects[1])
  }

  lemma ObserveMore(log: seq<Effect>, effects: seq<Effect>)
    requires |effects| <= 2
    ensures Observe(log + effects) == NotedAll(Observe(log), effects)
  {
    if |effects| == 0 {
      assert log + effects == log;
    } else if |effects| == 1 {
      assert effects == [effects[0]];
      ObserveAppended(log, effects[0]);
    } else {
      assert log + effects == log + [effects[0]] + [effects[1]];
      ObserveAppended(log, effects[0]);
      ObserveAppended(log + [effects[0]], effects[1]);
    }
  }

  lemma EntryFollows(s: Operation, t: Story, e: Event, n: Tally)
    requires Fits(s, n) && Follows(s, t, n) && (e.Start? || e.ListenSettles?)
    ensures Follows(Step(s, e), Hear(t, e), NotedAll(n, Answer(t, n, e)))
  {
  }

  lemma BeginFollows(s: Operation, t: Story, e: Event, n: Tally)
    requires Fits(s, n) && Follows(s, t, n) && e.BeginSettles?
    ensures Follows(Step(s, e), Hear(t, e), NotedAll(n, Answer(t, n, e)))
  {
  }

  lemma ProcessFollows(s: Operation, t: Story, e: Event, n: Tally)
    requires Fits(s, n) && Follows(s, t, n) && e.ProcessSettles?
    ensures Follows(Step(s, e), Hear(t, e), NotedAll(n, Answer(t, n, e)))
  {
  }

  lemma AbortFollows(s: Operation, t: Story, e: Event, n: Tally)
    requires Fits(s, n) && Follows(s, t, n) && e.Abort?
    ensures Follows(Step(s, e), Hear(t, e), NotedAll(n, Answer(t, n, e)))
  {
  }

  lemma CancelFollows(s: Operation, t: Story, e: Event, n: Tally)
    requires Fits(s, n) && Follows(s, t, n) && e.CancelSettles?
    ensures Follows(Step(s, e), Hear(t, e), NotedAll(n, Answer(t, n, e)))
  {
  }

  lemma ResumeFollows(s: Operation, t: Story, e: Event, n: Tally)
    requires Fits(s, n) && Follows(s, t, n) && e.FinallyResumes?
    ensures Follows(Step(s, e), Hear(t, e), NotedAll(n, Answer(t, n, e)))
  {
  }

  ghost predicate Tells(s: Operation, t: Story) {
    Inv(s) && Follows(s, t, Observe(s.log))
  }

  lemma StepFollows(s: Operation, t: Story, e: Event, n: Tally)
    requires Fits(s, n) && Follows(s, t, n)
    ensures Follows(Step(s, e), Hear(t, e), NotedAll(n, Answer(t, n, e)))
  {
    match e
    case Start(_, _) => EntryFollows(s, t, e, n);
    case ListenSettles(_, _) => EntryFollows(s, t, e, n);
    case BeginSettles(_, _) => BeginFollows(s, t, e, n);
    case ProcessSettles(_) => ProcessFollows(s, t, e, n);
    case Abort => AbortFollows(s, t, e, n);
    case CancelSettles(_) => CancelFollows(s, t, e, n);
    case FinallyResumes => ResumeFollows(s, t, e, n);
  }

  lemma AnswerIsNoted(s: Operation, t: Story, e: Event)
    requires Fits(s, Observe(s.log)) && Follows(s, t, Observe(s.log))
    ensures Observe(Step(s, e).log) == NotedAll(Observe(s.log), Answer(t, Observe(s.log), e))
  {
    var n := Observe(s.log);
    StepAnswers(s, t, n, e);
    ObserveMore(s.log, Answer(t, n, e));
  }

  lemma StepTells(s: Operation, t: Story, e: Event)
    requires Tells(s, t)
    ensures Tells(Step(s, e), Hear(t, e))
  {
    StepKeepsInv(s, e);
    AnswerIsNoted(s, t, e);
    StepFollows(s, t, e, Observe(s.log));
  }

  lemma {:induction false} RunTells(events: seq<Event>)
    ensures Tells(Run(INITIAL, events), StoryOf(events))
  {
    if events != [] {
      var before, last := events[..|events| - 1], events[|events| - 1];
      RunTells(before);
      RunAppended(INITIAL, before, last);
      assert events == before + [last];
      StepTells(Run(INITIAL, before), StoryOf(before), last);
    }
  }

  /** In every run each event makes the call do exactly what its answers so far, and what an observer has counted, ask
      for. */
  lemma EveryStepIsAnswered(events: seq<Event>, e: Event)
    ensures var log := Run(INITIAL, events).log;
      Run(INITIAL, events + [e]).log == log + Answer(StoryOf(events), Observe(log), e)
  {
    var s := Run(INITIAL, events);
    RunTells(events);
    RunAppended(INITIAL, events, e);
    StepAnswers(s, StoryOf(events), Observe(s.log), e);
  }

  /** At one of the checks the call reached, it had been aborted or the caller refused. */
  predicate Refused(t: Story) {
    || (t.url.Some? && t.url.value.good && !t.url.value.allowed)
    || (t.listener.Some? && t.listener.value.good && !t.listener.value.allowed)
    || (t.ack.Some? && t.ack.value.NullAck? && !t.mayProcess)
  }

  /** In every run the registration is sent exactly when the call held a listener and was allowed to go on at both of
      the checks before it, and the page requested exactly when the registration was acknowledged with null and the
      third check allowed it as well. A finished call reports a failed cancellation, and otherwise its body's outcome.
      */
  lemma CallGoesOnIff(events: seq<Event>)
    ensures var t, n := StoryOf(events), Observe(Run(INITIAL, events).log);
      && n.begins == (if Passed(t.url) && Passed(t.listener) then 1 else 0)
      && n.requests == (if Passed(t.url) && Passed(t.listener) && Requests(t) then 1 else 0)
      && (n.finishes > 0 ==>
            Verdict(t).Some? && n.outcome == if n.cancelFailed then CancelError else Verdict(t).value)
  {
    RunTells(events);
  }

  /** The body ends as cancelled exactly when, at a check it reached, the call had been aborted or the caller refused.
      */
  lemma BodyIsCancelledIff(events: seq<Event>)
    ensures var s, t := Run(INITIAL, events), StoryOf(events);
      && (s.pc.Finalizing? ==> (s.body.OperationCancelled? <==> Refused(t)))
      && (s.pc.Done? && !Observe(s.log).cancelFailed ==>
            (Observe(s.log).outcome.OperationCancelled? <==> Refused(t)))
  {
    RunTells(events);
  }

  /** A call in which nothing goes wrong: it registers once, requests the page once, releases its listener and returns
      the worker's result, and sends no cancellation. */
  lemma GoodCallReturnsResult()
    ensures var events := [Start(true, true), ListenSettles(true, true), BeginSettles(NullAck, true),
                           ProcessSettles(ValidReply), FinallyResumes];
      Run(INITIAL, events).log == [ListenerAdded, BeginSent, BeginAcknowledged(true), ProcessSent,
                                   ProcessSettled(ValidReply), ListenerReleased, Finished(Result)]
  {
    var e1: seq<Event> := [Start(true, true)];
    var e2 := e1 + [ListenSettles(true, true)];
    var e3 := e2 + [BeginSettles(NullAck, true)];
    var e4 := e3 + [ProcessSettles(ValidReply)];
    assert e1 == [] + [Start(true, true)];
    RunAppended(INITIAL, [], Start(true, true));
    RunAppended(INITIAL, e1, ListenSettles(true, true));
    RunAppended(INITIAL, e2, BeginSettles(NullAck, true));
    RunAppended(INITIAL, e3, ProcessSettles(ValidReply));
    RunAppended(INITIAL, e4, FinallyResumes);
    assert e4 + [FinallyResumes] == [Start(true, true), ListenSettles(true, true), BeginSettles(NullAck, true),
                                     ProcessSettles(ValidReply), FinallyResumes];
  }

  /** Everything a call may still be waiting for settles, and the finally block resumes. */
  function Settling(s: Operation): Operation {
    var listened := Step(Step(s, Start(false, false)), ListenSettles(false, false));
    var begun := Step(listened, BeginSettles(RejectedAck, false));
    Step(Step(Step(begun, ProcessSettles(RejectedReply)), CancelSettles(true)), FinallyResumes)
  }

  lemma RunAppended(s: Operation, events: seq<Event>, e: Event)
    ensures Run(s, events + [e]) == Step(Run(s, events), e)
    decreases events
  {
    if events == [] {
      assert (events + [e])[1..] == [];
    } else {
      assert (events + [e])[1..] == events[1..] + [e];
      RunAppended(Step(s, events[0]), events[1..], e);
    }
  }

  lemma SettlingFinishes(s: Operation)
    requires PcMatches(s, Observe(s.log))
    ensures Settling(s).pc.Done?
  {
  }

  /** The call is never stuck: from wherever it is, letting everything it waits for settle finishes it. */
  lemma EveryRunCanFinish(events: seq<Event>) returns (closing: seq<Event>)
    ensures Run(INITIAL, events + closing).pc.Done?
  {
    RunKeepsInv(INITIAL, events);
    var s := Run(INITIAL, events);
    SettlingFinishes(s);
    var es0 := events + [Start(false, false)];
    var es1 := es0 + [ListenSettles(false, false)];
    var es2 := es1 + [BeginSettles(RejectedAck, false)];
    var es3 := es2 + [ProcessSettles(RejectedReply)];
    var es4 := es3 + [CancelSettles(true)];
    RunAppended(INITIAL, events, Start(false, false));
    RunAppended(INITIAL, es0, ListenSettles(false, false));
    RunAppended(INITIAL, es1, BeginSettles(RejectedAck, false));
    RunAppended(INITIAL, es2, ProcessSettles(RejectedReply));
    RunAppended(INITIAL, es3, CancelSettles(true));
    RunAppended(INITIAL, es4, FinallyResumes);
    closing := [Start(false, false), ListenSettles(false, false), BeginSettles(RejectedAck, false),
                ProcessSettles(RejectedReply), CancelSettles(true), FinallyResumes];
    assert events + closing == es4 + [FinallyResumes];
  }
}
