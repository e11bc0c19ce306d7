/** Generating a note's title: the worker's step of two saves around a model call, and the desktop's supervisor that
    settles the attempt, when every save, every report and the worker itself may fail. */
module NoteTitle {

  import opened Text

  datatype Status = Generating | Completed | Failed | Cancelled

  datatype Language = ZhCn | ZhTw | EnUs

  datatype Title = Title(text: Option<string>, status: Status, language: Language, errorCode: Option<string>)

  /** Which texts may stand as a title; it looks at Unicode categories, so it stays a parameter. */
  type TextRule = string -> bool

  predicate IsCodeChar(c: char) {
    'A' <= c <= 'Z' || '0' <= c <= '9' || c == '_'
  }

  predicate IsSafeCode(code: string) {
    1 <= |code| <= 64 && 'A' <= code[0] <= 'Z' && forall i :: 0 <= i < |code| ==> IsCodeChar(code[i])
  }

  /** The rule a stored title must meet: the text is allowed, a completed title has one, and there is an error code
      exactly when the title failed or was cancelled. */
  predicate IsCoherent(allowed: TextRule, t: Title) {
    && (t.text.Some? ==> allowed(t.text.value))
    && match t.status
       case Generating => t.errorCode.None?
       case Completed => t.errorCode.None? && t.text.Some?
       case _ => t.errorCode.Some? && IsSafeCode(t.errorCode.value)
  }

  predicate IsCoherentIfAny(allowed: TextRule, t: Option<Title>) {
    t.Some? ==> IsCoherent(allowed, t.value)
  }

  function TitleText(t: Option<Title>): Option<string> {
    if t.Some? then t.value.text else None
  }

  // ----- error codes -----

  /** Every code the model call can raise. */
  datatype ModelError =
    | ConfigMissing | AuthRequired | QuotaUnavailable | LlmConfigMissing | CheckoutTimeout | CheckoutFailed
    | CheckoutInvalidResponse | RequestFailed | OutputInvalid

  function ModelCode(e: ModelError): string {
    match e
    case ConfigMissing => "AI_CONFIG_MISSING"
    case AuthRequired => "AI_LLM_AUTH_REQUIRED"
    case QuotaUnavailable => "AI_LLM_QUOTA_UNAVAILABLE"
    case LlmConfigMissing => "AI_LLM_CONFIG_MISSING"
    case CheckoutTimeout => "AI_LLM_CHECKOUT_TIMEOUT"
    case CheckoutFailed => "AI_LLM_CHECKOUT_FAILED"
    case CheckoutInvalidResponse => "AI_LLM_CHECKOUT_INVALID_RESPONSE"
    case RequestFailed => "AI_LLM_REQUEST_FAILED"
    case OutputInvalid => "TITLE_OUTPUT_INVALID"
  }

  const TRANSCRIPT_UNAVAILABLE := "TITLE_TRANSCRIPT_UNAVAILABLE"
  const SAVE_FAILED := "TITLE_SAVE_FAILED"
  const GENERATION_FAILED := "TITLE_GENERATION_FAILED"
  const WORKER_CANCELLED := "WORKER_CANCELLED"
  const PROTOCOL_VIOLATION := "WORKER_PROTOCOL_VIOLATION"

  /** How the supervisor reports a worker that gave no answer for this task. */
  datatype Silence =
    | WasCancelled | IdleTimeout | ExecutionTimeout | ProcessFailed | AlreadyRunning | TransportFailed | OffProtocol
    | RuntimeUnavailable | Unreported

  function SilenceCode(w: Silence): string {
    match w
    case WasCancelled => WORKER_CANCELLED
    case IdleTimeout => "WORKER_IDLE_TIMEOUT"
    case ExecutionTimeout => "WORKER_EXECUTION_TIMEOUT"
    case ProcessFailed => "WORKER_PROCESS_FAILED"
    case AlreadyRunning => "WORKER_ALREADY_RUNNING"
    case TransportFailed => "WORKER_REQUEST_TRANSPORT_FAILED"
    case OffProtocol => PROTOCOL_VIOLATION
    case RuntimeUnavailable => "WORKER_RUNTIME_UNAVAILABLE"
    case Unreported => GENERATION_FAILED
  }

  lemma ModelCodeIsSafe(e: ModelError)
    ensures IsSafeCode(ModelCode(e)) && ModelCode(e) != WORKER_CANCELLED
  {
    if e.ConfigMissing? || e.AuthRequired? || e.QuotaUnavailable? {
      AccountCodeIsSafe(e);
    } else if e.LlmConfigMissing? || e.CheckoutTimeout? || e.CheckoutFailed? {
      CheckoutCodeIsSafe(e);
    } else {
      AnswerCodeIsSafe(e);
    }
    assert ModelCode(e)[0] != 'W';
  }

  lemma AccountCodeIsSafe(e: ModelError)
    requires e.ConfigMissing? || e.AuthRequired? || e.QuotaUnavailable?
    ensures IsSafeCode(ModelCode(e))
  {
  }

  lemma CheckoutCodeIsSafe(e: ModelError)
    requires e.LlmConfigMissing? || e.CheckoutTimeout? || e.CheckoutFailed?
    ensures IsSafeCode(ModelCode(e))
  {
  }

  lemma AnswerCodeIsSafe(e: ModelError)
    requires e.CheckoutInvalidResponse? || e.RequestFailed? || e.OutputInvalid?
    ensures IsSafeCode(ModelCode(e))
  {
  }

  lemma SilenceCodeIsSafe(w: Silence)
    ensures IsSafeCode(SilenceCode(w))
  {
    if w.IdleTimeout? || w.ExecutionTimeout? || w.ProcessFailed? {
      TimeoutCodeIsSafe(w);
    } else if w.AlreadyRunning? || w.TransportFailed? || w.RuntimeUnavailable? {
      LaunchCodeIsSafe(w);
    } else {
      OwnCodesAreSafe();
    }
  }

  lemma TimeoutCodeIsSafe(w: Silence)
    requires w.IdleTimeout? || w.ExecutionTimeout? || w.ProcessFailed?
    ensures IsSafeCode(SilenceCode(w))
  {
  }

  lemma LaunchCodeIsSafe(w: Silence)
    requires w.AlreadyRunning? || w.TransportFailed? || w.RuntimeUnavailable?
    ensures IsSafeCode(SilenceCode(w))
  {
  }

  lemma OwnCodesAreSafe()
    ensures IsSafeCode(TRANSCRIPT_UNAVAILABLE) && IsSafeCode(SAVE_FAILED) && IsSafeCode(GENERATION_FAILED)
    ensures IsSafeCode(WORKER_CANCELLED) && IsSafeCode(PROTOCOL_VIOLATION)
  {
    StepCodesAreSafe();
    WorkerCodesAreSafe();
  }

  lemma StepCodesAreSafe()
    ensures IsSafeCode(TRANSCRIPT_UNAVAILABLE) && IsSafeCode(SAVE_FAILED) && IsSafeCode(GENERATION_FAILED)
  {
  }

  lemma WorkerCodesAreSafe()
    ensures IsSafeCode(WORKER_CANCELLED) && IsSafeCode(PROTOCOL_VIOLATION)
  {
  }

  // ----- the worker's step -----

  /** How the model call ends: a title that has passed the text rule, an error with its own code, or another error. */
  datatype Generation = Generated(title: string) | RefusedWith(error: ModelError) | OtherError

  /** What the step returns; it raises when one of its progress reports does. */
  datatype StepResult = Returned(body: string, title: Option<Title>, error: Option<string>) | Raised

  /** Everything outside the step's control; the two events are the progress reports, which are not guarded. */
  datatype Circumstances = Circumstances(
    transcript: Option<string>, firstSaveFails: bool, startedEventRaises: bool, generation: Generation,
    secondSaveFails: bool, completedEventRaises: bool)

  function Pending(previous: Option<Title>, language: Language): Title {
    Title(TitleText(previous), Generating, language, None)
  }

  /** The metadata of a finished generation. */
  function Outcome(pending: Title, generation: Generation): Title {
    match generation
    case Generated(title) => Title(Some(title), Completed, pending.language, None)
    case RefusedWith(error) => Title(pending.text, Failed, pending.language, Some(ModelCode(error)))
    case OtherError => Title(pending.text, Failed, pending.language, Some(GENERATION_FAILED))
  }

  class TitleStore {
    var title: Option<Title>

    constructor (title: Option<Title>)
      ensures this.title == title
    {
      this.title := title;
    }

    /** Saving replaces the stored title or leaves it. */
    method Save(t: Title, fails: bool) returns (saved: bool)
      modifies this
      ensures saved == !fails && title == if fails then old(title) else Some(t)
    {
      if !fails {
        title := Some(t);
      }
      saved := !fails;
    }
  }

  /** What the step returns and what the store then holds. */
  function Step(previous: Option<Title>, language: Language, c: Circumstances): (StepResult, Option<Title>) {
    var pending := Pending(previous, language);
    if c.transcript.None? then (Returned("", previous, Some(TRANSCRIPT_UNAVAILABLE)), previous)
    else if c.firstSaveFails then (Returned(c.transcript.value, previous, Some(SAVE_FAILED)), previous)
    else if c.startedEventRaises then (Raised, Some(pending))
    else
      var outcome := Outcome(pending, c.generation);
      if c.secondSaveFails then (Returned(c.transcript.value, Some(pending), Some(SAVE_FAILED)), Some(pending))
      else if outcome.status.Completed? && c.completedEventRaises then (Raised, Some(outcome))
      else (Returned(c.transcript.value, Some(outcome), outcome.errorCode), Some(outcome))
  }

  method RunNoteTitleStep(store: TitleStore, language: Language, c: Circumstances) returns (r: StepResult)
    modifies store
    ensures (r, store.title) == Step(old(store.title), language, c)
    ensures r.Returned? ==> r.title == store.title
  {
    var previous := store.title;
    if c.transcript.None? {
      return Returned("", previous, Some(TRANSCRIPT_UNAVAILABLE));
    }
    var body := c.transcript.value;
    var generating := Title(if previous.Some? then previous.value.text else None, Generating, language, None);
    var saved := store.Save(generating, c.firstSaveFails);
    if !saved {
      return Returned(body, previous, Some(SAVE_FAILED));
    }
    if c.startedEventRaises {
      return Raised;
    }
    var metadata;
    match c.generation {
      case Generated(title) => metadata := Title(Some(title), Completed, language, None);
      case RefusedWith(error) => metadata := Title(generating.text, Failed, language, Some(ModelCode(error)));
      case OtherError => metadata := Title(generating.text, Failed, language, Some(GENERATION_FAILED));
    }
    saved := store.Save(metadata, c.secondSaveFails);
    if !saved {
      return Returned(body, Some(generating), Some(SAVE_FAILED));
    }
    if metadata.status.Completed? && c.completedEventRaises {
      return Raised;
    }
    return Returned(body, Some(metadata), metadata.errorCode);
  }

  /** The model has passed the text rule on what it generated. */
  predicate GeneratesAllowed(allowed: TextRule, c: Circumstances) {
    c.generation.Generated? ==> allowed(c.generation.title)
  }

  /** Nothing goes wrong up to the end. */
  predicate Succeeds(c: Circumstances) {
    && c.transcript.Some? && !c.firstSaveFails && !c.startedEventRaises && c.generation.Generated? && !c.secondSaveFails
    && !c.completedEventRaises
  }

  /** Whatever fails, a returned result carries the stored title; a stored title stays coherent and never loses its
      text; and there is a result without an error exactly when nothing failed, and then the new title is stored. */
  lemma StepTellsTheTruth(allowed: TextRule, previous: Option<Title>, language: Language, c: Circumstances)
    requires IsCoherentIfAny(allowed, previous) && GeneratesAllowed(allowed, c)
    ensures var (r, stored) := Step(previous, language, c);
      && (r.Returned? ==> r.title == stored)
      && IsCoherentIfAny(allowed, stored)
      && (TitleText(previous).Some? ==> TitleText(stored).Some?)
      && (r.Returned? && r.error.None? <==> Succeeds(c))
      && (Succeeds(c) ==> stored == Some(Title(Some(c.generation.title), Completed, language, None)))
      && (r.Returned? && r.error.Some? ==> IsSafeCode(r.error.value))
  {
    OwnCodesAreSafe();
    if c.generation.RefusedWith? {
      ModelCodeIsSafe(c.generation.error);
    }
  }

  /** The step raises exactly when a progress report it reaches does. After the first the title is left stored as being
      generated; after the second the new title is stored, complete, and nobody is told. */
  lemma StepRaisesIff(previous: Option<Title>, language: Language, c: Circumstances)
    ensures var (r, stored) := Step(previous, language, c);
      var reached := c.transcript.Some? && !c.firstSaveFails;
      var completed := c.generation.Generated? && !c.secondSaveFails;
      && (r.Raised? <==> reached && (c.startedEventRaises || (completed && c.completedEventRaises)))
      && (r.Raised? && c.startedEventRaises ==> stored == Some(Title(TitleText(previous), Generating, language, None)))
      && (r.Raised? && !c.startedEventRaises ==>
            stored == Some(Title(Some(c.generation.title), Completed, language, None)))
  {
  }

  /** A returned result has the transcript as its body, if there is one, and the code of the first thing to fail: no
      transcript, a save, the model's own error, or another error of the call. */
  lemma StepReportsFirstFailure(previous: Option<Title>, language: Language, c: Circumstances)
    ensures var r := Step(previous, language, c).0;
      r.Returned? ==>
        && r.body == (if c.transcript.Some? then c.transcript.value else "")
        && (c.transcript.None? ==> r.error == Some("TITLE_TRANSCRIPT_UNAVAILABLE"))
        && (c.transcript.Some? && (c.firstSaveFails || c.secondSaveFails) ==> r.error == Some("TITLE_SAVE_FAILED"))
        && (c.transcript.Some? && !c.firstSaveFails && !c.secondSaveFails ==>
              (c.generation.RefusedWith? ==> r.error == Some(ModelCode(c.generation.error)))
              && (c.generation.OtherError? ==> r.error == Some("TITLE_GENERATION_FAILED")))
  {
  }

  /** The step replaces the stored text only by what the model generated, once that is saved. It leaves everything alone
      when it cannot begin, and otherwise stores the language asked for, and a failure of the model as failed. */
  lemma StepKeepsTextUntilReplaced(previous: Option<Title>, language: Language, c: Circumstances)
    ensures var (r, stored) := Step(previous, language, c);
      var begins := c.transcript.Some? && !c.firstSaveFails;
      var ends := begins && !c.startedEventRaises && !c.secondSaveFails;
      && (!begins ==> stored == previous)
      && (begins ==> stored.Some? && stored.value.language == language)
      && (ends && c.generation.Generated? ==> stored.value.text == Some(c.generation.title))
      && (begins && !(ends && c.generation.Generated?) ==>
            stored.value.text == if previous.Some? then previous.value.text else None)
      && (ends && !c.generation.Generated? ==>
            stored.value.status.Failed? && r.Returned? && stored.value.errorCode == r.error)
      && (begins && !ends ==> stored.value.status.Generating? && stored.value.errorCode.None?)
  {
  }

  /** A code is safe when it is up to 64 capital letters, digits and underscores, the first of them a letter. */
  lemma CodeIsSafeIff(code: string)
    ensures IsSafeCode(code) <==>
      && 0 < |code| < 65 && code[0] in "ABCDEFGHIJKLMNOPQRSTUVWXYZ"
      && forall i :: 0 <= i < |code| ==> code[i] in "ABCDEFGHIJKLMNOPQRSTUVWXYZ" || code[i] in "0123456789_"
  {
    assert forall c: char :: c in "ABCDEFGHIJKLMNOPQRSTUVWXYZ" <==> 'A' <= c <= 'Z';
    assert forall c: char :: c in "0123456789_" <==> '0' <= c <= '9' || c == '_';
  }

  // ----- the supervisor -----

  /** What the supervisor hears: the worker's answer, or how it went silent. */
  datatype Report = Answered(result: StepResult) | Silent(why: Silence)

  /** What the supervisor hands to the desktop. */
  datatype Settled = Settled(title: Option<Title>, error: Option<string>)

  /** An answer is published only when it is a completed title in the language asked for, and the very one stored. */
  predicate Publishes(stored: Option<Title>, language: Language, report: Report) {
    && report.Answered? && report.result.Returned? && report.result.error.None? && report.result.title.Some?
    && report.result.title.value.status.Completed? && report.result.title.value.language == language
    && report.result.title == stored
  }

  function FailureCode(report: Report): string {
    match report
    case Silent(why) => SilenceCode(why)
    case Answered(Raised) => SilenceCode(ProcessFailed)
    case Answered(Returned(_, _, error)) => if error.Some? then error.value else ModelCode(OutputInvalid)
  }

  function StatusFor(code: string): Status {
    if code == WORKER_CANCELLED then Cancelled else Failed
  }

  /** The supervisor's end of an attempt: `before` is the title it read before the worker ran, `stored` what it finds
      after; unless it publishes the answer it stores a failure over it, with the stored text. */
  function Settle(before: Option<Title>, stored: Option<Title>, language: Language, report: Report, saveFails: bool)
    : (Settled, Option<Title>)
  {
    if Publishes(stored, language, report) then (Settled(stored, None), stored)
    else
      var code := FailureCode(report);
      var failed := Title(TitleText(stored), StatusFor(code), language, Some(code));
      if saveFails then (Settled(before, Some(SAVE_FAILED)), stored)
      else (Settled(Some(failed), Some(code)), Some(failed))
  }

  /** Whatever it hears, true or not: the supervisor reports no error exactly for an answer without one whose title is
      completed, in the language asked for, and the very one stored. Otherwise it stores and reports the answer's
      error, or that the worker's output was invalid, or that it went silent. */
  lemma SupervisorTrustsOnlyTheStore(before: Option<Title>, stored: Option<Title>, language: Language, report: Report,
                                     saveFails: bool)
    ensures var (settled, left) := Settle(before, stored, language, report, saveFails);
      && (settled.error.None? <==>
            && report.Answered? && report.result.Returned? && report.result.error.None?
            && stored.Some? && report.result.title == stored
            && stored.value.status.Completed? && stored.value.language == language)
      && (settled.error.None? ==> settled.title == stored && left == stored)
      && (settled.error.Some? && saveFails ==>
            settled == Settled(before, Some("TITLE_SAVE_FAILED")) && left == stored)
      && (settled.error.Some? && !saveFails ==>
            && settled.title == left && left.Some? && left.value.errorCode == settled.error
            && left.value.text == (if stored.Some? then stored.value.text else None) && left.value.language == language
            && left.value.status == (if settled.error == Some("WORKER_CANCELLED") then Cancelled else Failed)
            && settled.error.value == (if report.Silent? then SilenceCode(report.why)
                                       else if report.result.Raised? then "WORKER_PROCESS_FAILED"
                                       else if report.result.error.Some? then report.result.error.value
                                       else "TITLE_OUTPUT_INVALID"))
  {
  }

  /** One attempt from end to end: the worker's step and the supervisor. A worker that goes silent part-way has stored
      what some circumstances of the whole step leave stored. */
  function Attempt(previous: Option<Title>, language: Language, c: Circumstances, silence: Option<Silence>,
                   saveFails: bool): (Settled, Option<Title>)
  {
    var (r, stored) := Step(previous, language, c);
    Settle(previous, stored, language, if silence.Some? then Silent(silence.value) else Answered(r), saveFails)
  }

  /** For every failure pattern of the whole attempt: no error is reported exactly when nothing failed and the worker
      answered, and then the new title is stored and shown; every error code is safe; the stored title is coherent and
      keeps its text; and what the desktop is handed is what is stored, unless the supervisor's own save failed. */
  lemma AttemptTellsTheTruth(allowed: TextRule, previous: Option<Title>, language: Language, c: Circumstances,
                             silence: Option<Silence>, saveFails: bool)
    requires IsCoherentIfAny(allowed, previous) && GeneratesAllowed(allowed, c)
    ensures var (settled, stored) := Attempt(previous, language, c, silence, saveFails);
      && (settled.error.None? <==> Succeeds(c) && silence.None?)
      && (settled.error.None? ==>
            settled.title == stored == Some(Title(Some(c.generation.title), Completed, language, None)))
      && (settled.error.Some? ==> IsSafeCode(settled.error.value))
      && (settled.error.Some? && !saveFails ==>
            settled.title == stored && stored.Some? && stored.value.status == StatusFor(settled.error.value)
            && stored.value.errorCode == settled.error && stored.value.language == language)
      && IsCoherentIfAny(allowed, stored) && IsCoherentIfAny(allowed, settled.title)
      && (TitleText(previous).Some? ==> TitleText(stored).Some?)
  {
    StepTellsTheTruth(allowed, previous, language, c);
    OwnCodesAreSafe();
    SilenceCodeIsSafe(ProcessFailed);
    ModelCodeIsSafe(OutputInvalid);
    if silence.Some? {
      SilenceCodeIsSafe(silence.value);
    }
  }

  /** What an attempt that does not succeed is put down to: the worker's silence, or what failed first in its step. */
  function CauseOf(c: Circumstances, silence: Option<Silence>): string {
    if silence.Some? then SilenceCode(silence.value)
    else if c.transcript.None? then "TITLE_TRANSCRIPT_UNAVAILABLE"
    else if c.firstSaveFails then "TITLE_SAVE_FAILED"
    else if c.startedEventRaises then "WORKER_PROCESS_FAILED"
    else if c.secondSaveFails then "TITLE_SAVE_FAILED"
    else if c.generation.RefusedWith? then ModelCode(c.generation.error)
    else if c.generation.OtherError? then "TITLE_GENERATION_FAILED"
    else "WORKER_PROCESS_FAILED"
  }

  /** An attempt that does not succeed is stored and reported under its cause, as cancelled for a cancellation and
      otherwise as failed, with the text the step left. When that cannot be saved, what the supervisor read before is
      handed over, with the failed save. */
  lemma AttemptReportsTheCause(previous: Option<Title>, language: Language, c: Circumstances, silence: Option<Silence>,
                               saveFails: bool)
    ensures var (settled, stored) := Attempt(previous, language, c, silence, saveFails);
      var left := Step(previous, language, c).1;
      if Succeeds(c) && silence.None? then settled.error.None?
      else if saveFails then settled == Settled(previous, Some("TITLE_SAVE_FAILED")) && stored == left
      else
        var cause := CauseOf(c, silence);
        settled.error == Some(cause) && settled.title == stored
        && stored == Some(Title(TitleText(left), if cause == "WORKER_CANCELLED" then Cancelled else Failed, language,
                                Some(cause)))
  {
  }

  /** The step leaves the store with a title marked as being generated. */
  predicate LeavesGenerating(previous: Option<Title>, c: Circumstances) {
    if c.transcript.None? || c.firstSaveFails then previous.Some? && previous.value.status.Generating?
    else c.startedEventRaises || c.secondSaveFails
  }

  /** A title is still stored as being generated after the attempt exactly when the step left it so, by a report or a
      save that failed or because it found it so and could not begin, and the supervisor's save failed as well. */
  lemma StaysGeneratingIff(previous: Option<Title>, language: Language, c: Circumstances, silence: Option<Silence>,
                           saveFails: bool)
    ensures var stored := Attempt(previous, language, c, silence, saveFails).1;
      stored.Some? && stored.value.status.Generating? <==> saveFails && LeavesGenerating(previous, c)
  {
  }
}
