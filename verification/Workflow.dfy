/** The desktop's task state: its reducers, the cancel controls projected from it, and how a title's result lands in
    it. */
module Workflow {

  import opened Text
  import opened NoteTitle

  datatype Stage =
    | WaitingInput | Cancelling | VideoExtracting | VideoTranscribing | WebLoading | WebExtracting | WebSaving
    | InsightsGenerating | TitleGenerating | StageCompleted | PartialCompleted | StageFailed | DraftGenerating

  datatype Target = Summary | Insights | Dissection | Draft

  datatype WorkerError = WorkerError(code: string, message: string, stage: Stage)

  datatype Source = WebPage(url: string, title: string) | Url(address: string) | LocalFile(name: string)

  datatype Insight = Insight(id: int, topic: string)

  /** What a finished task holds. */
  datatype Content = Content(
    text: string, markdown: string, summary: string, insights: seq<Insight>, taskId: Option<string>,
    taskDir: Option<string>, artifacts: map<string, string>, dissection: Option<string>, draft: string)

  const NO_CONTENT := Content("", "", "", [], None, None, map[], None, "")

  datatype WorkflowState = WorkflowState(
    stage: Stage, cancellingFrom: Option<Stage>, activeTarget: Option<Target>, errorTarget: Option<Target>,
    targetErrors: map<Target, WorkerError>, composerSource: string, taskSource: Option<Source>, content: Content,
    transcript: Option<string>, dissectionStale: bool, draftEdited: bool, draftSeed: Option<int>,
    noteTitle: Option<Title>, noteMetadata: Option<string>, error: Option<WorkerError>)

  datatype WorkerResult = WorkerResult(
    status: Stage, content: Content, source: Option<Source>, transcript: Option<string>, dissectionStale: bool,
    noteTitle: Option<Title>, error: Option<WorkerError>)

  /** The statuses a worker may report, and the stages a progress event may carry. */
  predicate IsResultStatus(stage: Stage) {
    stage in {StageCompleted, PartialCompleted, StageFailed}
  }

  predicate IsProgressStage(stage: Stage) {
    !stage.Cancelling? && !stage.DraftGenerating?
  }

  const INITIAL := WorkflowState(
    WaitingInput, None, None, None, map[], "", None, NO_CONTENT, None, false, false, None, None, None, None)

  /** A task id counts when it is there and not empty. */
  predicate HasTask(s: WorkflowState) {
    s.content.taskId.Some? && s.content.taskId.value != ""
  }

  // ----- the reducers -----

  function StartProcessing(s: WorkflowState, source: Source, webPage: bool): WorkflowState {
    INITIAL.(stage := if webPage then WebLoading else VideoExtracting, composerSource := s.composerSource,
             taskSource := Some(source), transcript := s.transcript)
  }

  function StartInsightRetry(s: WorkflowState, target: Target): WorkflowState {
    s.(stage := InsightsGenerating, cancellingFrom := None, activeTarget := Some(target),
       errorTarget := if s.errorTarget == Some(target) then None else s.errorTarget,
       targetErrors := s.targetErrors - {target}, error := None)
  }

  predicate HasArtifact(s: WorkflowState, name: string) {
    name in s.content.artifacts && s.content.artifacts[name] != ""
  }

  function StartNoteTitle(s: WorkflowState, language: Language): WorkflowState {
    if !HasTask(s) || !HasArtifact(s, "transcript_txt") then s
    else
      s.(stage := TitleGenerating, cancellingFrom := None, activeTarget := None,
         noteTitle := Some(Title(TitleText(s.noteTitle), Generating, language, None)), error := None)
  }

  predicate LocaleMismatch(s: WorkflowState, r: WorkerResult) {
    && r.error.None? && r.noteTitle.Some? && r.noteTitle.value.status.Completed?
    && s.noteTitle.Some? && r.noteTitle.value.language != s.noteTitle.value.language
  }

  function ReturnedTitle(s: WorkflowState, r: WorkerResult, error: Option<WorkerError>): Option<Title> {
    if !LocaleMismatch(s, r) && r.noteTitle.Some? then
      var t := r.noteTitle.value;
      Some(t.(text := if t.text.Some? then t.text else TitleText(s.noteTitle)))
    else if s.noteTitle.Some? then
      var code := if error.Some? then error.value.code else GENERATION_FAILED;
      Some(s.noteTitle.value.(status := StatusFor(code), errorCode := Some(code)))
    else None
  }

  function FinishNoteTitle(s: WorkflowState, r: WorkerResult): WorkflowState {
    if !HasTask(s) || (r.content.taskId.Some? && r.content.taskId != s.content.taskId) then s
    else
      var error := if LocaleMismatch(s, r) then Some(WorkerError(PROTOCOL_VIOLATION, "", TitleGenerating)) else r.error;
      var returned := ReturnedTitle(s, r, error);
      var title :=
        if returned.Some? && error.Some? then
          Some(returned.value.(
            status := StatusFor(error.value.code),
            language := if s.noteTitle.Some? then s.noteTitle.value.language else returned.value.language,
            errorCode := Some(error.value.code)))
        else returned;
      s.(stage := if title.Some? && title.value.status.Completed? then r.status else PartialCompleted,
         cancellingFrom := None, noteTitle := title, error := error)
  }

  function CancelNoteTitle(s: WorkflowState): WorkflowState {
    if !HasTask(s) || s.noteTitle.None? then s
    else
      s.(stage := PartialCompleted, cancellingFrom := None,
         noteTitle := Some(s.noteTitle.value.(status := Cancelled, errorCode := Some(WORKER_CANCELLED))),
         error := Some(WorkerError(WORKER_CANCELLED, "", TitleGenerating)))
  }

  predicate IsLive(stage: Stage) {
    || stage.VideoExtracting? || stage.VideoTranscribing? || stage.WebLoading? || stage.WebExtracting?
    || stage.WebSaving? || stage.TitleGenerating? || stage.InsightsGenerating?
  }

  function RequestCancellation(s: WorkflowState): WorkflowState {
    if !IsLive(s.stage) then s else s.(stage := Cancelling, cancellingFrom := Some(s.stage), error := None)
  }

  function RestoreAfterCancellationFailure(s: WorkflowState): WorkflowState {
    s.(stage := if s.cancellingFrom.Some? then s.cancellingFrom.value else VideoExtracting, cancellingFrom := None)
  }

  function ConfirmCancellation(s: WorkflowState): WorkflowState {
    if (s.cancellingFrom == Some(TitleGenerating) || s.stage.TitleGenerating?) && HasTask(s) then CancelNoteTitle(s)
    else if s.cancellingFrom == Some(InsightsGenerating) && s.activeTarget.Some? && s.content.taskId.Some? then
      s.(stage := if |s.targetErrors| > 0 then PartialCompleted else StageCompleted,
         cancellingFrom := None, activeTarget := None, error := None)
    else INITIAL.(composerSource := s.composerSource)
  }

  predicate IsProcessingStage(stage: Stage) {
    || stage.VideoExtracting? || stage.VideoTranscribing? || stage.WebLoading? || stage.WebExtracting?
    || stage.WebSaving? || stage.TitleGenerating? || stage.InsightsGenerating? || stage.Cancelling?
  }

  predicate IsTargetFailure(error: Option<WorkerError>) {
    error.Some? && (error.value.stage.InsightsGenerating? || error.value.stage.DraftGenerating?)
  }

  function SettledStage(title: Option<Title>, stage: Stage): Stage {
    if title.Some? && !title.value.status.Completed? then PartialCompleted else stage
  }

  function SummarizeResult(r: WorkerResult, failedTarget: Option<Target>): WorkflowState {
    var failed := IsTargetFailure(r.error);
    WorkflowState(
      SettledStage(r.noteTitle, r.status), None, None, if failed then failedTarget else None,
      if failed && failedTarget.Some? then map[failedTarget.value := r.error.value] else map[],
      "", r.source, r.content, r.transcript, r.dissectionStale, false, None, r.noteTitle, None, r.error)
  }

  function FinishInsightRetry(s: WorkflowState, r: WorkerResult, target: Target): WorkflowState {
    var next := SummarizeResult(r, None);
    var failed := IsTargetFailure(r.error);
    var title := if r.noteTitle.Some? then r.noteTitle else s.noteTitle;
    var keepsDissection := target.Dissection? && r.error.Some? && r.content.dissection.None?;
    next.(
      noteTitle := title, noteMetadata := s.noteMetadata, stage := SettledStage(title, next.stage),
      composerSource := s.composerSource, taskSource := s.taskSource,
      content := next.content.(
        markdown := s.content.markdown,
        dissection := if keepsDissection then s.content.dissection else r.content.dissection),
      errorTarget := if failed then Some(target) else None,
      targetErrors := if failed then s.targetErrors[target := r.error.value] else s.targetErrors - {target},
      dissectionStale :=
        if !target.Dissection? || r.error.Some? then s.dissectionStale
        else r.content.dissection.None? && next.dissectionStale,
      draftSeed := if target.Insights? then None else s.draftSeed,
      draftEdited := !(target.Draft? && !failed) && s.draftEdited)
  }

  function MergeProgress(s: WorkflowState, stage: Stage): WorkflowState {
    s.(stage := stage)
  }

  // ----- the cancel controls -----

  datatype Owner = Local | Ai | NoOwner

  datatype Control = Control(visible: bool, enabled: bool, inProgress: bool)

  function CancellationOwner(s: WorkflowState): Owner {
    var stage := if s.stage.Cancelling? then s.cancellingFrom else Some(s.stage);
    if stage.None? then NoOwner
    else if stage.value.InsightsGenerating? || stage.value.TitleGenerating? then Ai
    else if stage.value.VideoExtracting? || stage.value.VideoTranscribing? || stage.value.WebLoading?
            || stage.value.WebExtracting? || stage.value.WebSaving? then Local
    else NoOwner
  }

  function ControlOf(workspace: Owner, s: WorkflowState): Control {
    var visible := CancellationOwner(s) == workspace;
    var inProgress := visible && s.stage.Cancelling?;
    Control(visible, visible && !inProgress, inProgress)
  }

  // ----- runs -----

  /** Whatever the user or the worker does next. */
  datatype Event =
    | Process(source: Source, webPage: bool)
    | Retry(target: Target)
    | StartTitle(language: Language)
    | FinishTitle(result: WorkerResult)
    | CancelTitle
    | Request | Restore | Confirm
    | Summarize(result: WorkerResult, failedTarget: Option<Target>)
    | FinishRetry(result: WorkerResult, target: Target)
    | Progress(stage: Stage)
    | EditDraft(markdown: string)

  function Apply(s: WorkflowState, e: Event): WorkflowState {
    match e
    case Process(source, webPage) => StartProcessing(s, source, webPage)
    case Retry(target) => StartInsightRetry(s, target)
    case StartTitle(language) => StartNoteTitle(s, language)
    case FinishTitle(result) => FinishNoteTitle(s, result)
    case CancelTitle => CancelNoteTitle(s)
    case Request => RequestCancellation(s)
    case Restore => RestoreAfterCancellationFailure(s)
    case Confirm => ConfirmCancellation(s)
    case Summarize(result, failedTarget) => SummarizeResult(result, failedTarget)
    case FinishRetry(result, target) => FinishInsightRetry(s, result, target)
    case Progress(stage) => MergeProgress(s, stage)
    case EditDraft(markdown) => s.(content := s.content.(draft := markdown), draftEdited := true)
  }

  /** The worker keeps its wire contract: its statuses and stages are known, titles are coherent, codes are safe. */
  predicate IsWellFormed(allowed: TextRule, e: Event) {
    && (e.Progress? ==> IsProgressStage(e.stage))
    && (e.FinishTitle? || e.Summarize? || e.FinishRetry? ==> IsWellFormedResult(allowed, e.result))
  }

  predicate IsWellFormedResult(allowed: TextRule, r: WorkerResult) {
    && IsResultStatus(r.status) && IsCoherentIfAny(allowed, r.noteTitle)
    && (r.error.Some? ==> IsSafeCode(r.error.value.code))
  }

  predicate AllWellFormed(allowed: TextRule, events: seq<Event>) {
    forall i :: 0 <= i < |events| ==> IsWellFormed(allowed, events[i])
  }

  function Run(s: WorkflowState, events: seq<Event>): WorkflowState
    decreases events
  {
    if events == [] then s else Run(Apply(s, events[0]), events[1..])
  }

  /** A cancelling state remembers the live stage it came from; the title is coherent; a target being generated has no
      error on record, and every error on record is a target's own failure. */
  ghost predicate Inv(allowed: TextRule, s: WorkflowState) {
    && (s.stage.Cancelling? ==> s.cancellingFrom.Some?)
    && (s.cancellingFrom.Some? ==> IsLive(s.cancellingFrom.value))
    && !s.stage.DraftGenerating?
    && IsCoherentIfAny(allowed, s.noteTitle)
    && ErrorsAreAttributed(s)
  }

  ghost predicate ErrorsAreAttributed(s: WorkflowState) {
    && (s.activeTarget.Some? ==> s.activeTarget.value !in s.targetErrors)
    && (s.errorTarget.Some? ==> s.errorTarget.value in s.targetErrors)
    && (forall t :: t in s.targetErrors ==> IsTargetFailure(Some(s.targetErrors[t])))
  }

  lemma FinishNoteTitleKeepsInv(allowed: TextRule, s: WorkflowState, r: WorkerResult)
    requires Inv(allowed, s) && IsWellFormedResult(allowed, r)
    ensures Inv(allowed, FinishNoteTitle(s, r))
  {
    OwnCodesAreSafe();
  }

  lemma CancelKeepsInv(allowed: TextRule, s: WorkflowState)
    requires Inv(allowed, s)
    ensures Inv(allowed, CancelNoteTitle(s)) && Inv(allowed, ConfirmCancellation(s))
  {
    OwnCodesAreSafe();
  }

  lemma FinishInsightRetryKeepsInv(allowed: TextRule, s: WorkflowState, r: WorkerResult, target: Target)
    requires Inv(allowed, s) && IsWellFormedResult(allowed, r)
    ensures Inv(allowed, FinishInsightRetry(s, r, target))
  {
  }

  lemma ApplyKeepsInv(allowed: TextRule, s: WorkflowState, e: Event)
    requires Inv(allowed, s) && IsWellFormed(allowed, e)
    ensures Inv(allowed, Apply(s, e))
  {
    match e
    case FinishTitle(r) => FinishNoteTitleKeepsInv(allowed, s, r);
    case FinishRetry(r, target) => FinishInsightRetryKeepsInv(allowed, s, r, target);
    case CancelTitle => CancelKeepsInv(allowed, s);
    case Confirm => CancelKeepsInv(allowed, s);
    case _ => OtherEventsKeepInv(allowed, s, e);
  }

  lemma OtherEventsKeepInv(allowed: TextRule, s: WorkflowState, e: Event)
    requires Inv(allowed, s) && IsWellFormed(allowed, e)
    requires !e.FinishTitle? && !e.FinishRetry? && !e.CancelTitle? && !e.Confirm?
    ensures Inv(allowed, Apply(s, e))
  {
  }

  lemma {:induction false} RunKeepsInv(allowed: TextRule, s: WorkflowState, events: seq<Event>)
    requires Inv(allowed, s) && AllWellFormed(allowed, events)
    ensures Inv(allowed, Run(s, events))
    decreases events
  {
    if events != [] {
      ApplyKeepsInv(allowed, s, events[0]);
      RunKeepsInv(allowed, Apply(s, events[0]), events[1..]);
    }
  }

  /** Every state any run reaches is sound. */
  lemma EveryRunIsSound(allowed: TextRule, events: seq<Event>)
    requires AllWellFormed(allowed, events)
    ensures Inv(allowed, Run(INITIAL, events))
  {
    RunKeepsInv(allowed, INITIAL, events);
  }

  // ----- cancelling -----

  /** In every reachable state exactly one workspace offers an enabled cancel when asking for cancellation would
      change the state, and otherwise none; the processing stages are those, and the cancelling ones, where exactly
      one workspace shows the cancellation in progress. */
  lemma ControlsAgreeWithReducer(allowed: TextRule, events: seq<Event>)
    requires AllWellFormed(allowed, events)
    ensures var s := Run(INITIAL, events);
      var local, ai := ControlOf(Local, s), ControlOf(Ai, s);
      && !(local.visible && ai.visible)
      && (local.enabled || ai.enabled <==> RequestCancellation(s) != s)
      && (local.inProgress || ai.inProgress <==> s.stage.Cancelling?)
      && (IsProcessingStage(s.stage) <==> RequestCancellation(s) != s || s.stage.Cancelling?)
      && (local.enabled ==> ControlOf(Local, RequestCancellation(s)) == Control(true, false, true))
      && (ai.enabled ==> ControlOf(Ai, RequestCancellation(s)) == Control(true, false, true))
  {
    RunKeepsInv(allowed, INITIAL, events);
  }

  predicate IsProgressOnly(events: seq<Event>) {
    forall i :: 0 <= i < |events| ==> events[i].Progress?
  }

  lemma {:induction false} ProgressMovesOnlyTheStage(s: WorkflowState, events: seq<Event>)
    requires IsProgressOnly(events)
    ensures Run(s, events) == s.(stage := Run(s, events).stage)
    decreases events
  {
    if events != [] {
      ProgressMovesOnlyTheStage(Apply(s, events[0]), events[1..]);
    }
  }

  /** A failed cancellation puts the task back in the stage it was cancelled from, whatever progress arrived
      meanwhile, and has touched nothing but the shown error. */
  lemma RestoreUndoesRequest(s: WorkflowState, between: seq<Event>)
    requires IsLive(s.stage) && IsProgressOnly(between)
    ensures RestoreAfterCancellationFailure(Run(RequestCancellation(s), between))
      == s.(cancellingFrom := None, error := None)
  {
    ProgressMovesOnlyTheStage(RequestCancellation(s), between);
  }

  /** Confirming a cancellation keeps the task's content exactly when a title generation was being cancelled on a task
      with an id, or an insight generation with a known target on a task with an id; or there was nothing to lose. */
  lemma ConfirmKeepsContentIff(s: WorkflowState)
    ensures ConfirmCancellation(s).content == s.content <==>
      || ((s.cancellingFrom == Some(TitleGenerating) || s.stage.TitleGenerating?) && HasTask(s))
      || (s.cancellingFrom == Some(InsightsGenerating) && s.activeTarget.Some? && s.content.taskId.Some?)
      || s.content == NO_CONTENT
  {
  }

  // ----- cancelling a retry -----

  /** What may happen to a retry between its start and its end: progress of its own stage, requests, and restores. */
  predicate IsRetryEvent(e: Event) {
    e == Progress(InsightsGenerating) || e.Request? || e.Restore?
  }

  /** A request has been made and not been taken back. */
  predicate IsPending(events: seq<Event>) {
    events != [] &&
    var last := events[|events| - 1];
    last.Request? || (!last.Restore? && IsPending(events[..|events| - 1]))
  }

  /** The controller restores only what it has requested. */
  predicate IsRetryRun(events: seq<Event>) {
    events == [] ||
    var before, last := events[..|events| - 1], events[|events| - 1];
    IsRetryRun(before) && IsRetryEvent(last) && (last.Restore? ==> IsPending(before))
  }

  lemma {:induction false} RunAppends(s: WorkflowState, events: seq<Event>, e: Event)
    ensures Run(s, events + [e]) == Apply(Run(s, events), e)
    decreases events
  {
    if events == [] {
      assert (events + [e])[1..] == [];
    } else {
      assert (events + [e])[1..] == events[1..] + [e];
      RunAppends(Apply(s, events[0]), events[1..], e);
    }
  }

  /** All through a retry only stage, origin and shown error move: with a request pending the origin is the retry's
      stage, without one there is none, and the stage is live. */
  lemma {:induction false} RetryRunIs(s: WorkflowState, target: Target, events: seq<Event>)
    requires IsRetryRun(events)
    ensures var started, now := StartInsightRetry(s, target), Run(StartInsightRetry(s, target), events);
      && now.cancellingFrom == (if IsPending(events) then Some(InsightsGenerating) else None)
      && (now.stage.InsightsGenerating? || (now.stage.Cancelling? && IsPending(events)))
      && now == started.(stage := now.stage, cancellingFrom := now.cancellingFrom, error := now.error)
  {
    if events != [] {
      var before, last := events[..|events| - 1], events[|events| - 1];
      RetryRunIs(s, target, before);
      RunAppends(StartInsightRetry(s, target), before, last);
      assert events == before + [last];
    }
  }

  /** A saved task retries a target, with progress, requests and restores in any order the controller can make: when the
      worker then reports a cancellation, confirming it keeps the task's content exactly when a request is pending. */
  lemma RetryCancelKeepsContentIff(s: WorkflowState, target: Target, events: seq<Event>)
    requires HasTask(s) && IsRetryRun(events)
    ensures ConfirmCancellation(Run(StartInsightRetry(s, target), events)).content == s.content <==> IsPending(events)
  {
    RetryRunIs(s, target, events);
    ConfirmKeepsContentIff(Run(StartInsightRetry(s, target), events));
  }

  /** So a run of the program loses a saved task: the cancel command fails and is taken back, and the worker then
      reports the cancellation after all. */
  lemma RestoredCancelLosesTheTask(s: WorkflowState, target: Target)
    requires HasTask(s)
    ensures Run(s, [Retry(target), Request, Restore, Confirm]) == INITIAL.(composerSource := s.composerSource)
    ensures Run(s, [Retry(target), Request, Restore, Confirm]).content != s.content
  {
    var between := [Request, Restore];
    assert between[..1] == [Request] && [Request][..0] == [];
    assert IsRetryRun([Request]) && IsPending([Request]);
    assert IsRetryRun(between) && !IsPending(between);
    RetryRunIs(s, target, between);
    RunAppends(StartInsightRetry(s, target), between, Confirm);
    var all := [Retry(target), Request, Restore, Confirm];
    assert all[1..] == between + [Confirm];
    assert Run(s, all) == Run(Apply(s, Retry(target)), all[1..]);
  }

  // ----- titles -----

  /** No start, finish or cancel of a title, and no confirmed cancellation of one, loses a title text. */
  lemma TitleTextSurvives(s: WorkflowState, e: Event)
    requires TitleText(s.noteTitle).Some?
    requires e.StartTitle? || e.FinishTitle? || e.CancelTitle?
    ensures TitleText(Apply(s, e).noteTitle).Some?
  {
  }

  /** What the supervisor settled, as the desktop receives it, bound to the task it was started for. */
  function ResultOf(settled: Settled, s: WorkflowState): WorkerResult {
    WorkerResult(
      if settled.error.Some? then PartialCompleted else StageCompleted, NO_CONTENT.(taskId := s.content.taskId),
      None, None, false, settled.title,
      if settled.error.Some? then Some(WorkerError(settled.error.value, "", TitleGenerating)) else None)
  }

  predicate LanguageAgrees(s: WorkflowState, language: Language) {
    s.noteTitle.None? || s.noteTitle.value.language == language
  }

  /** Any result with an error settles the title; in the language shown, and with a text, it is shown as it comes. */
  lemma ErrorSettlesTheTitle(allowed: TextRule, s: WorkflowState, r: WorkerResult)
    requires HasTask(s) && IsCoherentIfAny(allowed, s.noteTitle) && IsWellFormedResult(allowed, r)
    requires r.error.Some? && (r.content.taskId.None? || r.content.taskId == s.content.taskId)
    ensures var after := FinishNoteTitle(s, r);
      && IsCoherentIfAny(allowed, after.noteTitle) && after.stage.PartialCompleted?
      && (after.noteTitle.Some? ==> after.noteTitle.value.status == StatusFor(r.error.value.code))
    ensures r.noteTitle.Some? && Tells(r.noteTitle.value, r.error.value.code) && IsShownWhole(s, r.noteTitle.value) ==>
      FinishNoteTitle(s, r).noteTitle == r.noteTitle
  {
  }

  /** The title carries the error. */
  predicate Tells(t: Title, code: string) {
    t.status == StatusFor(code) && t.errorCode == Some(code)
  }

  /** The title replaces all that is shown: it is in the language shown, and no shown text is missing from it. */
  predicate IsShownWhole(s: WorkflowState, t: Title) {
    LanguageAgrees(s, t.language) && (t.text.Some? || TitleText(s.noteTitle).None?)
  }

  /** A completed title without an error is shown as it comes in the language shown, and refused in another. */
  lemma SuccessSettlesTheTitle(allowed: TextRule, s: WorkflowState, r: WorkerResult)
    requires HasTask(s) && IsCoherentIfAny(allowed, s.noteTitle) && IsWellFormedResult(allowed, r)
    requires r.error.None? && (r.content.taskId.None? || r.content.taskId == s.content.taskId)
    requires r.noteTitle.Some? && r.noteTitle.value.status.Completed?
    ensures var after := FinishNoteTitle(s, r);
      && IsCoherentIfAny(allowed, after.noteTitle)
      && (if LanguageAgrees(s, r.noteTitle.value.language)
          then after.noteTitle == r.noteTitle && after.stage == r.status
          else after.noteTitle.Some? && after.noteTitle.value.status.Failed? && after.stage.PartialCompleted?
               && TitleText(after.noteTitle) == TitleText(s.noteTitle))
  {
    OwnCodesAreSafe();
  }

  /** For every way an attempt can go, raising, silent and failing saves included: feeding its result back settles the
      title. It is no longer being generated and stays coherent; the task counts as completed exactly when nothing
      failed and the languages agree; and the desktop then shows exactly what is stored, unless the supervisor's own
      save failed or the store has no text where the desktop has one. */
  lemma FinishSettlesTheTitle(allowed: TextRule, s: WorkflowState, previous: Option<Title>, language: Language,
                              c: Circumstances, silence: Option<Silence>, saveFails: bool)
    requires HasTask(s) && IsCoherentIfAny(allowed, s.noteTitle) && IsCoherentIfAny(allowed, previous)
    requires GeneratesAllowed(allowed, c)
    ensures var (settled, stored) := Attempt(previous, language, c, silence, saveFails);
      var after := FinishNoteTitle(s, ResultOf(settled, s));
      && IsCoherentIfAny(allowed, after.noteTitle)
      && (after.noteTitle.Some? ==> !after.noteTitle.value.status.Generating?)
      && (after.stage.StageCompleted? <==> Succeeds(c) && silence.None? && LanguageAgrees(s, language))
      && (ShowsStored(s, settled, stored, language, saveFails) ==> after.noteTitle == stored)
      && (Succeeds(c) && silence.None? && !LanguageAgrees(s, language) ==>
            && after.noteTitle.Some? && after.noteTitle.value.status.Failed?
            && TitleText(after.noteTitle) == TitleText(s.noteTitle))
  {
    AttemptTellsTheTruth(allowed, previous, language, c, silence, saveFails);
    var (settled, stored) := Attempt(previous, language, c, silence, saveFails);
    SettledIsShown(allowed, s, settled, stored, language, saveFails);
  }

  /** The desktop can show what is stored: the supervisor's save worked, the languages agree, and no text is missing. */
  predicate ShowsStored(s: WorkflowState, settled: Settled, stored: Option<Title>, language: Language,
                        saveFails: bool)
  {
    && LanguageAgrees(s, language) && (settled.error.None? || !saveFails)
    && (TitleText(stored).Some? || TitleText(s.noteTitle).None?)
  }

  lemma SettledIsShown(allowed: TextRule, s: WorkflowState, settled: Settled, stored: Option<Title>, language: Language,
                       saveFails: bool)
    requires HasTask(s) && IsCoherentIfAny(allowed, s.noteTitle) && IsCoherentIfAny(allowed, settled.title)
    requires settled.error.Some? ==> IsSafeCode(settled.error.value)
    requires settled.error.None? || !saveFails ==>
      (settled.title == stored && stored.Some? && stored.value.language == language)
    requires settled.error.None? ==> stored.value.status.Completed?
    requires settled.error.Some? && !saveFails ==> Tells(stored.value, settled.error.value)
    ensures var after := FinishNoteTitle(s, ResultOf(settled, s));
      && IsCoherentIfAny(allowed, after.noteTitle)
      && (after.noteTitle.Some? ==> !after.noteTitle.value.status.Generating?)
      && (after.stage.StageCompleted? <==> settled.error.None? && LanguageAgrees(s, language))
      && (ShowsStored(s, settled, stored, language, saveFails) ==> after.noteTitle == stored)
      && (settled.error.None? && !LanguageAgrees(s, language) ==>
            && after.noteTitle.Some? && after.noteTitle.value.status.Failed?
            && TitleText(after.noteTitle) == TitleText(s.noteTitle))
  {
    var r := ResultOf(settled, s);
    if settled.error.Some? {
      ErrorSettlesTheTitle(allowed, s, r);
    } else {
      SuccessSettlesTheTitle(allowed, s, r);
    }
  }

  // ----- what a retry leaves alone -----

  /** Regenerating one target changes no other target's error; its own error is on record afterwards exactly when it
      failed, and it is no longer being generated. */
  lemma RetryConcernsOneTarget(allowed: TextRule, events: seq<Event>, r: WorkerResult, target: Target, other: Target)
    requires AllWellFormed(allowed, events)
    ensures var s := Run(INITIAL, events);
      var after := FinishInsightRetry(s, r, target);
      && (target in after.targetErrors <==> IsTargetFailure(r.error))
      && (other != target ==> (other in after.targetErrors <==> other in s.targetErrors))
      && (other != target && other in s.targetErrors ==> after.targetErrors[other] == s.targetErrors[other])
      && after.activeTarget.None? && ErrorsAreAttributed(after)
  {
    RunKeepsInv(allowed, INITIAL, events);
  }

  /** The controller starts a retry only on an idle task that is saved and has a source text. */
  predicate CanRetry(s: WorkflowState) {
    !IsProcessingStage(s.stage) && HasSourceText(s)
  }

  predicate HasSourceText(s: WorkflowState) {
    && HasTask(s) && Trim(s.content.text, IsJsSpace) != ""
    && (HasArtifact(s, "article_txt") || HasArtifact(s, "transcript_txt"))
  }

  /** The controller fills what a result leaves out from what is shown. */
  function Filled(s: WorkflowState, r: WorkerResult): WorkerResult {
    var from, shown := r.content, s.content;
    r.(content := from.(
         taskId := if from.taskId.Some? then from.taskId else shown.taskId,
         taskDir := if from.taskDir.Some? then from.taskDir else shown.taskDir,
         artifacts := shown.artifacts + from.artifacts,
         text := if from.text != "" then from.text else shown.text,
         summary := if from.summary != "" then from.summary else shown.summary,
         insights := if from.insights != [] then from.insights else shown.insights,
         dissection := if from.dissection.Some? then from.dissection else shown.dissection),
       transcript := if r.transcript.Some? then r.transcript else s.transcript)
  }

  /** One retry: its target, what comes between start and end, its result, and whether a cancel command still under way
      when the result arrives then fails. */
  datatype InsightRetry = InsightRetry(target: Target, between: seq<Event>, result: WorkerResult, failsLate: bool)

  predicate IsCancelled(a: InsightRetry) {
    a.result.error.Some? && a.result.error.value.code == WORKER_CANCELLED
  }

  /** A retry that cannot start changes nothing. A cancelled one is confirmed, and later answers are then ignored; any
      other is finished with its filled-in result, and a cancel command that fails after that is still taken back. */
  function AfterRetry(s: WorkflowState, a: InsightRetry): WorkflowState {
    if !CanRetry(s) then s
    else
      var ended := Run(StartInsightRetry(s, a.target), a.between);
      if IsCancelled(a) then ConfirmCancellation(ended)
      else
        var finished := FinishInsightRetry(ended, Filled(ended, a.result), a.target);
        if FailsLate(a) then RestoreAfterCancellationFailure(finished) else finished
  }

  /** A cancel command is under way when the result arrives, and fails afterwards. */
  predicate FailsLate(a: InsightRetry) {
    IsPending(a.between) && a.failsLate
  }

  function AfterRetries(s: WorkflowState, retries: seq<InsightRetry>): WorkflowState
    decreases |retries|
  {
    if retries == [] then s else AfterRetries(AfterRetry(s, retries[0]), retries[1..])
  }

  /** Everything the first shows, the second still shows, or something newer. */
  ghost predicate KeepsShowing(a: WorkflowState, b: WorkflowState) {
    && KeepsContent(a.content, b.content) && (a.transcript.Some? ==> b.transcript.Some?)
    && (a.noteTitle.Some? ==> b.noteTitle.Some?) && b.noteMetadata == a.noteMetadata && b.taskSource == a.taskSource
  }

  ghost predicate KeepsContent(x: Content, y: Content) {
    && (x.taskId.Some? ==> y.taskId.Some?) && (x.taskDir.Some? ==> y.taskDir.Some?)
    && x.artifacts.Keys <= y.artifacts.Keys
    && (x.text != "" ==> y.text != "") && (x.summary != "" ==> y.summary != "")
    && (x.insights != [] ==> y.insights != []) && (x.dissection.Some? ==> y.dissection.Some?)
    && y.markdown == x.markdown
  }

  /** The retry starts, is cancelled and has no request pending when it ends. */
  predicate Discards(s: WorkflowState, a: InsightRetry) {
    CanRetry(s) && IsCancelled(a) && !IsPending(a.between)
  }

  /** A confirmed cancellation of a retry either only settles the stage, or clears everything but the composer. */
  lemma CancelledRetryIs(s: WorkflowState, a: InsightRetry)
    requires CanRetry(s) && IsRetryRun(a.between) && IsCancelled(a)
    ensures var after := AfterRetry(s, a);
      if IsPending(a.between)
      then after.content == s.content && KeepsShowing(s, after)
           && (after.stage.StageCompleted? || after.stage.PartialCompleted?)
      else after == INITIAL.(composerSource := s.composerSource)
  {
    RetryRunIs(s, a.target, a.between);
  }

  lemma FilledKeepsShowing(s: WorkflowState, r: WorkerResult, target: Target)
    ensures KeepsShowing(s, FinishInsightRetry(s, Filled(s, r), target))
  {
  }

  lemma FinishedRetryKeepsShowing(s: WorkflowState, a: InsightRetry)
    requires CanRetry(s) && IsRetryRun(a.between) && !IsCancelled(a)
    ensures KeepsShowing(s, AfterRetry(s, a))
  {
    var ended := Run(StartInsightRetry(s, a.target), a.between);
    RetryRunIs(s, a.target, a.between);
    FilledKeepsShowing(ended, a.result, a.target);
    KeepsShowingTheSame(ended, FinishInsightRetry(ended, Filled(ended, a.result), a.target), s, AfterRetry(s, a));
  }

  predicate ShowsTheSame(a: WorkflowState, b: WorkflowState) {
    && a.content == b.content && a.transcript == b.transcript && a.noteTitle == b.noteTitle
    && a.noteMetadata == b.noteMetadata && a.taskSource == b.taskSource
  }

  lemma KeepsShowingTheSame(a: WorkflowState, b: WorkflowState, c: WorkflowState, d: WorkflowState)
    requires KeepsShowing(a, b) && ShowsTheSame(a, c) && ShowsTheSame(b, d)
    ensures KeepsShowing(c, d)
  {
  }

  lemma {:induction false} NothingStarts(s: WorkflowState, retries: seq<InsightRetry>)
    requires !CanRetry(s)
    ensures AfterRetries(s, retries) == s
    decreases |retries|
  {
    if retries != [] {
      NothingStarts(s, retries[1..]);
    }
  }

  /** No retry of the sequence discards the task. */
  predicate NoneDiscards(s: WorkflowState, retries: seq<InsightRetry>)
    decreases |retries|
  {
    retries != [] ==> !Discards(s, retries[0]) && NoneDiscards(AfterRetry(s, retries[0]), retries[1..])
  }

  predicate AreRetryRuns(retries: seq<InsightRetry>) {
    forall i :: 0 <= i < |retries| ==> IsRetryRun(retries[i].between)
  }

  /** Over any sequence of retries of any targets, each with progress, requests and restores in between, ending well,
      badly or cancelled, nothing the task shows but its draft is lost exactly when no retry that starts is cancelled
      without a request pending. Otherwise everything is lost. */
  lemma {:induction false} RetriesLoseNothingIff(s: WorkflowState, retries: seq<InsightRetry>)
    requires AreRetryRuns(retries)
    ensures KeepsShowing(s, AfterRetries(s, retries)) <==> NoneDiscards(s, retries)
    ensures !NoneDiscards(s, retries) ==> HasTask(s) && AfterRetries(s, retries).content == NO_CONTENT
    decreases |retries|
  {
    if retries != [] {
      var next := AfterRetry(s, retries[0]);
      RetriesLoseNothingIff(next, retries[1..]);
      if Discards(s, retries[0]) {
        CancelledRetryIs(s, retries[0]);
        NothingStarts(next, retries[1..]);
      } else if CanRetry(s) && IsCancelled(retries[0]) {
        CancelledRetryIs(s, retries[0]);
      } else if CanRetry(s) {
        FinishedRetryKeepsShowing(s, retries[0]);
      }
    }
  }

  /** A finished retry ends with the reported status or as partly completed. */
  lemma FinishingSettles(s: WorkflowState, r: WorkerResult, target: Target)
    ensures var after := FinishInsightRetry(s, r, target);
      (after.stage == r.status || after.stage.PartialCompleted?) && after.cancellingFrom.None?
  {
  }

  /** A result that leaves the task ready for the next retry: it names the shown task or none, has a text that is not
      blank or none, and empties no artifact; and no cancel command fails after it. */
  predicate LeavesReady(s: WorkflowState, a: InsightRetry) {
    IsResultStatus(a.result.status) && !FailsLate(a) && HasUsableParts(s, a.result.content)
  }

  predicate HasUsableParts(s: WorkflowState, from: Content) {
    && (from.taskId.None? || from.taskId == s.content.taskId)
    && (from.text == "" || Trim(from.text, IsJsSpace) != "")
    && (forall k :: k in from.artifacts ==> from.artifacts[k] != "")
  }

  lemma RetryStaysReady(s: WorkflowState, a: InsightRetry)
    requires CanRetry(s) && IsRetryRun(a.between) && LeavesReady(s, a) && !Discards(s, a)
    ensures CanRetry(AfterRetry(s, a)) && AfterRetry(s, a).content.taskId == s.content.taskId
  {
    if IsCancelled(a) {
      CancelledRetryIs(s, a);
    } else {
      var ended := Run(StartInsightRetry(s, a.target), a.between);
      RetryRunIs(s, a.target, a.between);
      assert ended.content == s.content;
      FinishedStaysReady(ended, a.result, a.target);
    }
  }

  lemma FinishedStaysReady(s: WorkflowState, r: WorkerResult, target: Target)
    requires HasSourceText(s) && HasUsableParts(s, r.content) && IsResultStatus(r.status)
    ensures var after := FinishInsightRetry(s, Filled(s, r), target);
      CanRetry(after) && after.content.taskId == s.content.taskId
  {
    FinishingSettles(s, Filled(s, r), target);
    FilledHasSourceText(s, r, target);
  }

  lemma FilledHasSourceText(s: WorkflowState, r: WorkerResult, target: Target)
    requires HasSourceText(s) && HasUsableParts(s, r.content)
    ensures var after := FinishInsightRetry(s, Filled(s, r), target);
      HasSourceText(after) && after.content.taskId == s.content.taskId
  {
  }

  /** When every result leaves the task ready for the next, the condition is on the retries alone: every cancelled one
      must end with a request pending. */
  lemma ReadyRetriesLoseNothingIff(s: WorkflowState, retries: seq<InsightRetry>)
    requires CanRetry(s) && AreRetryRuns(retries)
    requires forall i :: 0 <= i < |retries| ==> LeavesReady(s, retries[i])
    ensures KeepsShowing(s, AfterRetries(s, retries)) <==>
      forall i :: 0 <= i < |retries| && IsCancelled(retries[i]) ==> IsPending(retries[i].between)
  {
    RetriesLoseNothingIff(s, retries);
    NoneDiscardsIff(s, retries);
  }

  lemma {:induction false} NoneDiscardsIff(s: WorkflowState, retries: seq<InsightRetry>)
    requires CanRetry(s) && AreRetryRuns(retries)
    requires forall i :: 0 <= i < |retries| ==> LeavesReady(s, retries[i])
    ensures NoneDiscards(s, retries) <==>
      forall i :: 0 <= i < |retries| && IsCancelled(retries[i]) ==> IsPending(retries[i].between)
    decreases |retries|
  {
    if retries != [] && !Discards(s, retries[0]) {
      var next, rest := AfterRetry(s, retries[0]), retries[1..];
      RetryStaysReady(s, retries[0]);
      assert forall i :: 0 <= i < |rest| ==> rest[i] == retries[i + 1];
      NoneDiscardsIff(next, rest);
      assert forall i :: 1 <= i < |retries| ==> retries[i] == rest[i - 1];
    }
  }

  /** The draft is not filled in: a shown draft survives a retry exactly when the retry does not start, is cancelled
      with a request pending, or ends otherwise with a draft in its result. */
  lemma DraftSurvivesIff(s: WorkflowState, a: InsightRetry)
    requires IsRetryRun(a.between) && s.content.draft != ""
    ensures AfterRetry(s, a).content.draft != "" <==>
      || !CanRetry(s)
      || (if IsCancelled(a) then IsPending(a.between) else a.result.content.draft != "")
  {
    RetryRunIs(s, a.target, a.between);
    if CanRetry(s) && IsCancelled(a) {
      CancelledRetryIs(s, a);
    }
  }

  /** So a retry whose command fails clears the draft. */
  lemma FailedCommandClearsTheDraft(s: WorkflowState, target: Target)
    requires CanRetry(s) && s.content.draft != ""
    ensures var error := WorkerError("TAURI_COMMAND_FAILED", "", InsightsGenerating);
      var content := NO_CONTENT.(taskId := s.content.taskId);
      var failed := WorkerResult(PartialCompleted, content, None, None, false, None, Some(error));
      AfterRetry(s, InsightRetry(target, [], failed, false)).content.draft == ""
  {
    var error := WorkerError("TAURI_COMMAND_FAILED", "", InsightsGenerating);
    assert error.code[0] != WORKER_CANCELLED[0];
  }

  /** A retry cancelled after its request was taken back loses the task; cancelled while a request is pending it keeps
      everything, a draft its result does not carry included. */
  lemma CancelledRetryDependsOnTheRequest(s: WorkflowState, target: Target, r: WorkerResult)
    requires CanRetry(s) && r.error.Some? && r.error.value.code == WORKER_CANCELLED && r.content.draft == ""
    ensures !KeepsShowing(s, AfterRetry(s, InsightRetry(target, [Request, Restore], r, false)))
    ensures AfterRetry(s, InsightRetry(target, [Request], r, false)).content == s.content
  {
    var pending := InsightRetry(target, [Request], r, false);
    var withdrawn := InsightRetry(target, [Request, Restore], r, false);
    assert withdrawn.between[..1] == pending.between && pending.between[..0] == [];
    assert IsRetryRun(pending.between) && IsPending(pending.between);
    assert IsRetryRun(withdrawn.between) && !IsPending(withdrawn.between);
    CancelledRetryIs(s, withdrawn);
    CancelledRetryIs(s, pending);
  }

  // ----- a cancel command that fails late -----

  /** After a retry the task is idle again, unless a cancel command fails after the result of a retry that was not
      cancelled: restoring then has no stage to go back to and puts the finished task into video extraction. */
  lemma RetryEndsIdleIff(s: WorkflowState, a: InsightRetry)
    requires CanRetry(s) && IsRetryRun(a.between) && IsResultStatus(a.result.status)
    ensures !IsProcessingStage(AfterRetry(s, a).stage) <==> IsCancelled(a) || !IsPending(a.between) || !a.failsLate
    ensures IsProcessingStage(AfterRetry(s, a).stage) ==>
      AfterRetry(s, a).stage.VideoExtracting? && AfterRetry(s, a).cancellingFrom.None?
  {
    if IsCancelled(a) {
      CancelledRetryIs(s, a);
    } else {
      var ended := Run(StartInsightRetry(s, a.target), a.between);
      FinishingSettles(ended, Filled(ended, a.result), a.target);
    }
  }

  predicate IsCancelEvent(e: Event) {
    e.Request? || e.Restore?
  }

  lemma {:induction false} ExtractionStays(s: WorkflowState, events: seq<Event>)
    requires s.stage.VideoExtracting? || (s.stage.Cancelling? && s.cancellingFrom == Some(VideoExtracting))
    requires s.stage.VideoExtracting? ==> s.cancellingFrom.None?
    requires forall i :: 0 <= i < |events| ==> IsCancelEvent(events[i])
    ensures IsProcessingStage(Run(s, events).stage)
    decreases events
  {
    if events != [] {
      assert IsCancelEvent(events[0]);
      ExtractionStays(Apply(s, events[0]), events[1..]);
    }
  }

  /** From there neither asking to cancel, however it goes, nor any further retry changes anything: the task stays in
      processing. */
  lemma LateFailureStrandsTheTask(s: WorkflowState, a: InsightRetry, clicks: seq<Event>, retries: seq<InsightRetry>)
    requires CanRetry(s) && IsRetryRun(a.between) && IsResultStatus(a.result.status)
    requires !IsCancelled(a) && FailsLate(a)
    requires forall i :: 0 <= i < |clicks| ==> IsCancelEvent(clicks[i])
    ensures var stranded := Run(AfterRetry(s, a), clicks);
      IsProcessingStage(stranded.stage) && AfterRetries(stranded, retries) == stranded
  {
    RetryEndsIdleIff(s, a);
    ExtractionStays(AfterRetry(s, a), clicks);
    NothingStarts(Run(AfterRetry(s, a), clicks), retries);
  }

  /** Whether the dissection counts as stale changes only with a dissection that was regenerated without an error. */
  lemma StalenessChangesBySuccessOnly(s: WorkflowState, r: WorkerResult, target: Target)
    ensures var after := FinishInsightRetry(s, r, target);
      after.dissectionStale != s.dissectionStale ==> target.Dissection? && r.error.None?
  {
  }
}
