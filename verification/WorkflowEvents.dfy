/** What each event does to the desktop's task state, and all that it does. */
module WorkflowEvents {

  import opened Text
  import opened NoteTitle
  import opened Workflow

  // ----- starting -----

  /** Starting to process forgets the task before: two states with one composer and one transcript choice become the
      same, with nothing shown, no error and no title. */
  lemma ProcessingForgets(s: WorkflowState, t: WorkflowState, source: Source, webPage: bool)
    requires s.composerSource == t.composerSource && s.transcript == t.transcript
    ensures StartProcessing(s, source, webPage) == StartProcessing(t, source, webPage)
    ensures var after := StartProcessing(s, source, webPage);
      && after.stage == (if webPage then WebLoading else VideoExtracting) && after.taskSource == Some(source)
      && after.composerSource == s.composerSource && after.transcript == s.transcript
      && after.content == NO_CONTENT && after.targetErrors == map[] && after.errorTarget.None?
      && after.noteTitle.None? && after.noteMetadata.None? && after.error.None?
      && !after.dissectionStale && !after.draftEdited && after.draftSeed.None? && after.activeTarget.None?
  {
  }

  /** The task shows a file of this name, with a path that is not empty. */
  predicate ShowsFile(s: WorkflowState, name: string) {
    name in s.content.artifacts && |s.content.artifacts[name]| > 0
  }

  /** The task has been saved under an id. */
  predicate IsSaved(s: WorkflowState) {
    s.content.taskId.Some? && |s.content.taskId.value| > 0
  }

  /** A title is generated for a saved task with a transcript and for no other; it keeps the text it had, in the
      language asked for, and nothing else of the task changes. */
  lemma TitleStartsIff(s: WorkflowState, language: Language)
    ensures var after := StartNoteTitle(s, language);
      if IsSaved(s) && ShowsFile(s, "transcript_txt") then
        && after.stage.TitleGenerating?
        && after.noteTitle == Some(Title(TitleText(s.noteTitle), Generating, language, None))
        && after.error.None? && after.activeTarget.None? && after.cancellingFrom.None?
        && after == s.(stage := after.stage, noteTitle := after.noteTitle, error := None, activeTarget := None,
                       cancellingFrom := None)
      else after == s
  {
  }

  /** An idle task can be retried exactly when it is saved, some of its text is not white space, and its article or its
      transcript is on file. */
  lemma RetryStartsIff(s: WorkflowState)
    ensures CanRetry(s) <==>
      && !IsProcessingStage(s.stage) && IsSaved(s) && (ShowsFile(s, "article_txt") || ShowsFile(s, "transcript_txt"))
      && exists i :: 0 <= i < |s.content.text| && !IsJsSpace(s.content.text[i])
  {
    TrimResult(s.content.text, IsJsSpace);
  }

  /** A retry of a target forgets the last error and that target's, remembers what it is generating, and touches nothing
      else. */
  lemma RetryBegins(s: WorkflowState, target: Target)
    ensures var after := StartInsightRetry(s, target);
      && after.stage.InsightsGenerating? && after.activeTarget == Some(target) && after.error.None?
      && target !in after.targetErrors && after.errorTarget != Some(target)
      && (s.errorTarget != Some(target) ==> after.errorTarget == s.errorTarget)
      && (forall other :: other != target ==>
            (other in after.targetErrors <==> other in s.targetErrors)
            && (other in s.targetErrors ==> after.targetErrors[other] == s.targetErrors[other]))
      && after == s.(stage := after.stage, cancellingFrom := None, activeTarget := after.activeTarget,
                     errorTarget := after.errorTarget, targetErrors := after.targetErrors, error := None)
  {
  }

  // ----- progress and edits -----

  /** Progress moves the stage to the reported one and nothing else; an edit changes the draft and marks it edited. */
  lemma ProgressAndEdits(s: WorkflowState, stage: Stage, markdown: string)
    ensures Apply(s, Progress(stage)).stage == stage && Apply(s, Progress(stage)) == s.(stage := stage)
    ensures var after := Apply(s, EditDraft(markdown));
      && after.content.draft == markdown && after.draftEdited
      && after == s.(content := s.content.(draft := markdown), draftEdited := true)
  {
  }

  // ----- cancelling -----

  predicate IsLocalStage(stage: Stage) {
    stage in {VideoExtracting, VideoTranscribing, WebLoading, WebExtracting, WebSaving}
  }

  predicate IsAiStage(stage: Stage) {
    stage in {InsightsGenerating, TitleGenerating}
  }

  /** Each workspace shows its cancel control exactly while its own stages run or are being cancelled. */
  lemma ControlIsShownIff(s: WorkflowState)
    ensures ControlOf(Local, s).visible <==>
      if s.stage.Cancelling? then s.cancellingFrom.Some? && IsLocalStage(s.cancellingFrom.value)
      else IsLocalStage(s.stage)
    ensures ControlOf(Ai, s).visible <==>
      if s.stage.Cancelling? then s.cancellingFrom.Some? && IsAiStage(s.cancellingFrom.value) else IsAiStage(s.stage)
  {
  }

  /** Asking to cancel a live stage remembers it; asking otherwise does nothing. */
  lemma RequestRemembersTheStage(s: WorkflowState)
    ensures var after := RequestCancellation(s);
      if IsLocalStage(s.stage) || IsAiStage(s.stage) then
        after.stage.Cancelling? && after == s.(stage := Cancelling, cancellingFrom := Some(s.stage), error := None)
      else after == s
  {
  }

  /** Confirming the cancellation of a saved task's insights ends the cancelling and the generation, with the errors of
      other targets left to show; confirming a title's leaves the title cancelled, with its text, and all the rest; any
      other confirmation leaves a fresh state with the composer. */
  lemma ConfirmedCancellationIs(s: WorkflowState)
    ensures var after := ConfirmCancellation(s);
      var ofTitle := s.stage.TitleGenerating? || (s.cancellingFrom.Some? && s.cancellingFrom.value.TitleGenerating?);
      if ofTitle && IsSaved(s) then after == CancelNoteTitle(s)
      else if s.cancellingFrom == Some(InsightsGenerating) && s.activeTarget.Some? && s.content.taskId.Some? then
        && (after.stage.StageCompleted? <==> forall t :: t !in s.targetErrors)
        && (after.stage.PartialCompleted? <==> exists t :: t in s.targetErrors)
        && after.cancellingFrom.None? && after.activeTarget.None? && after.error.None?
        && after == s.(stage := after.stage, cancellingFrom := None, activeTarget := None, error := None)
      else after == INITIAL.(composerSource := s.composerSource)
  {
    if s.targetErrors.Keys == {} {
      assert s.targetErrors == map[];
    } else {
      var t :| t in s.targetErrors.Keys;
      assert t in s.targetErrors;
    }
  }

  /** Cancelling a title keeps its text and its language, tells the cancellation, and touches nothing else; without a
      saved task or a title there is nothing to cancel. */
  lemma CancelledTitleIs(s: WorkflowState)
    ensures var after := CancelNoteTitle(s);
      if IsSaved(s) && s.noteTitle.Some? then
        && after.stage.PartialCompleted? && after.cancellingFrom.None?
        && after.noteTitle
             == Some(Title(TitleText(s.noteTitle), Cancelled, s.noteTitle.value.language, Some("WORKER_CANCELLED")))
        && after.error == Some(WorkerError("WORKER_CANCELLED", "", TitleGenerating))
        && after == s.(stage := after.stage, cancellingFrom := None, noteTitle := after.noteTitle, error := after.error)
      else after == s
  {
  }

  // ----- a title's result -----

  /** A completed title came back in another language than the one shown. */
  predicate IsInAnotherLanguage(s: WorkflowState, r: WorkerResult) {
    && r.error.None? && r.noteTitle.Some? && r.noteTitle.value.status.Completed? && s.noteTitle.Some?
    && s.noteTitle.value.language != r.noteTitle.value.language
  }

  /** The result of a title touches stage, title and error of its own saved task, and nothing else; another task's
      result touches nothing. The error is the result's, or a protocol violation for a title in another language. */
  lemma TitleResultConcerns(s: WorkflowState, r: WorkerResult)
    ensures var after := FinishNoteTitle(s, r);
      if !IsSaved(s) || (r.content.taskId.Some? && r.content.taskId != s.content.taskId) then after == s
      else
        && after == s.(stage := after.stage, cancellingFrom := None, noteTitle := after.noteTitle, error := after.error)
        && after.error == (if IsInAnotherLanguage(s, r)
                           then Some(WorkerError("WORKER_PROTOCOL_VIOLATION", "", TitleGenerating)) else r.error)
        && (after.stage == r.status || after.stage.PartialCompleted?)
        && (after.error.Some? && s.noteTitle.Some? ==>
              after.noteTitle.Some? && after.noteTitle.value.language == s.noteTitle.value.language)
  {
  }

  /** The title shown after a title's result has the result's text, if it is accepted and has one, and else the text
      shown before. After an error it is told as failed or cancelled under the error's code, in the language shown;
      without one it is the result's own, or, without a title, failed. */
  lemma ShownTitleIs(s: WorkflowState, r: WorkerResult)
    requires IsSaved(s) && (r.content.taskId.None? || r.content.taskId == s.content.taskId)
    ensures var accepted, shown, error := if IsInAnotherLanguage(s, r) then None else r.noteTitle,
                                          FinishNoteTitle(s, r).noteTitle, FinishNoteTitle(s, r).error;
      && (shown.Some? <==> accepted.Some? || s.noteTitle.Some?)
      && TitleText(shown) == (if TitleText(accepted).Some? then TitleText(accepted) else TitleText(s.noteTitle))
      && (shown.Some? && error.Some? ==>
            && shown.value.status == (if error.value.code == "WORKER_CANCELLED" then Cancelled else Failed)
            && shown.value.errorCode == Some(error.value.code)
            && shown.value.language
                 == (if s.noteTitle.Some? then s.noteTitle.value.language else accepted.value.language))
      && (accepted.Some? && error.None? ==> shown.value.(text := None) == accepted.value.(text := None))
      && (accepted.None? && shown.Some? && error.None? ==>
            shown.value.status.Failed? && shown.value.errorCode == Some("TITLE_GENERATION_FAILED")
            && shown.value.language == s.noteTitle.value.language)
  {
  }

  /** What the supervisor settled reaches the desktop as this task's result: completed, or partly with its error. */
  lemma SettlementIsDelivered(settled: Settled, s: WorkflowState)
    ensures var r := ResultOf(settled, s);
      && r.content.taskId == s.content.taskId && r.noteTitle == settled.title
      && (settled.error.None? ==> r.error.None? && r.status.StageCompleted?)
      && (settled.error.Some? ==>
            r.error == Some(WorkerError(settled.error.value, "", TitleGenerating)) && r.status.PartialCompleted?)
  {
  }

  // ----- a result -----

  /** The failure of one target, and not of the whole task. */
  predicate FailsTarget(r: WorkerResult) {
    r.error.Some? && r.error.value.stage in {InsightsGenerating, DraftGenerating}
  }

  predicate IsUnfinished(title: Option<Title>) {
    title.Some? && !title.value.status.Completed?
  }

  /** A summarised result is shown as it is, on a fresh composer: partly completed while its title is unfinished, and
      with its failure on the failed target. */
  lemma SummaryShowsResult(r: WorkerResult, failedTarget: Option<Target>)
    ensures var after := SummarizeResult(r, failedTarget);
      && after.content == r.content && after.taskSource == r.source && after.transcript == r.transcript
      && after.noteTitle == r.noteTitle && after.error == r.error && after.dissectionStale == r.dissectionStale
      && after.stage == (if IsUnfinished(r.noteTitle) then PartialCompleted else r.status)
      && after.errorTarget == (if FailsTarget(r) then failedTarget else None)
      && (forall t :: t in after.targetErrors <==> FailsTarget(r) && failedTarget == Some(t))
      && (forall t :: t in after.targetErrors ==> after.targetErrors[t] == r.error.value)
      && !after.draftEdited && after.draftSeed.None? && after.activeTarget.None? && after.cancellingFrom.None?
      && after.composerSource == "" && after.noteMetadata.None?
  {
  }

  /** What a retry's result decides, and what it leaves to the state before. */
  lemma RetryResultConcerns(s: WorkflowState, r: WorkerResult, target: Target)
    ensures var after := FinishInsightRetry(s, r, target);
      && after.composerSource == s.composerSource && after.taskSource == s.taskSource
      && after.noteMetadata == s.noteMetadata && after.content.markdown == s.content.markdown
      && after.error == r.error && after.transcript == r.transcript
      && after.noteTitle == (if r.noteTitle.Some? then r.noteTitle else s.noteTitle)
      && after.stage == (if IsUnfinished(after.noteTitle) then PartialCompleted else r.status)
      && after.errorTarget == (if FailsTarget(r) then Some(target) else None)
      && (target in after.targetErrors <==> FailsTarget(r))
      && (target in after.targetErrors ==> after.targetErrors[target] == r.error.value)
      && after.activeTarget.None? && after.cancellingFrom.None?
      && after.content == r.content.(markdown := s.content.markdown, dissection := after.content.dissection)
  {
  }

  /** A failed dissection without a report leaves the old report; any other result shows its own. */
  lemma DissectionIsReplacedIff(s: WorkflowState, r: WorkerResult, target: Target)
    ensures var after := FinishInsightRetry(s, r, target);
      && (target.Dissection? && r.error.Some? && r.content.dissection.None? ==>
            after.content.dissection == s.content.dissection)
      && (!target.Dissection? || r.error.None? || r.content.dissection.Some? ==>
            after.content.dissection == r.content.dissection)
      && (target.Dissection? && r.error.None? ==>
            (after.dissectionStale <==> r.dissectionStale && r.content.dissection.None?))
      && (!target.Dissection? || r.error.Some? ==> after.dissectionStale == s.dissectionStale)
  {
  }

  /** New insights invalidate the chosen seed, and only they; a regenerated draft is no longer edited, and only then. */
  lemma SeedAndEditSurviveIff(s: WorkflowState, r: WorkerResult, target: Target)
    ensures var after := FinishInsightRetry(s, r, target);
      && (target.Insights? ==> after.draftSeed.None?) && (!target.Insights? ==> after.draftSeed == s.draftSeed)
      && (target.Draft? && !FailsTarget(r) ==> !after.draftEdited)
      && (!target.Draft? || FailsTarget(r) ==> after.draftEdited == s.draftEdited)
  {
  }

  /** Filling in prefers what the result has: where it has something the retry shows that, and elsewhere what was
      shown. */
  lemma ResultWins(s: WorkflowState, r: WorkerResult, target: Target)
    ensures var given, shown := r.content, FinishInsightRetry(s, Filled(s, r), target).content;
      && (given.taskId.Some? ==> shown.taskId == given.taskId)
      && (given.taskId.None? ==> shown.taskId == s.content.taskId)
      && (given.taskDir.Some? ==> shown.taskDir == given.taskDir)
      && (given.taskDir.None? ==> shown.taskDir == s.content.taskDir)
      && (given.text != "" ==> shown.text == given.text) && (given.text == "" ==> shown.text == s.content.text)
      && (given.summary != "" ==> shown.summary == given.summary)
      && (given.summary == "" ==> shown.summary == s.content.summary)
      && (given.insights != [] ==> shown.insights == given.insights)
      && (given.insights == [] ==> shown.insights == s.content.insights)
      && (given.dissection.Some? ==> shown.dissection == given.dissection)
      && (given.dissection.None? ==> shown.dissection == s.content.dissection)
      && (forall k :: k in shown.artifacts <==> k in given.artifacts || k in s.content.artifacts)
      && (forall k :: k in given.artifacts ==> shown.artifacts[k] == given.artifacts[k])
      && (forall k :: k in s.content.artifacts && k !in given.artifacts ==>
            shown.artifacts[k] == s.content.artifacts[k])
      && shown.draft == given.draft
    ensures var shown := FinishInsightRetry(s, Filled(s, r), target).transcript;
      (r.transcript.Some? ==> shown == r.transcript) && (r.transcript.None? ==> shown == s.transcript)
  {
  }
}
