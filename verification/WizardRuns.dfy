/** Where the preference wizard leads: what each transition does, and that every choice can be made. */
module WizardRuns {

  import opened Text
  import opened PreferenceWizard

  // ----- the transitions -----

  /** The wizard opens on the profile unless it is in order or has been skipped, then on the stored defaults, and
      without any on the first step. */
  lemma OpensOn(known: Catalogue, s: Stored)
    ensures var f := Open(known, s);
      var settled := match s.profileStatus
        case Invalid => false
        case Missing => s.profileSkipped
        case Valid => s.profile.Some? || s.profileSkipped
        case Skipped => true;
      && f.screen == (if !settled then ProfileIntro else if s.defaults.Some? then DefaultSummary else GenerationStep)
      && f.step.Goal? && f.index == 0 && f.defaults == s.defaults && f.profile == s.profile
      && (s.defaults.Some? ==> f.preferences == s.defaults.value)
      && (s.defaults.None? ==> f.preferences == NO_PREFERENCES)
      && (f.profileResetRequired <==> s.profileStatus.Invalid?)
      && (f.profileSkipped <==> s.profileSkipped || s.profileStatus.Skipped?)
  {
  }

  /** A step may be left exactly when the validator would accept what has been chosen for it. */
  lemma StepMayBeLeftIff(known: Catalogue, p: Preferences, step: Field)
    requires HasNoBlank(known) && ListsAreSelections(known, p)
    ensures CanAdvance(known, p, step) <==>
      match step
      case Goal => ValidateSingle(known, Goal, Str(p.goal)).Some?
      case Scenario => ValidateSingle(known, Scenario, Str(p.scenario)).Some?
      case Audience => ValidateSingle(known, Audience, Str(p.audience)).Some?
      case Angles => ValidateMulti(known, Angles, AsItems(p.angles)).Some?
      case Styles => ValidateMulti(known, Styles, AsItems(p.styles)).Some?
      case Avoid => ValidateMulti(known, Avoid, AsItems(p.avoid)).Some?
  {
    MultiIsAcceptedIff(known, Angles, p.angles);
    MultiIsAcceptedIff(known, Styles, p.styles);
    MultiIsAcceptedIff(known, Avoid, p.avoid);
  }

  /** The bounds of the wizard, which has its own table, are those of the validator: so many, and not one more. */
  lemma BoundsAgree(known: Catalogue, p: Preferences, field: Field)
    requires field in {Angles, Styles, Avoid}
    ensures MaxSelection(field) == Most(field) == if field.Styles? then 2 else 3
    ensures Least(field) == if field.Avoid? then 0 else 1
    ensures CanAdvance(known, p, Angles) <==> Least(Angles) <= |p.angles| <= Most(Angles)
    ensures CanAdvance(known, p, Styles) <==> Least(Styles) <= |p.styles| <= Most(Styles)
    ensures CanAdvance(known, p, Avoid) <==> Least(Avoid) <= |p.avoid| <= Most(Avoid)
  {
  }

  /** Going on from a step that may be left comes to the next one, and from the last to the confirmation; from a step
      that may not be left it does nothing. Nothing but the place changes. */
  lemma NextMovesIff(known: Catalogue, f: Flow)
    requires Inv(known, f)
    ensures var g := Apply(known, f, Next);
      if f.screen.GenerationStep? && CanAdvance(known, f.preferences, f.step) then
        && (if f.step.Avoid? then g.screen.Confirmation? && g.index == f.index
            else g.screen.GenerationStep? && g.index == f.index + 1 && g.step == STEPS[f.index + 1])
        && g == f.(screen := g.screen, index := g.index, step := g.step, canAdvance := g.canAdvance)
      else g == f
  {
  }

  /** Going back undoes going on, short of the confirmation. */
  lemma BackUndoesNext(known: Catalogue, f: Flow)
    requires Inv(known, f) && f.screen.GenerationStep? && f.canAdvance && !f.step.Avoid?
    ensures Apply(known, Apply(known, f, Next), Previous) == f
  {
  }

  /** The first step and the other screens have no way back; elsewhere it leads to the step before. */
  lemma PreviousMovesIff(known: Catalogue, f: Flow)
    requires Inv(known, f)
    ensures var g := Apply(known, f, Previous);
      if f.screen.GenerationStep? && !f.step.Goal? then
        && f.index > 0 && g.index == f.index - 1 && g.step == STEPS[f.index - 1]
        && g == f.(index := g.index, step := g.step, canAdvance := g.canAdvance)
      else g == f
  {
  }

  /** Entering the steps, again or for the first time, begins at the first with the preferences as they are; skipping
      the profile drops it besides; the stored defaults lead straight to the confirmation, with themselves. */
  lemma EntriesAre(known: Catalogue, f: Flow)
    ensures var g := Apply(known, f.(index := 0), Edit);
      g.screen.GenerationStep? && g.step.Goal? && g.index == 0
      && g == f.(screen := g.screen, step := g.step, index := 0, canAdvance := g.canAdvance)
    ensures var g := Apply(known, f.(index := 0), Skip);
      && g.screen.GenerationStep? && g.step.Goal? && g.index == 0
      && g.profile.None? && g.profileSkipped && !g.profileResetRequired
      && g == f.(screen := g.screen, step := g.step, index := 0, canAdvance := g.canAdvance, profile := None,
                 profileSkipped := true, profileResetRequired := false)
    ensures var g := Apply(known, f.(index := 0), Defaults);
      if f.defaults.Some? then
        g.screen.Confirmation? && g.preferences == f.defaults.value && !g.canAdvance
        && g == f.(screen := g.screen, index := 0, preferences := f.defaults.value, canAdvance := false)
      else g == Apply(known, f.(index := 0), Edit)
    ensures var g := Apply(known, f.(index := 0), StartProfile);
      g.screen.ProfileForm? && g == f.(screen := ProfileForm, index := 0, canAdvance := false)
  {
  }

  /** Leaving the profile leads back to it while one is required, then to the stored defaults, and without any closes
      the wizard. */
  lemma CancelledProfileLeadsTo(known: Catalogue, f: Flow)
    ensures CancelProfile(known, f).None? <==>
      !f.profileResetRequired && (f.profile.Some? || f.profileSkipped) && f.defaults.None?
    ensures CancelProfile(known, f).Some? ==>
      var g := CancelProfile(known, f).value;
      && g.screen == (if f.profileResetRequired || (f.profile.None? && !f.profileSkipped) then ProfileIntro
                      else DefaultSummary)
      && g == f.(screen := g.screen, step := Goal, index := 0, canAdvance := false)
  {
  }

  // ----- every choice can be made -----

  function Choices(field: Field, ids: seq<string>): seq<Event> {
    seq(|ids|, i requires 0 <= i < |ids| => Choose(field, ids[i]))
  }

  /** What is chosen once the first k steps have been passed. */
  function Chosen(p: Preferences, k: nat): Preferences {
    Preferences(
      if k > 0 then p.goal else "", if k > 1 then p.scenario else "", if k > 2 then p.angles else [],
      if k > 3 then p.audience else "", if k > 4 then p.styles else [], if k > 5 then p.avoid else [])
  }

  /** The user chooses what the preferences say for the step, and goes on. */
  function StepEvents(p: Preferences, step: Field): seq<Event> {
    match step
    case Goal => [Choose(Goal, p.goal)] + [Next]
    case Scenario => [Choose(Scenario, p.scenario)] + [Next]
    case Angles => Choices(Angles, p.angles) + [Next]
    case Audience => [Choose(Audience, p.audience)] + [Next]
    case Styles => Choices(Styles, p.styles) + [Next]
    case Avoid => Choices(Avoid, p.avoid) + [Next]
  }

  function EventsFrom(p: Preferences, k: nat): seq<Event>
    requires k <= |STEPS|
    decreases |STEPS| - k
  {
    if k == |STEPS| then [] else StepEvents(p, STEPS[k]) + EventsFrom(p, k + 1)
  }

  lemma {:induction false} RunJoins(known: Catalogue, f: Flow, a: seq<Event>, b: seq<Event>)
    ensures Run(known, f, a + b) == Run(known, Run(known, f, a), b)
    decreases |a|
  {
    if a == [] {
      assert a + b == b;
    } else if f.index < |STEPS| {
      assert (a + b)[1..] == a[1..] + b;
      RunJoins(known, Apply(known, f, a[0]), a[1..], b);
    }
  }

  lemma RunOfOne(known: Catalogue, f: Flow, e: Event)
    requires f.index < |STEPS|
    ensures Run(known, f, [e]) == Apply(known, f, e)
  {
    assert [e][1..] == [];
  }

  function ListOf(p: Preferences, field: Field): seq<string>
    requires field in {Angles, Styles, Avoid}
  {
    match field
    case Angles => p.angles
    case Styles => p.styles
    case Avoid => p.avoid
  }

  function WithList(p: Preferences, field: Field, ids: seq<string>): Preferences
    requires field in {Angles, Styles, Avoid}
  {
    match field
    case Angles => p.(angles := ids)
    case Styles => p.(styles := ids)
    case Avoid => p.(avoid := ids)
  }

  /** The flow with this list chosen for the step on screen. */
  function WithChosen(known: Catalogue, f: Flow, field: Field, ids: seq<string>): Flow
    requires field in {Angles, Styles, Avoid}
  {
    var chosen := WithList(f.preferences, field, ids);
    f.(preferences := chosen, canAdvance := CanAdvance(known, chosen, field))
  }

  lemma OneMoreIsChosen(known: Catalogue, f: Flow, field: Field, ids: seq<string>, id: string)
    requires f.screen.GenerationStep? && f.step == field && field in {Angles, Styles, Avoid}
    requires |ids| < Most(field) && id !in ids && known(field, id)
    ensures Select(known, WithChosen(known, f, field, ids), field, id) == WithChosen(known, f, field, ids + [id])
  {
  }

  /** Choosing distinct known options one after the other, within the bound, chooses exactly them, in that order. */
  lemma {:induction false} ChoicesAreMade(known: Catalogue, f: Flow, field: Field, ids: seq<string>)
    requires f.screen.GenerationStep? && f.index < |STEPS| && f.step == field && field in {Angles, Styles, Avoid}
    requires IsSelection(known, field, ids) && f == WithChosen(known, f, field, [])
    ensures Run(known, f, Choices(field, ids)) == WithChosen(known, f, field, ids)
    decreases |ids|
  {
    if ids == [] {
      assert Choices(field, ids) == [];
    } else {
      var front, last := ids[..|ids| - 1], ids[|ids| - 1];
      ChoicesAreMade(known, f, field, front);
      assert Choices(field, ids) == Choices(field, front) + [Choose(field, last)];
      RunJoins(known, f, Choices(field, front), [Choose(field, last)]);
      RunOfOne(known, WithChosen(known, f, field, front), Choose(field, last));
      assert last !in front && known(field, last);
      OneMoreIsChosen(known, f, field, front, last);
      assert front + [last] == ids;
    }
  }

  ghost predicate IsAt(known: Catalogue, f: Flow, p: Preferences, k: nat) {
    && k < |STEPS| && f.screen.GenerationStep? && f.index == k && f.step == STEPS[k] && f.preferences == Chosen(p, k)
    && f.canAdvance == CanAdvance(known, f.preferences, f.step)
  }

  lemma SingleStepIsTaken(known: Catalogue, f: Flow, p: Preferences, k: nat)
    requires HasNoBlank(known) && IsComplete(known, p) && IsAt(known, f, p, k) && k in {0, 1, 3}
    ensures IsAt(known, Run(known, f, StepEvents(p, STEPS[k])), p, k + 1)
  {
    var id := match k case 0 => p.goal case 1 => p.scenario case _ => p.audience;
    RunJoins(known, f, [Choose(STEPS[k], id)], [Next]);
    RunOfOne(known, f, Choose(STEPS[k], id));
    RunOfOne(known, Apply(known, f, Choose(STEPS[k], id)), Next);
  }

  lemma ListStepIsTaken(known: Catalogue, f: Flow, p: Preferences, k: nat)
    requires HasNoBlank(known) && IsComplete(known, p) && IsAt(known, f, p, k) && k in {2, 4, 5}
    ensures var g := Run(known, f, StepEvents(p, STEPS[k]));
      if k < 5 then IsAt(known, g, p, k + 1) else g.screen.Confirmation? && g.preferences == p
  {
    var ids := ListOf(p, STEPS[k]);
    ChoicesAreMade(known, f, STEPS[k], ids);
    RunJoins(known, f, Choices(STEPS[k], ids), [Next]);
    RunOfOne(known, Run(known, f, Choices(STEPS[k], ids)), Next);
  }

  lemma {:induction false} StepsAreTaken(known: Catalogue, f: Flow, p: Preferences, k: nat)
    requires HasNoBlank(known) && IsComplete(known, p) && IsAt(known, f, p, k)
    ensures var g := Run(known, f, EventsFrom(p, k)); g.screen.Confirmation? && g.preferences == p
    decreases |STEPS| - k
  {
    RunJoins(known, f, StepEvents(p, STEPS[k]), EventsFrom(p, k + 1));
    if k in {0, 1, 3} {
      SingleStepIsTaken(known, f, p, k);
      StepsAreTaken(known, Run(known, f, StepEvents(p, STEPS[k])), p, k + 1);
    } else {
      ListStepIsTaken(known, f, p, k);
      if k < 5 {
        StepsAreTaken(known, Run(known, f, StepEvents(p, STEPS[k])), p, k + 1);
      } else {
        assert EventsFrom(p, 6) == [];
      }
    }
  }

  /** Whatever the validator accepts can be chosen: from a wizard that opens on its first step, choosing each step's
      options and going on leads to the confirmation of exactly those preferences. */
  lemma EveryChoiceCanBeMade(known: Catalogue, s: Stored, p: Preferences)
    requires HasNoBlank(known) && Validate(known, AsRaw(p)) == Some(p)
    requires Open(known, s).screen.GenerationStep?
    ensures var f := Run(known, Open(known, s), EventsFrom(p, 0)); f.screen.Confirmation? && f.preferences == p
  {
    ValidatorAcceptsIff(known, p);
    OpensOn(known, s);
    StepsAreTaken(known, Open(known, s), p, 0);
  }
}
