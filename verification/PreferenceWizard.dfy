/** The insight preference wizard and the validator of what it produces. */
module PreferenceWizard {

  import opened Text

  datatype Field = Goal | Scenario | Angles | Audience | Styles | Avoid

  datatype Preferences = Preferences(
    goal: string, scenario: string, angles: seq<string>, audience: string, styles: seq<string>, avoid: seq<string>)

  /** The option table; everything below holds for any, and `Offered` is the one in use. */
  type Catalogue = (Field, string) -> bool

  predicate Offered(field: Field, id: string) {
    match field
    case Goal =>
      id in {"content_creation", "learning_understanding", "review_deconstruction", "business_insight",
             "controversy_discussion", "action_advice"}
    case Scenario =>
      id in {"personal_notes", "short_video", "article_official_account", "livestream_podcast", "team_sharing",
             "client_communication", "course_community"}
    case Angles =>
      id in {"topic_angle", "contrarian_view", "audience_pain_point", "practical_advice", "case_analogy",
             "risk_controversy", "trend_judgment", "reusable_method", "memorable_phrase", "cognitive_refresh"}
    case Audience => id in {"self", "beginners", "peers", "clients", "boss_team", "fans_readers"}
    case Styles =>
      id in {"direct_sharp", "gentle_inspiring", "professional_analysis", "grounded", "storytelling",
             "short_video_friendly", "long_form_friendly"}
    case Avoid =>
      id in {"chicken_soup", "academic", "vague", "clickbait", "commercialized", "negative", "grand_narrative"}
  }

  function Least(field: Field): nat {
    if field.Avoid? then 0 else 1
  }

  /** The validator's table of maxima; the wizard has its own, `MaxSelection`. */
  function Most(field: Field): nat {
    match field
    case Angles | Avoid => 3
    case Styles => 2
    case _ => 1
  }

  // ----- the validator -----

  /** A value of unknown shape, as it comes from storage. */
  datatype Raw = Str(value: string) | List(items: seq<Raw>) | Other

  datatype RawPreferences =
    RawPreferences(goal: Raw, scenario: Raw, angles: Raw, audience: Raw, styles: Raw, avoid: Raw)

  function ValidateSingle(known: Catalogue, field: Field, value: Raw): Option<string> {
    if value.Str? && known(field, value.value) then Some(value.value) else None
  }

  function Strings(items: seq<Raw>): seq<string>
    requires forall i :: 0 <= i < |items| ==> items[i].Str?
  {
    seq(|items|, i requires 0 <= i < |items| => items[i].value)
  }

  ghost predicate IsDistinct(ids: seq<string>) {
    forall i, j :: 0 <= i < j < |ids| ==> ids[i] != ids[j]
  }

  /** JavaScript counts the distinct values of a list. */
  function Distinct(ids: seq<string>): set<string> {
    set id | id in ids
  }

  function ValidateMulti(known: Catalogue, field: Field, value: Raw): Option<seq<string>> {
    if !value.List? || |value.items| < Least(field) || |value.items| > Most(field) then None
    else if exists i :: 0 <= i < |value.items| && !value.items[i].Str? then None
    else
      var ids := Strings(value.items);
      if |Distinct(ids)| != |ids| then None
      else if exists i :: 0 <= i < |ids| && !known(field, ids[i]) then None
      else Some(ids)
  }

  function Validate(known: Catalogue, value: RawPreferences): Option<Preferences> {
    var goal :- ValidateSingle(known, Goal, value.goal);
    var scenario :- ValidateSingle(known, Scenario, value.scenario);
    var angles :- ValidateMulti(known, Angles, value.angles);
    var audience :- ValidateSingle(known, Audience, value.audience);
    var styles :- ValidateMulti(known, Styles, value.styles);
    var avoid :- ValidateMulti(known, Avoid, value.avoid);
    Some(Preferences(goal, scenario, angles, audience, styles, avoid))
  }

  function AsItems(ids: seq<string>): Raw {
    List(seq(|ids|, i requires 0 <= i < |ids| => Str(ids[i])))
  }

  function AsRaw(p: Preferences): RawPreferences {
    RawPreferences(
      Str(p.goal), Str(p.scenario), AsItems(p.angles), Str(p.audience), AsItems(p.styles), AsItems(p.avoid))
  }

  lemma {:induction false} DistinctCounts(ids: seq<string>)
    ensures |Distinct(ids)| <= |ids|
    ensures |Distinct(ids)| == |ids| <==> IsDistinct(ids)
  {
    if ids != [] {
      var rest := ids[..|ids| - 1];
      var last := ids[|ids| - 1];
      DistinctCounts(rest);
      assert ids == rest + [last];
      assert Distinct(ids) == Distinct(rest) + {last};
      if last in rest {
        var i :| 0 <= i < |rest| && rest[i] == last;
        assert ids[i] == ids[|ids| - 1];
        assert Distinct(ids) == Distinct(rest);
      } else {
        assert |Distinct(ids)| == |Distinct(rest)| + 1;
        assert IsDistinct(rest + [last]) <==> IsDistinct(rest);
      }
    }
  }

  /** The ids a selection list may hold. */
  ghost predicate IsSelection(known: Catalogue, field: Field, ids: seq<string>) {
    |ids| <= Most(field) && IsDistinct(ids) && forall i :: 0 <= i < |ids| ==> known(field, ids[i])
  }

  lemma MultiIsAcceptedIff(known: Catalogue, field: Field, ids: seq<string>)
    ensures ValidateMulti(known, field, AsItems(ids)) ==
      if Least(field) <= |ids| && IsSelection(known, field, ids) then Some(ids) else None
  {
    DistinctCounts(ids);
    var items := AsItems(ids).items;
    assert forall i :: 0 <= i < |items| ==> items[i] == Str(ids[i]);
    assert Strings(items) == ids;
  }

  /** What preferences must be for the validator to accept them, and hand them back unchanged. */
  ghost predicate IsComplete(known: Catalogue, p: Preferences) {
    && known(Goal, p.goal) && known(Scenario, p.scenario) && known(Audience, p.audience)
    && 1 <= |p.angles| && IsSelection(known, Angles, p.angles)
    && 1 <= |p.styles| && IsSelection(known, Styles, p.styles)
    && IsSelection(known, Avoid, p.avoid)
  }

  lemma ValidatorAcceptsIff(known: Catalogue, p: Preferences)
    ensures Validate(known, AsRaw(p)) == if IsComplete(known, p) then Some(p) else None
  {
    MultiIsAcceptedIff(known, Angles, p.angles);
    MultiIsAcceptedIff(known, Styles, p.styles);
    MultiIsAcceptedIff(known, Avoid, p.avoid);
  }

  // ----- the wizard -----

  datatype Screen = ProfileIntro | ProfileForm | DefaultSummary | GenerationStep | Confirmation

  datatype Flow = Flow(
    screen: Screen, profile: Option<string>, profileSkipped: bool, profileResetRequired: bool,
    defaults: Option<Preferences>, preferences: Preferences, step: Field, index: nat, canAdvance: bool)

  datatype ProfileStatus = Missing | Valid | Invalid | Skipped

  /** What the wizard is opened on. */
  datatype Stored = Stored(
    profileStatus: ProfileStatus, profile: Option<string>, profileSkipped: bool, defaults: Option<Preferences>)

  const STEPS: seq<Field> := [Goal, Scenario, Angles, Audience, Styles, Avoid]
  const NO_PREFERENCES := Preferences("", "", [], "", [], [])

  predicate CanAdvance(known: Catalogue, p: Preferences, step: Field) {
    match step
    case Goal => p.goal != "" && known(Goal, p.goal)
    case Scenario => p.scenario != "" && known(Scenario, p.scenario)
    case Audience => p.audience != "" && known(Audience, p.audience)
    case Angles => 1 <= |p.angles| <= 3
    case Styles => 1 <= |p.styles| <= 2
    case Avoid => |p.avoid| <= 3
  }

  function Derived(known: Catalogue, f: Flow): Flow {
    f.(canAdvance := f.screen.GenerationStep? && CanAdvance(known, f.preferences, f.step))
  }

  function Open(known: Catalogue, s: Stored): Flow {
    var introDone := (s.profileStatus.Valid? && s.profile.Some?) || s.profileSkipped || s.profileStatus.Skipped?;
    var screen :=
      if s.profileStatus.Invalid? || !introDone then ProfileIntro
      else if s.defaults.Some? then DefaultSummary
      else GenerationStep;
    Derived(known, Flow(
      screen, s.profile, s.profileSkipped || s.profileStatus.Skipped?, s.profileStatus.Invalid?, s.defaults,
      if s.defaults.Some? then s.defaults.value else NO_PREFERENCES, Goal, 0, false))
  }

  function Rewound(f: Flow, screen: Screen): Flow {
    f.(screen := screen, step := Goal, index := 0)
  }

  function SkipProfile(known: Catalogue, f: Flow): Flow {
    Derived(known, Rewound(f, GenerationStep).(profile := None, profileSkipped := true, profileResetRequired := false))
  }

  /** No flow means that the wizard closes. */
  function CancelProfile(known: Catalogue, f: Flow): Option<Flow> {
    if f.profileResetRequired || (f.profile.None? && !f.profileSkipped) then
      Some(Derived(known, Rewound(f, ProfileIntro)))
    else if f.defaults.Some? then Some(Derived(known, Rewound(f, DefaultSummary)))
    else None
  }

  function StartEditing(known: Catalogue, f: Flow): Flow {
    Derived(known, Rewound(f, GenerationStep))
  }

  function UseDefaults(known: Catalogue, f: Flow): Flow {
    if f.defaults.None? then StartEditing(known, f)
    else Derived(known, f.(screen := Confirmation, preferences := f.defaults.value))
  }

  function MaxSelection(field: Field): nat {
    if field.Styles? then 2 else 3
  }

  function Without(ids: seq<string>, id: string): seq<string> {
    if ids == [] then []
    else
      var rest := Without(ids[..|ids| - 1], id);
      if ids[|ids| - 1] == id then rest else rest + [ids[|ids| - 1]]
  }

  function Toggle(ids: seq<string>, id: string, max: nat): seq<string> {
    if id in ids then Without(ids, id)
    else if |ids| >= max then ids
    else ids + [id]
  }

  function Selected(p: Preferences, field: Field, id: string): Preferences {
    match field
    case Goal => p.(goal := id)
    case Scenario => p.(scenario := id)
    case Audience => p.(audience := id)
    case Angles => p.(angles := Toggle(p.angles, id, MaxSelection(field)))
    case Styles => p.(styles := Toggle(p.styles, id, MaxSelection(field)))
    case Avoid => p.(avoid := Toggle(p.avoid, id, MaxSelection(field)))
  }

  function Select(known: Catalogue, f: Flow, field: Field, id: string): Flow {
    if !known(field, id) then f else Derived(known, f.(preferences := Selected(f.preferences, field, id)))
  }

  function Advance(known: Catalogue, f: Flow): Flow {
    if !f.screen.GenerationStep? || !f.canAdvance then f
    else if f.index >= |STEPS| - 1 then Derived(known, f.(screen := Confirmation))
    else Derived(known, f.(index := f.index + 1, step := STEPS[f.index + 1]))
  }

  function Back(known: Catalogue, f: Flow): Flow
    requires f.index < |STEPS|
  {
    if !f.screen.GenerationStep? || f.index == 0 then f
    else Derived(known, f.(index := f.index - 1, step := STEPS[f.index - 1]))
  }

  datatype Event =
    | Skip | StartProfile | CancelProfileSetup | Edit | Defaults | Choose(field: Field, id: string) | Next | Previous

  /** A closing wizard is left as it was; nothing follows it. */
  function Apply(known: Catalogue, f: Flow, e: Event): Flow
    requires f.index < |STEPS|
  {
    match e
    case Skip => SkipProfile(known, f)
    case StartProfile => Derived(known, f.(screen := ProfileForm))
    case CancelProfileSetup =>
      var cancelled := CancelProfile(known, f);
      if cancelled.Some? then cancelled.value else f
    case Edit => StartEditing(known, f)
    case Defaults => UseDefaults(known, f)
    case Choose(field, id) => Select(known, f, field, id)
    case Next => Advance(known, f)
    case Previous => Back(known, f)
  }

  // ----- what every run keeps -----

  function IndexOf(field: Field): (i: nat)
    ensures i < |STEPS| && STEPS[i] == field
  {
    match field
    case Goal => 0
    case Scenario => 1
    case Angles => 2
    case Audience => 3
    case Styles => 4
    case Avoid => 5
  }

  /** The number of steps the wizard has passed and relies on. */
  function Passed(f: Flow): nat {
    match f.screen
    case GenerationStep => f.index
    case Confirmation => |STEPS|
    case _ => 0
  }

  ghost predicate ListsAreSelections(known: Catalogue, p: Preferences) {
    && IsSelection(known, Angles, p.angles) && IsSelection(known, Styles, p.styles)
    && IsSelection(known, Avoid, p.avoid)
  }

  ghost predicate StepsHold(known: Catalogue, p: Preferences, passed: nat)
    requires passed <= |STEPS|
  {
    forall k :: 0 <= k < passed ==> CanAdvance(known, p, STEPS[k])
  }

  ghost predicate Inv(known: Catalogue, f: Flow) {
    && f.index < |STEPS| && f.step == STEPS[f.index]
    && f.canAdvance == (f.screen.GenerationStep? && CanAdvance(known, f.preferences, f.step))
    && ListsAreSelections(known, f.preferences)
    && (f.defaults.Some? ==> IsComplete(known, f.defaults.value))
    && Passed(f) <= |STEPS| && StepsHold(known, f.preferences, Passed(f))
  }

  /** No option is the empty string. */
  ghost predicate HasNoBlank(known: Catalogue) {
    forall field :: !known(field, "")
  }

  lemma OfferedHasNoBlank()
    ensures HasNoBlank(Offered)
  {
  }

  lemma {:induction false} WithoutHolds(ids: seq<string>, id: string)
    ensures forall x :: x in Without(ids, id) <==> x in ids && x != id
  {
    if ids != [] {
      assert ids == ids[..|ids| - 1] + [ids[|ids| - 1]];
      WithoutHolds(ids[..|ids| - 1], id);
    }
  }

  lemma {:induction false} WithoutIsDistinct(ids: seq<string>, id: string)
    requires IsDistinct(ids)
    ensures IsDistinct(Without(ids, id))
    ensures |Without(ids, id)| == if id in ids then |ids| - 1 else |ids|
  {
    if ids != [] {
      var rest, last := ids[..|ids| - 1], ids[|ids| - 1];
      assert ids == rest + [last];
      WithoutIsDistinct(rest, id);
      WithoutHolds(rest, id);
      assert last !in rest;
      DistinctExtends(Without(rest, id), last);
    }
  }

  lemma DistinctExtends(ids: seq<string>, id: string)
    requires IsDistinct(ids) && id !in ids
    ensures IsDistinct(ids + [id])
  {
  }

  lemma WithoutKeeps(known: Catalogue, field: Field, ids: seq<string>, id: string)
    requires IsSelection(known, field, ids)
    ensures IsSelection(known, field, Without(ids, id))
    ensures |Without(ids, id)| == if id in ids then |ids| - 1 else |ids|
  {
    WithoutIsDistinct(ids, id);
    WithoutHolds(ids, id);
    forall i | 0 <= i < |Without(ids, id)|
      ensures known(field, Without(ids, id)[i])
    {
      assert Without(ids, id)[i] in ids;
    }
  }

  lemma ToggleKeeps(known: Catalogue, field: Field, ids: seq<string>, id: string)
    requires IsSelection(known, field, ids) && known(field, id) && Most(field) == MaxSelection(field)
    ensures IsSelection(known, field, Toggle(ids, id, MaxSelection(field)))
    ensures Toggle(ids, id, MaxSelection(field)) == [] <==> ids == [id]
  {
    WithoutKeeps(known, field, ids, id);
    if id in ids && |ids| == 1 {
      assert ids == [id];
    } else if ids == [id] {
      assert false;
    }
  }

  /** A selection that takes the last angle or style away from a step the wizard has passed. */
  predicate Drops(f: Flow, field: Field, id: string) {
    && IndexOf(field) < Passed(f)
    && ((field.Angles? && f.preferences.angles == [id]) || (field.Styles? && f.preferences.styles == [id]))
  }

  lemma SelectedKeepsLists(known: Catalogue, p: Preferences, field: Field, id: string)
    requires ListsAreSelections(known, p) && known(field, id)
    ensures ListsAreSelections(known, Selected(p, field, id))
  {
    if field.Angles? {
      ToggleKeeps(known, field, p.angles, id);
    } else if field.Styles? {
      ToggleKeeps(known, field, p.styles, id);
    } else if field.Avoid? {
      ToggleKeeps(known, field, p.avoid, id);
    }
  }

  /** A selection concerns its own step alone, and unsettles it only by taking its last angle or style. */
  lemma SelectedAdvances(known: Catalogue, p: Preferences, field: Field, id: string, other: Field)
    requires ListsAreSelections(known, p) && HasNoBlank(known) && known(field, id)
    ensures CanAdvance(known, Selected(p, field, id), other) <==>
      if other != field then CanAdvance(known, p, other)
      else !(field.Angles? && p.angles == [id]) && !(field.Styles? && p.styles == [id])
  {
    if field.Angles? {
      ToggleKeeps(known, field, p.angles, id);
    } else if field.Styles? {
      ToggleKeeps(known, field, p.styles, id);
    } else if field.Avoid? {
      ToggleKeeps(known, field, p.avoid, id);
    }
  }

  /** A selection keeps the wizard sound exactly when it does not take the last angle or style from a passed step. */
  lemma SelectionIsSoundIff(known: Catalogue, f: Flow, field: Field, id: string)
    requires Inv(known, f) && HasNoBlank(known) && known(field, id)
    ensures Inv(known, Select(known, f, field, id)) <==> !Drops(f, field, id)
  {
    var p, q := f.preferences, Selected(f.preferences, field, id);
    SelectedKeepsLists(known, p, field, id);
    if Drops(f, field, id) {
      SelectedAdvances(known, p, field, id, field);
      assert !CanAdvance(known, q, STEPS[IndexOf(field)]);
    } else {
      forall k | 0 <= k < Passed(f) ensures CanAdvance(known, q, STEPS[k]) {
        StepSurvives(known, f, field, id, k);
      }
    }
  }

  lemma StepSurvives(known: Catalogue, f: Flow, field: Field, id: string, k: nat)
    requires Inv(known, f) && HasNoBlank(known) && known(field, id) && !Drops(f, field, id) && k < Passed(f)
    ensures CanAdvance(known, Selected(f.preferences, field, id), STEPS[k])
  {
    SelectedAdvances(known, f.preferences, field, id, STEPS[k]);
    assert CanAdvance(known, f.preferences, STEPS[k]);
    assert STEPS[k] == field ==> IndexOf(field) == k;
  }

  lemma CompleteHolds(known: Catalogue, p: Preferences)
    requires HasNoBlank(known)
    ensures IsComplete(known, p) <==> ListsAreSelections(known, p) && StepsHold(known, p, |STEPS|)
  {
    if StepsHold(known, p, |STEPS|) {
      assert CanAdvance(known, p, STEPS[0]) && CanAdvance(known, p, STEPS[1]) && CanAdvance(known, p, STEPS[2])
          && CanAdvance(known, p, STEPS[3]) && CanAdvance(known, p, STEPS[4]) && CanAdvance(known, p, STEPS[5]);
    }
  }

  lemma OpenIsSound(known: Catalogue, s: Stored)
    requires s.defaults.Some? ==> IsComplete(known, s.defaults.value)
    ensures Inv(known, Open(known, s))
  {
  }

  lemma OtherEventsKeepInv(known: Catalogue, f: Flow, e: Event)
    requires Inv(known, f) && HasNoBlank(known) && !e.Choose?
    ensures Inv(known, Apply(known, f, e))
  {
    if e.Defaults? && f.defaults.Some? {
      CompleteHolds(known, f.defaults.value);
    }
  }

  /** A run, with the selections that may be made in each state left to a rule. */
  ghost predicate Follows(known: Catalogue, f: Flow, events: seq<Event>)
    decreases events
  {
    f.index < |STEPS| &&
    (events == [] ||
     (&& (events[0].Choose? && known(events[0].field, events[0].id) ==> !Drops(f, events[0].field, events[0].id))
      && Follows(known, Apply(known, f, events[0]), events[1..])))
  }

  function Run(known: Catalogue, f: Flow, events: seq<Event>): Flow
    decreases events
  {
    if events == [] || f.index >= |STEPS| then f else Run(known, Apply(known, f, events[0]), events[1..])
  }

  lemma {:induction false} RunKeepsInv(known: Catalogue, f: Flow, events: seq<Event>)
    requires Inv(known, f) && HasNoBlank(known) && Follows(known, f, events)
    ensures Inv(known, Run(known, f, events))
    decreases events
  {
    if events != [] {
      var e := events[0];
      if e.Choose? {
        if known(e.field, e.id) {
          SelectionIsSoundIff(known, f, e.field, e.id);
        }
      } else {
        OtherEventsKeepInv(known, f, e);
      }
      RunKeepsInv(known, Apply(known, f, e), events[1..]);
    }
  }

  /** Whatever the user does short of dropping a passed step's last choice: when the wizard shows the confirmation, the
      separately written validator accepts the preferences and returns them unchanged. */
  lemma ConfirmationIsValid(known: Catalogue, s: Stored, events: seq<Event>)
    requires s.defaults.Some? ==> Validate(known, AsRaw(s.defaults.value)) == Some(s.defaults.value)
    requires HasNoBlank(known) && Follows(known, Open(known, s), events)
    requires Run(known, Open(known, s), events).screen.Confirmation?
    ensures var p := Run(known, Open(known, s), events).preferences; Validate(known, AsRaw(p)) == Some(p)
  {
    if s.defaults.Some? {
      ValidatorAcceptsIff(known, s.defaults.value);
    }
    OpenIsSound(known, s);
    RunKeepsInv(known, Open(known, s), events);
    var p := Run(known, Open(known, s), events).preferences;
    CompleteHolds(known, p);
    ValidatorAcceptsIff(known, p);
  }

  /** The wizard's own discipline, selecting only for the step on screen, never drops a passed step's last choice. */
  lemma CurrentStepNeverDrops(known: Catalogue, f: Flow, id: string)
    requires Inv(known, f) && f.screen.GenerationStep?
    ensures !Drops(f, f.step, id)
  {
    assert IndexOf(f.step) == f.index;
  }

  /** A run in which the user chooses only on the screen of a step, and only for that step. */
  ghost predicate ChoosesOnScreen(known: Catalogue, f: Flow, events: seq<Event>)
    decreases events
  {
    f.index < |STEPS| &&
    (events == [] ||
     (&& (events[0].Choose? ==> f.screen.GenerationStep? && events[0].field == f.step)
      && ChoosesOnScreen(known, Apply(known, f, events[0]), events[1..])))
  }

  lemma {:induction false} ChoosingOnScreenFollows(known: Catalogue, f: Flow, events: seq<Event>)
    requires Inv(known, f) && HasNoBlank(known) && ChoosesOnScreen(known, f, events)
    ensures Follows(known, f, events)
    decreases events
  {
    if events != [] {
      var e := events[0];
      if e.Choose? {
        CurrentStepNeverDrops(known, f, e.id);
        if known(e.field, e.id) {
          SelectionIsSoundIff(known, f, e.field, e.id);
        }
      } else {
        OtherEventsKeepInv(known, f, e);
      }
      ChoosingOnScreenFollows(known, Apply(known, f, e), events[1..]);
    }
  }

  /** So the wizard as it is used is safe without any discipline of its user: after any run that chooses only for the
      step on screen, a confirmation shows preferences the validator returns unchanged. */
  lemma OnScreenConfirmationIsValid(known: Catalogue, s: Stored, events: seq<Event>)
    requires s.defaults.Some? ==> Validate(known, AsRaw(s.defaults.value)) == Some(s.defaults.value)
    requires HasNoBlank(known) && ChoosesOnScreen(known, Open(known, s), events)
    requires Run(known, Open(known, s), events).screen.Confirmation?
    ensures var p := Run(known, Open(known, s), events).preferences; Validate(known, AsRaw(p)) == Some(p)
  {
    if s.defaults.Some? {
      ValidatorAcceptsIff(known, s.defaults.value);
    }
    OpenIsSound(known, s);
    ChoosingOnScreenFollows(known, Open(known, s), events);
    ConfirmationIsValid(known, s, events);
  }

  /** On the confirmation itself, a selection leaves acceptable preferences exactly when it drops no last choice. */
  lemma ConfirmedSelectionIsValidIff(known: Catalogue, f: Flow, field: Field, id: string)
    requires Inv(known, f) && HasNoBlank(known) && f.screen.Confirmation? && known(field, id)
    ensures var p := Select(known, f, field, id).preferences;
      Validate(known, AsRaw(p)) == (if Drops(f, field, id) then None else Some(p))
  {
    var after := Select(known, f, field, id);
    SelectionIsSoundIff(known, f, field, id);
    CompleteHolds(known, after.preferences);
    ValidatorAcceptsIff(known, after.preferences);
    if Drops(f, field, id) {
      if field.Angles? { ToggleKeeps(known, field, f.preferences.angles, id); }
      else { ToggleKeeps(known, field, f.preferences.styles, id); }
    }
  }

  /** The discipline is the caller's: the transitions themselves let a caller select off the step on screen. One that
      does so on the confirmation of stored defaults with a single angle is left with preferences the validator
      refuses. */
  lemma DroppedAngleIsRefused(known: Catalogue, s: Stored, angle: string)
    requires HasNoBlank(known) && s.defaults.Some? && IsComplete(known, s.defaults.value)
    requires s.defaults.value.angles == [angle]
    ensures var f := Run(known, Open(known, s), [Defaults, Choose(Angles, angle)]);
      f.screen.Confirmation? && Validate(known, AsRaw(f.preferences)) == None
  {
    var f0 := Open(known, s);
    OpenIsSound(known, s);
    OtherEventsKeepInv(known, f0, Defaults);
    var f1 := Apply(known, f0, Defaults);
    assert known(Angles, s.defaults.value.angles[0]);
    ConfirmedSelectionIsValidIff(known, f1, Angles, angle);
    var f2 := Apply(known, f1, Choose(Angles, angle));
    assert [Defaults, Choose(Angles, angle)][1..] == [Choose(Angles, angle)];
    assert [Choose(Angles, angle)][1..] == [];
    assert Run(known, f2, []) == f2;
    assert Run(known, f1, [Choose(Angles, angle)]) == f2;
  }
}
