/** Migration of the model cache from its legacy layout to the canonical one, by copies and removals whose failures are
    swallowed. */
module CacheLayout {

  type Bytes = seq<bv8>

  const TORCH_MODEL_MAGIC: Bytes := [0x50, 0x4B, 0x03, 0x04]

  /** A model directory, and its model file if it has one. */
  datatype ModelDir = Absent | NoModel | Model(file: Bytes)

  /** The speech and voice-activity models under each root. */
  const KNOWN_MODELS: nat := 2

  type Root = s: seq<ModelDir> | |s| == KNOWN_MODELS witness [Absent, Absent]

  datatype Layout = Layout(legacy: Root, canonical: Root)

  /** Removing a tree, or copying one, may stop part-way and leave something else. */
  datatype Effort = Succeeds | Leaves(dir: ModelDir)

  /** What happens to one model directory: creating the target's parent, clearing the target, copying, and at the end
      removing the legacy directory. */
  datatype Faults = Faults(mkdirFails: bool, clear: Effort, copy: Effort, remove: Effort)

  const NO_FAULTS := Faults(false, Succeeds, Succeeds, Succeeds)

  /** What happens in one run: to each model directory, and to the three readings of a whole root, of which any may
      fail and then answer "incomplete". */
  datatype FaultPlan = FaultPlan(dirs: DirFaults, misreadsCanonical: bool, misreadsLegacy: bool, misreadsAgain: bool)

  type DirFaults = s: seq<Faults> | |s| == KNOWN_MODELS witness [NO_FAULTS, NO_FAULTS]

  /** The worker's test of a model file: non-empty and starting like a zip archive. */
  predicate Plausible(d: ModelDir) {
    d.Model? && TORCH_MODEL_MAGIC <= d.file
  }

  predicate Complete(root: Root) {
    forall i :: 0 <= i < KNOWN_MODELS ==> Plausible(root[i])
  }

  /** The worker's answer to whether a root is complete. */
  predicate ReadsComplete(root: Root, misreads: bool) {
    !misreads && Complete(root)
  }

  // ----- the migration, operation by operation -----

  function Cleared(s: Layout, i: nat, f: Faults): Layout
    requires i < KNOWN_MODELS
  {
    if s.legacy[i].Absent? || f.mkdirFails || s.canonical[i].Absent? then s
    else s.(canonical := s.canonical[i := if f.clear.Succeeds? then Absent else f.clear.dir])
  }

  /** The copy is attempted: there is something to copy, and the target could be cleared. */
  predicate CopyAttempted(s: Layout, i: nat, f: Faults)
    requires i < KNOWN_MODELS
  {
    !s.legacy[i].Absent? && !f.mkdirFails && (s.canonical[i].Absent? || f.clear.Succeeds?)
  }

  function Copied(s: Layout, i: nat, f: Faults): Layout
    requires i < KNOWN_MODELS
  {
    if !CopyAttempted(s, i, f) then Cleared(s, i, f)
    else s.(canonical := s.canonical[i := if f.copy.Succeeds? then s.legacy[i] else f.copy.dir])
  }

  function LegacyRemoved(s: Layout, i: nat, f: Faults): Layout
    requires i < KNOWN_MODELS
  {
    if s.legacy[i].Absent? then s
    else s.(legacy := s.legacy[i := if f.remove.Succeeds? then Absent else f.remove.dir])
  }

  function CopiedAll(s: Layout, f: DirFaults): Layout {
    Copied(Copied(s, 0, f[0]), 1, f[1])
  }

  function LegacyRemovedAll(s: Layout, f: DirFaults): Layout {
    LegacyRemoved(LegacyRemoved(s, 0, f[0]), 1, f[1])
  }

  predicate Migrates(s: Layout, f: FaultPlan) {
    !ReadsComplete(s.canonical, f.misreadsCanonical) && ReadsComplete(s.legacy, f.misreadsLegacy)
  }

  function AfterCopy(s: Layout, f: FaultPlan): Layout {
    if Migrates(s, f) then CopiedAll(s, f.dirs) else s
  }

  /** The canonical root is taken for complete in the end. */
  predicate CleansUp(s: Layout, f: FaultPlan) {
    ReadsComplete(AfterCopy(s, f).canonical, if Migrates(s, f) then f.misreadsAgain else f.misreadsCanonical)
  }

  function Normalize(s: Layout, f: FaultPlan): Layout {
    if CleansUp(s, f) then LegacyRemovedAll(AfterCopy(s, f), f.dirs) else AfterCopy(s, f)
  }

  /** Every layout the migration passes through, one per directory operation. */
  function Passes(s: Layout, f: FaultPlan): seq<Layout> {
    var copied, d := AfterCopy(s, f), f.dirs;
    (if Migrates(s, f) then
       [s, Cleared(s, 0, d[0]), Copied(s, 0, d[0]), Cleared(Copied(s, 0, d[0]), 1, d[1]), copied]
     else [s])
    + if CleansUp(s, f) then [LegacyRemoved(copied, 0, d[0]), LegacyRemovedAll(copied, d)] else []
  }

  // ----- the migration as the worker runs it -----

  class CacheRoots {
    var legacy: Root
    var canonical: Root

    constructor (legacy: Root, canonical: Root)
      ensures State() == Layout(legacy, canonical)
    {
      this.legacy, this.canonical := legacy, canonical;
    }

    function State(): Layout
      reads this
    {
      Layout(legacy, canonical)
    }

    method CopyKnownModelDirs(f: DirFaults)
      modifies this`canonical
      ensures State() == CopiedAll(old(State()), f)
    {
      for i := 0 to KNOWN_MODELS
        invariant i == 0 ==> State() == old(State())
        invariant i == 1 ==> State() == Copied(old(State()), 0, f[0])
        invariant i == 2 ==> State() == CopiedAll(old(State()), f)
      {
        if legacy[i].Absent? || f[i].mkdirFails {
          continue;
        }
        if !canonical[i].Absent? {
          if f[i].clear.Leaves? {
            canonical := canonical[i := f[i].clear.dir];
            continue;
          }
          canonical := canonical[i := Absent];
        }
        canonical := canonical[i := if f[i].copy.Succeeds? then legacy[i] else f[i].copy.dir];
      }
    }

    method RemoveKnownLegacyDirs(f: DirFaults)
      modifies this`legacy
      ensures State() == LegacyRemovedAll(old(State()), f)
    {
      for i := 0 to KNOWN_MODELS
        invariant i == 0 ==> State() == old(State())
        invariant i == 1 ==> State() == LegacyRemoved(old(State()), 0, f[0])
        invariant i == 2 ==> State() == LegacyRemovedAll(old(State()), f)
      {
        if legacy[i].Absent? {
          continue;
        }
        legacy := legacy[i := if f[i].remove.Succeeds? then Absent else f[i].remove.dir];
      }
    }

    method NormalizeLayout(f: FaultPlan)
      modifies this
      ensures State() == Normalize(old(State()), f)
    {
      var canonicalComplete := ReadsComplete(canonical, f.misreadsCanonical);
      var legacyComplete := ReadsComplete(legacy, f.misreadsLegacy);
      if !canonicalComplete && legacyComplete {
        CopyKnownModelDirs(f.dirs);
        canonicalComplete := ReadsComplete(canonical, f.misreadsAgain);
      }
      if canonicalComplete {
        RemoveKnownLegacyDirs(f.dirs);
      }
    }
  }

  // ----- what the migration keeps -----

  predicate SomeComplete(s: Layout) {
    Complete(s.legacy) || Complete(s.canonical)
  }

  /** The last complete copy is never lost: not at the end and not after any single operation, whatever the swallowed
      failures leave behind, and whichever readings fail and answer "incomplete". */
  lemma CompleteCopyIsNeverLost(s: Layout, f: FaultPlan)
    requires SomeComplete(s)
    ensures forall p :: p in Passes(s, f) ==> SomeComplete(p)
    ensures Normalize(s, f) == Passes(s, f)[|Passes(s, f)| - 1]
  {
  }

  const PLAIN: FaultPlan := FaultPlan([NO_FAULTS, NO_FAULTS], false, false, false)

  /** Without failures a complete legacy cache is moved to the canonical root, model by model, and a second run changes
      nothing. */
  lemma CleanRunMigrates(s: Layout)
    ensures var after := Normalize(s, PLAIN);
      && Normalize(after, PLAIN) == after
      && (Migrates(s, PLAIN) ==> after == Layout([Absent, Absent], s.legacy))
      && (Complete(s.canonical) ==> after == Layout([Absent, Absent], s.canonical))
      && (!SomeComplete(s) ==> after == s)
  {
  }

  /** The two roots differ at one model directory at most. */
  predicate DifferAtMostOnce(a: Layout, b: Layout) {
    || (a.canonical == b.canonical && (a.legacy[0] == b.legacy[0] || a.legacy[1] == b.legacy[1]))
    || (a.legacy == b.legacy && (a.canonical[0] == b.canonical[0] || a.canonical[1] == b.canonical[1]))
  }

  /** The layouts passed through are those between single operations: from the first, the given one, each differs from
      the one before at one model directory at most. */
  lemma OneOperationAtATime(s: Layout, f: FaultPlan)
    ensures Passes(s, f)[0] == s
    ensures forall k :: 0 < k < |Passes(s, f)| ==> DifferAtMostOnce(Passes(s, f)[k - 1], Passes(s, f)[k])
    ensures Migrates(s, f) ==>
      && (!s.canonical[0].Absent? && !f.dirs[0].mkdirFails && f.dirs[0].clear.Succeeds? ==>
            Passes(s, f)[1].canonical[0].Absent?)
      && (!s.canonical[1].Absent? && !f.dirs[1].mkdirFails && f.dirs[1].clear.Succeeds? ==>
            Passes(s, f)[3].canonical[1].Absent?)
  {
    if Migrates(s, f) {
      assert Plausible(s.legacy[0]) && Plausible(s.legacy[1]);
    }
  }

  /** A model file is taken for one exactly when it starts with the four bytes of a zip archive. */
  lemma ModelFileIsPlausibleIff(d: ModelDir)
    ensures Plausible(d) <==>
      d.Model? && |d.file| >= 4 && d.file[0] == 0x50 && d.file[1] == 0x4B && d.file[2] == 3 && d.file[3] == 4
  {
    if d.Model? && |d.file| >= 4 {
      assert d.file[..4] == [d.file[0], d.file[1], d.file[2], d.file[3]];
    }
  }

  /** Nothing is copied unless the canonical root reads as incomplete and both legacy files start like archives; and
      what is not there is neither copied nor removed. */
  lemma OnlyPlausibleIsMigrated(s: Layout, f: FaultPlan, i: nat)
    requires i < KNOWN_MODELS
    ensures !Plausible(s.legacy[i]) ==> Normalize(s, f).canonical == s.canonical
    ensures Complete(s.canonical) && !f.misreadsCanonical ==> Normalize(s, f).canonical == s.canonical
    ensures s.legacy[i].Absent? ==> Normalize(s, f).legacy[i].Absent?
    ensures !Complete(s.canonical) && !Plausible(s.legacy[i]) ==> Normalize(s, f) == s
  {
  }

  // ----- what the test of the first bytes costs -----

  /** Model i is copied: its place could be made and cleared, and the copy ran to its end. */
  predicate Copies(s: Layout, i: nat, f: Faults)
    requires i < KNOWN_MODELS
  {
    !f.mkdirFails && (s.canonical[i].Absent? || f.clear.Succeeds?) && f.copy.Succeeds?
  }

  /** What is in the place of a model that is not copied: what was there when its place could not be made, what the
      clearing left, or what the copy left. */
  function Leftover(s: Layout, i: nat, f: Faults): ModelDir
    requires i < KNOWN_MODELS && !Copies(s, i, f)
  {
    if f.mkdirFails then s.canonical[i]
    else if !s.canonical[i].Absent? && f.clear.Leaves? then f.clear.dir
    else f.copy.dir
  }

  predicate Deceives(s: Layout, i: nat, f: Faults)
    requires i < KNOWN_MODELS
  {
    !Copies(s, i, f) && Plausible(Leftover(s, i, f)) && Leftover(s, i, f) != s.legacy[i]
  }

  /** The test takes what is in model i's place for the model. */
  predicate PassesTest(s: Layout, i: nat, f: Faults)
    requires i < KNOWN_MODELS
  {
    Copies(s, i, f) || Plausible(Leftover(s, i, f))
  }

  /** The clean-up fails, and leaves the original as it was. */
  predicate OriginalStays(s: Layout, i: nat, f: Faults)
    requires i < KNOWN_MODELS
  {
    f.remove.Leaves? && f.remove.dir == s.legacy[i]
  }

  lemma PlaceAfterCopying(s: Layout, f: DirFaults, i: nat)
    requires i < KNOWN_MODELS && Complete(s.legacy)
    ensures CopiedAll(s, f).canonical[i] == if Copies(s, i, f[i]) then s.legacy[i] else Leftover(s, i, f[i])
    ensures CopiedAll(s, f).legacy == s.legacy
  {
    assert Plausible(s.legacy[0]) && Plausible(s.legacy[1]);
    var first := Copied(s, 0, f[0]);
    assert first.legacy == s.legacy && first.canonical[1] == s.canonical[1];
  }

  /** A migration keeps the legacy files themselves, all in one root or all in the other, exactly unless all of this
      comes together: every model's place passes the test, one of them by what a failed operation left and not by a
      copy, the final reading works, and the clean-up removes or damages an original. */
  lemma MigrationKeepsFilesIff(s: Layout, f: FaultPlan)
    requires Migrates(s, f)
    ensures var after, d := Normalize(s, f), f.dirs;
      (after.canonical == s.legacy || after.legacy == s.legacy) <==>
        || f.misreadsAgain
        || !PassesTest(s, 0, d[0]) || !PassesTest(s, 1, d[1])
        || (!Deceives(s, 0, d[0]) && !Deceives(s, 1, d[1]))
        || (OriginalStays(s, 0, d[0]) && OriginalStays(s, 1, d[1]))
  {
    var d := f.dirs;
    var copied := CopiedAll(s, d);
    PlaceAfterCopying(s, d, 0);
    PlaceAfterCopying(s, d, 1);
    assert Plausible(s.legacy[0]) && Plausible(s.legacy[1]);
    assert Complete(copied.canonical) <==> PassesTest(s, 0, d[0]) && PassesTest(s, 1, d[1]);
    if CleansUp(s, f) {
      var after := Normalize(s, f);
      assert after.canonical == copied.canonical;
      assert after.legacy[0] == s.legacy[0] <==> OriginalStays(s, 0, d[0]);
      assert after.legacy[1] == s.legacy[1] <==> OriginalStays(s, 1, d[1]);
    }
  }

  // ----- what a misread canonical root costs -----

  /** Model i's place holds afterwards what it held before. */
  predicate PlaceKept(s: Layout, i: nat, f: Faults)
    requires i < KNOWN_MODELS
  {
    s.canonical[i] == if Copies(s, i, f) then s.legacy[i] else Leftover(s, i, f)
  }

  /** A complete canonical root keeps its files exactly unless its reading fails, the legacy root reads as complete, and
      some place then holds something else: the legacy model, or what a failed operation left. */
  lemma CompleteCanonicalIsKeptIff(s: Layout, f: FaultPlan)
    requires Complete(s.canonical)
    ensures Normalize(s, f).canonical == s.canonical <==>
      || !f.misreadsCanonical || f.misreadsLegacy || !Complete(s.legacy)
      || (PlaceKept(s, 0, f.dirs[0]) && PlaceKept(s, 1, f.dirs[1]))
  {
    if Migrates(s, f) {
      var copied := CopiedAll(s, f.dirs);
      PlaceAfterCopying(s, f.dirs, 0);
      PlaceAfterCopying(s, f.dirs, 1);
      assert Normalize(s, f).canonical == copied.canonical;
      assert copied.canonical == s.canonical <==>
        copied.canonical[0] == s.canonical[0] && copied.canonical[1] == s.canonical[1];
    }
  }

  /** So a single failed reading, with everything else working, replaces a complete canonical root by the legacy one. */
  lemma MisreadCanonicalIsOverwritten(s: Layout)
    requires Complete(s.canonical) && Complete(s.legacy)
    ensures Normalize(s, PLAIN.(misreadsCanonical := true)) == Layout([Absent, Absent], s.legacy)
  {
    var f := PLAIN.(misreadsCanonical := true);
    assert Plausible(s.legacy[0]) && Plausible(s.legacy[1]);
    PlaceAfterCopying(s, f.dirs, 0);
    PlaceAfterCopying(s, f.dirs, 1);
    assert CopiedAll(s, f.dirs).canonical == s.legacy;
  }

  /** Whatever else fails, a complete canonical root is safe exactly when its reading works or there is no complete
      legacy root. */
  lemma CanonicalIsSafeIff(s: Layout, misreads: bool)
    requires Complete(s.canonical)
    ensures (forall f: FaultPlan :: f.misreadsCanonical == misreads ==> Normalize(s, f).canonical == s.canonical) <==>
      !misreads || !Complete(s.legacy)
  {
    if misreads && Complete(s.legacy) {
      var f := PLAIN.(misreadsCanonical := true, dirs := [NO_FAULTS.(clear := Leaves(Absent)), NO_FAULTS]);
      CompleteCanonicalIsKeptIff(s, f);
      assert Plausible(s.canonical[0]) && !PlaceKept(s, 0, f.dirs[0]);
      assert f.misreadsCanonical == misreads && Normalize(s, f).canonical != s.canonical;
    } else {
      forall f: FaultPlan | f.misreadsCanonical == misreads
        ensures Normalize(s, f).canonical == s.canonical
      {
        CompleteCanonicalIsKeptIff(s, f);
      }
    }
  }

  // ----- what a truncated copy costs -----

  /** A copy cut short after the first bytes passes the test, and the intact original is then removed. */
  lemma TruncatedCopyPasses(s: Layout, f: FaultPlan)
    requires s == Layout([Model(TORCH_MODEL_MAGIC + [1]), Model(TORCH_MODEL_MAGIC)], [Absent, Absent])
    requires f == PLAIN.(dirs := [NO_FAULTS.(copy := Leaves(Model(TORCH_MODEL_MAGIC))), NO_FAULTS])
    ensures Normalize(s, f) == Layout([Absent, Absent], [Model(TORCH_MODEL_MAGIC), Model(TORCH_MODEL_MAGIC)])
  {
    assert Plausible(s.legacy[0]) && Plausible(s.legacy[1]);
    assert !Plausible(s.canonical[0]);
    assert CopiedAll(s, f.dirs).canonical == [Model(TORCH_MODEL_MAGIC), Model(TORCH_MODEL_MAGIC)];
  }
}
