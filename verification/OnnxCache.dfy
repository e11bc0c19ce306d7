/** Promotion of a downloaded ONNX model cache by directory renames, with roll-back, when any file operation, reads
    included, may fail and the process may be killed between any two of them. */
module OnnxCache {
  import opened Text

  /** The cache directory: the ready cache, and back-up directories left by earlier calls. */
  datatype Cache<Dir> = Cache(ready: Option<Dir>, backups: seq<Dir>)

  /** How one operation ends; a killed process performs nothing more. */
  datatype Io = Done | Fails | Killed

  /** How removing a directory tree ends: all of it, or not all of it, or the process dies part-way. */
  datatype Removal<Dir> = Removed | Remains(left: Dir) | KilledAt(left: Dir)

  /** How a validation ends: with the truth, with "invalid" because a read failed and the failure was swallowed, with an
      exception, or not at all. */
  datatype Check = Answers | Misreads | CheckRaises | CheckKilled

  /** How downloading and assembling the staged cache ends. */
  datatype Staging<Dir> = Staged(dir: Dir) | StagingRaises | StagingKilled

  /** Everything the surroundings decide during one call. */
  datatype Faults<!Dir> = Faults(
    stale: nat -> Removal<Dir>,
    diskSpace: Io,
    readyCheck: Check,
    preparingEvent: Io,
    staging: Staging<Dir>,
    stagedCheck: Check,
    backup: Io,
    promote: Io,
    rollback: Io,
    discard: Removal<Dir>,
    completedEvent: Io)

  datatype Outcome = Returned | Raised | Died

  function Interrupted(io: Io): Outcome
    requires !io.Done?
  {
    if io.Fails? then Raised else Died
  }

  predicate Stops(check: Check) {
    check.CheckRaises? || check.CheckKilled?
  }

  function StoppedBy(check: Check): Outcome
    requires Stops(check)
  {
    if check.CheckRaises? then Raised else Died
  }

  // ----- one call, as a function of the directory and the faults -----

  /** The back-ups left when those from position i on have been tried, and whether the process lived. */
  function StaleRemoved<Dir>(backups: seq<Dir>, removal: nat -> Removal<Dir>, i: nat): (seq<Dir>, bool)
    requires i <= |backups|
    decreases |backups| - i
  {
    if i == |backups| then ([], true)
    else
      match removal(i)
      case KilledAt(left) => ([left] + backups[i + 1..], false)
      case Removed => StaleRemoved(backups, removal, i + 1)
      case Remains(left) =>
        var (rest, alive) := StaleRemoved(backups, removal, i + 1);
        ([left] + rest, alive)
  }

  function Promoted<Dir>(c: Cache<Dir>, staged: Dir, f: Faults<Dir>): (Cache<Dir>, Outcome) {
    if c.ready.Some? && !f.backup.Done? then (c, Interrupted(f.backup))
    else
      var moved := if c.ready.Some? then Cache(None, c.backups + [c.ready.value]) else c;
      match f.promote
      case Killed => (moved, Died)
      case Fails =>
        if c.ready.None? then (moved, Raised)
        else if f.rollback.Done? then (c, Raised)
        else (moved, Interrupted(f.rollback))
      case Done =>
        if c.ready.None? then (c.(ready := Some(staged)), Returned)
        else
          match f.discard
          case Removed => (c.(ready := Some(staged)), Returned)
          case Remains(left) => (Cache(Some(staged), c.backups + [left]), Returned)
          case KilledAt(left) => (Cache(Some(staged), c.backups + [left]), Died)
  }

  function Download<Dir>(c: Cache<Dir>, valid: Dir -> bool, f: Faults<Dir>): (Cache<Dir>, Outcome) {
    var (left, alive) := StaleRemoved(c.backups, f.stale, 0);
    var swept := c.(backups := left);
    if !alive then (swept, Died)
    else if !f.diskSpace.Done? then (swept, Interrupted(f.diskSpace))
    else if swept.ready.Some? && Stops(f.readyCheck) then (swept, StoppedBy(f.readyCheck))
    else if swept.ready.Some? && f.readyCheck.Answers? && valid(swept.ready.value) then (swept, Returned)
    else if !f.preparingEvent.Done? then (swept, Interrupted(f.preparingEvent))
    else
      match f.staging
      case StagingRaises => (swept, Raised)
      case StagingKilled => (swept, Died)
      case Staged(dir) =>
        if Stops(f.stagedCheck) then (swept, StoppedBy(f.stagedCheck))
        else if !f.stagedCheck.Answers? || !valid(dir) then (swept, Raised)
        else
          var (after, outcome) := Promoted(swept, dir, f);
          if outcome.Returned? && !f.completedEvent.Done? then (after, Interrupted(f.completedEvent))
          else (after, outcome)
  }

  // ----- the call as the worker runs it -----

  class ModelCache<Dir> {
    var ready: Option<Dir>
    var backups: seq<Dir>

    constructor (ready: Option<Dir>, backups: seq<Dir>)
      ensures State() == Cache(ready, backups)
    {
      this.ready, this.backups := ready, backups;
    }

    function State(): Cache<Dir>
      reads this
    {
      Cache(ready, backups)
    }

    method RemoveStale(removal: nat -> Removal<Dir>) returns (alive: bool)
      modifies this
      ensures ready == old(ready) && (backups, alive) == StaleRemoved(old(backups), removal, 0)
    {
      var found, kept := backups, [];
      ghost var all := StaleRemoved(found, removal, 0);
      assert kept + all.0 == all.0;
      for i := 0 to |found|
        invariant ready == old(ready)
        invariant all == (kept + StaleRemoved(found, removal, i).0, StaleRemoved(found, removal, i).1)
      {
        match removal(i)
        case Removed =>
        case Remains(left) =>
          assert kept + ([left] + StaleRemoved(found, removal, i + 1).0)
              == (kept + [left]) + StaleRemoved(found, removal, i + 1).0;
          kept := kept + [left];
        case KilledAt(left) =>
          backups := kept + ([left] + found[i + 1..]);
          return false;
      }
      assert kept + [] == kept;
      backups := kept;
      alive := true;
    }

    method Promote(staged: Dir, f: Faults<Dir>) returns (outcome: Outcome)
      modifies this
      ensures (State(), outcome) == Promoted(old(State()), staged, f)
    {
      var hadReady := ready.Some?;
      if hadReady {
        if !f.backup.Done? {
          return Interrupted(f.backup);
        }
        backups, ready := backups + [ready.value], None;
      }
      if f.promote.Killed? {
        return Died;
      }
      if f.promote.Fails? {
        if hadReady {
          if !f.rollback.Done? {
            return Interrupted(f.rollback);
          }
          ready, backups := Some(backups[|backups| - 1]), backups[..|backups| - 1];
          assert backups == old(backups);
        }
        return Raised;
      }
      ready := Some(staged);
      if hadReady {
        backups := backups[..|backups| - 1];
        assert backups == old(backups);
        match f.discard
        case Removed =>
        case Remains(left) => backups := backups + [left];
        case KilledAt(left) =>
          backups := backups + [left];
          return Died;
      }
      outcome := Returned;
    }

    /** One download call; every path through it is the specified one. */
    method DownloadOnnxModelCache(valid: Dir -> bool, f: Faults<Dir>) returns (outcome: Outcome)
      modifies this
      ensures (State(), outcome) == Download(old(State()), valid, f)
    {
      var alive := RemoveStale(f.stale);
      if !alive {
        return Died;
      }
      if !f.diskSpace.Done? {
        return Interrupted(f.diskSpace);
      }
      if ready.Some? {
        if Stops(f.readyCheck) {
          return StoppedBy(f.readyCheck);
        }
        if f.readyCheck.Answers? && valid(ready.value) {
          return Returned;
        }
      }
      if !f.preparingEvent.Done? {
        return Interrupted(f.preparingEvent);
      }
      match f.staging
      case StagingRaises => return Raised;
      case StagingKilled => return Died;
      case Staged(dir) =>
        if Stops(f.stagedCheck) {
          return StoppedBy(f.stagedCheck);
        }
        if !f.stagedCheck.Answers? || !valid(dir) {
          return Raised;
        }
        outcome := Promote(dir, f);
        if outcome.Returned? && !f.completedEvent.Done? {
          return Interrupted(f.completedEvent);
        }
    }
  }

  // ----- what one call keeps -----

  predicate Usable<Dir>(c: Cache<Dir>, valid: Dir -> bool) {
    c.ready.Some? && valid(c.ready.value)
  }

  /** The call takes the ready cache for valid. */
  predicate Recognised<Dir>(c: Cache<Dir>, valid: Dir -> bool, f: Faults<Dir>) {
    Usable(c, valid) && f.readyCheck.Answers?
  }

  /** The call gets as far as the rename that brings in the staged cache. */
  predicate Promotes<Dir>(c: Cache<Dir>, valid: Dir -> bool, f: Faults<Dir>) {
    && StaleRemoved(c.backups, f.stale, 0).1 && f.diskSpace.Done?
    && (c.ready.Some? ==> !Stops(f.readyCheck)) && !Recognised(c, valid, f) && f.preparingEvent.Done?
    && f.staging.Staged? && f.stagedCheck.Answers? && valid(f.staging.dir) && (c.ready.Some? ==> f.backup.Done?)
  }

  /** The staged cache comes in. */
  predicate Installs<Dir>(c: Cache<Dir>, valid: Dir -> bool, f: Faults<Dir>) {
    Promotes(c, valid, f) && f.promote.Done?
  }

  /** The staged cache does not come in and the old one does not come back. */
  predicate Displaces<Dir>(c: Cache<Dir>, valid: Dir -> bool, f: Faults<Dir>) {
    Promotes(c, valid, f) && (f.promote.Killed? || (f.promote.Fails? && (c.ready.Some? ==> !f.rollback.Done?)))
  }

  /** How every call ends. A normal return means a valid ready cache; a call that brings in the staged cache leaves it
      there, valid, even if it raises after; one that displaces the old cache leaves nothing in place and the old cache
      in the newest back-up; and any other leaves the ready cache alone. */
  lemma CallOutcomes<Dir>(c: Cache<Dir>, valid: Dir -> bool, f: Faults<Dir>)
    ensures var (after, outcome) := Download(c, valid, f);
      && (outcome.Returned? ==> Usable(after, valid))
      && (Installs(c, valid, f) ==> after.ready == Some(f.staging.dir) && Usable(after, valid))
      && (Displaces(c, valid, f) ==> after.ready.None?)
      && (Displaces(c, valid, f) && c.ready.Some? ==>
            after.backups != [] && after.backups[|after.backups| - 1] == c.ready.value)
      && (!Displaces(c, valid, f) && !Installs(c, valid, f) ==> after.ready == c.ready)
  {
  }

  /** The sweep and the disk are in order, the ready cache's check gives an answer, and not that it is valid. */
  predicate GoesOn<Dir>(c: Cache<Dir>, valid: Dir -> bool, f: Faults<Dir>) {
    && StaleRemoved(c.backups, f.stale, 0).1 && f.diskSpace.Done?
    && (c.ready.Some? ==> f.readyCheck.Misreads? || (f.readyCheck.Answers? && !valid(c.ready.value)))
  }

  /** The staged cache has been assembled, and found valid. */
  predicate Stages<Dir>(c: Cache<Dir>, valid: Dir -> bool, f: Faults<Dir>) {
    && GoesOn(c, valid, f) && f.preparingEvent.Done?
    && f.staging.Staged? && f.stagedCheck.Answers? && valid(f.staging.dir)
  }

  /** Something kills the process while the call is on its way to staging a cache. */
  predicate KilledBeforeStaging<Dir>(c: Cache<Dir>, valid: Dir -> bool, f: Faults<Dir>) {
    var alive := StaleRemoved(c.backups, f.stale, 0).1;
    || !alive || (alive && f.diskSpace.Killed?)
    || (alive && f.diskSpace.Done? && c.ready.Some? && f.readyCheck.CheckKilled?)
    || (GoesOn(c, valid, f) && f.preparingEvent.Killed?)
    || (GoesOn(c, valid, f) && f.preparingEvent.Done?
        && (f.staging.StagingKilled? || (f.staging.Staged? && f.stagedCheck.CheckKilled?)))
  }

  /** Something kills the process while the staged cache is brought in. */
  predicate KilledWhilePromoting<Dir>(c: Cache<Dir>, f: Faults<Dir>) {
    if c.ready.Some? then
      || f.backup.Killed?
      || (f.backup.Done? && f.promote.Killed?)
      || (f.backup.Done? && f.promote.Fails? && f.rollback.Killed?)
      || (f.backup.Done? && f.promote.Done? && (f.discard.KilledAt? || f.completedEvent.Killed?))
    else f.promote.Killed? || (f.promote.Done? && f.completedEvent.Killed?)
  }

  /** A call dies exactly when something kills it that it comes to. It returns exactly when the ready cache is
      recognised, or everything works that it comes to; a removal of the back-up that fails is no matter. Otherwise it
      raises. */
  lemma CallEndsIff<Dir>(c: Cache<Dir>, valid: Dir -> bool, f: Faults<Dir>)
    ensures var outcome := Download(c, valid, f).1;
      && (outcome.Died? <==>
            KilledBeforeStaging(c, valid, f) || (Stages(c, valid, f) && KilledWhilePromoting(c, f)))
      && (outcome.Returned? <==>
            || (StaleRemoved(c.backups, f.stale, 0).1 && f.diskSpace.Done? && Recognised(c, valid, f))
            || (&& Stages(c, valid, f) && f.promote.Done? && f.completedEvent.Done?
                && (c.ready.Some? ==> f.backup.Done? && !f.discard.KilledAt?)))
  {
  }

  /** The back-ups afterwards: what the sweep left, then the old cache if it was displaced, or what was left of it if
      it was replaced. */
  lemma BackupsAre<Dir>(c: Cache<Dir>, valid: Dir -> bool, f: Faults<Dir>)
    ensures var (after, _) := Download(c, valid, f);
      var swept := StaleRemoved(c.backups, f.stale, 0).0;
      after.backups ==
        if c.ready.Some? && Displaces(c, valid, f) then swept + [c.ready.value]
        else if c.ready.Some? && Installs(c, valid, f) && !f.discard.Removed? then swept + [f.discard.left]
        else swept
  {
  }

  /** A valid ready cache leaves its place exactly when a read of its validation fails and is swallowed, and the call
      then gets through staging to the first rename; unless that rename is undone, or the staged cache is the same. */
  lemma ValidCacheIsUntouchedIff<Dir>(c: Cache<Dir>, valid: Dir -> bool, f: Faults<Dir>)
    requires Usable(c, valid)
    ensures Promotes(c, valid, f) <==>
      && f.readyCheck.Misreads? && StaleRemoved(c.backups, f.stale, 0).1 && f.diskSpace.Done? && f.preparingEvent.Done?
      && f.staging.Staged? && f.stagedCheck.Answers? && valid(f.staging.dir) && f.backup.Done?
    ensures Download(c, valid, f).0.ready == c.ready <==>
      || !Promotes(c, valid, f) || (f.promote.Fails? && f.rollback.Done?)
      || (f.promote.Done? && f.staging.dir == c.ready.value)
    ensures f.readyCheck.Answers? ==>
      (Download(c, valid, f).1.Returned? <==> StaleRemoved(c.backups, f.stale, 0).1 && f.diskSpace.Done?)
  {
  }

  /** At every instant of a call, and so if it is killed there, the old cache is in place or in a back-up, or a valid
      new one is in place. */
  lemma NothingIsLostInOneCall<Dir>(c: Cache<Dir>, valid: Dir -> bool, f: Faults<Dir>)
    requires c.ready.Some?
    ensures var after := Download(c, valid, f).0;
      after.ready == c.ready || c.ready.value in after.backups || Usable(after, valid)
  {
  }

  /** But a back-up is only as safe as the next call's sweep, which runs before anything else: it keeps exactly the
      leftovers it fails to remove. */
  lemma {:induction false} SweepDiscardsBackups<Dir>(backups: seq<Dir>, removal: nat -> Removal<Dir>, i: nat)
    requires i <= |backups| && forall j: nat :: i <= j < |backups| ==> removal(j).Removed?
    ensures StaleRemoved(backups, removal, i) == ([], true)
    decreases |backups| - i
  {
    if i < |backups| {
      SweepDiscardsBackups(backups, removal, i + 1);
    }
  }

  // ----- two calls -----

  /** The given cache is nowhere, and no valid one is in place. */
  ghost predicate Lost<Dir>(c: Cache<Dir>, valid: Dir -> bool, previous: Dir) {
    c.ready != Some(previous) && previous !in c.backups && !Usable(c, valid)
  }

  /** From any state of the directory, two calls lose the old cache exactly when the second one's sweep leaves no copy
      of it, and either the first displaced it and the second installs nothing, or the first replaced it and the
      second displaces the new one. */
  lemma TwoCallsLoseIff<Dir>(c: Cache<Dir>, valid: Dir -> bool, first: Faults<Dir>, second: Faults<Dir>)
    requires c.ready.Some?
    ensures var middle := Download(c, valid, first).0;
      Lost(Download(middle, valid, second).0, valid, c.ready.value) <==>
        && c.ready.value !in StaleRemoved(middle.backups, second.stale, 0).0
        && (|| (Displaces(c, valid, first) && !Installs(middle, valid, second))
            || (&& Installs(c, valid, first) && first.staging.dir != c.ready.value
                && Displaces(middle, valid, second)))
  {
    var middle := Download(c, valid, first).0;
    CallOutcomes(c, valid, first);
    SecondCall(middle, valid, second, c.ready.value);
  }

  /** When a call from a directory leaves the given cache nowhere and no valid one in place. */
  lemma SecondCall<Dir>(c: Cache<Dir>, valid: Dir -> bool, f: Faults<Dir>, previous: Dir)
    requires c.ready.None? || c.ready == Some(previous) || Usable(c, valid)
    ensures Lost(Download(c, valid, f).0, valid, previous) <==>
      && previous !in StaleRemoved(c.backups, f.stale, 0).0 && c.ready != Some(previous)
      && (if c.ready.None? then !Installs(c, valid, f) else Displaces(c, valid, f))
  {
  }

  /** What the sweep leaves of a single back-up is not the given cache. */
  predicate SweepsAway<Dir(==)>(removal: nat -> Removal<Dir>, previous: Dir) {
    removal(0).Removed? || removal(0).left != previous
  }

  lemma SweepOfOne<Dir>(backup: Dir, removal: nat -> Removal<Dir>)
    ensures StaleRemoved([backup], removal, 0) ==
      match removal(0)
      case Removed => ([], true)
      case Remains(left) => ([left], true)
      case KilledAt(left) => ([left], false)
  {
    assert StaleRemoved([backup], removal, 1) == ([], true);
    if !removal(0).Removed? {
      var left := [removal(0).left];
      assert left + [backup][1..] == left + [] == left;
    }
  }

  /** What a discard leaves behind. */
  function LeftBy<Dir>(discard: Removal<Dir>): seq<Dir> {
    if discard.Removed? then [] else [discard.left]
  }

  /** From a single cache, valid or not, two calls lose it exactly in one of two ways. Either the first leaves it in a
      back-up, and the second sweeps that away and brings in nothing; or the first replaces it and keeps no copy, and
      the second misreads the new one, takes it out of place and brings in nothing. */
  lemma TwoCallsLoseTheOnlyCacheIff<Dir>(previous: Dir, valid: Dir -> bool, first: Faults<Dir>, second: Faults<Dir>)
    ensures var start := Cache(Some(previous), []);
      Lost(Download(Download(start, valid, first).0, valid, second).0, valid, previous) <==>
        || (&& Displaces(start, valid, first) && SweepsAway(second.stale, previous)
            && !Installs(Cache(None, [previous]), valid, second))
        || (&& Installs(start, valid, first) && first.staging.dir != previous
            && Displaces(Cache(Some(first.staging.dir), LeftBy(first.discard)), valid, second)
            && (first.discard.Removed? || SweepsAway(second.stale, previous)))
  {
    var start := Cache(Some(previous), []);
    var middle := Download(start, valid, first).0;
    assert StaleRemoved([], first.stale, 0) == ([], true);
    if Displaces(start, valid, first) {
      assert [] + [previous] == [previous];
      LossAfterDisplacement(previous, valid, second);
    } else if Installs(start, valid, first) {
      assert [] + LeftBy(first.discard) == LeftBy(first.discard);
      LossAfterInstallation(previous, first.staging.dir, LeftBy(first.discard), valid, second);
    } else {
      NothingIsLostInOneCall(middle, valid, second);
    }
  }

  lemma LossAfterDisplacement<Dir>(previous: Dir, valid: Dir -> bool, f: Faults<Dir>)
    ensures var middle := Cache(None, [previous]);
      Lost(Download(middle, valid, f).0, valid, previous) <==>
        SweepsAway(f.stale, previous) && !Installs(middle, valid, f)
  {
    SweepOfOne(previous, f.stale);
  }

  lemma LossAfterInstallation<Dir>(previous: Dir, staged: Dir, backups: seq<Dir>, valid: Dir -> bool, f: Faults<Dir>)
    requires valid(staged) && |backups| <= 1
    ensures var middle := Cache(Some(staged), backups);
      Lost(Download(middle, valid, f).0, valid, previous) <==>
        staged != previous && Displaces(middle, valid, f) && (backups == [] || SweepsAway(f.stale, previous))
  {
    if backups == [] {
      assert StaleRemoved(backups, f.stale, 0) == ([], true);
    } else {
      assert backups == [backups[0]];
      SweepOfOne(backups[0], f.stale);
    }
  }

  /** So even a valid cache can go: a read of its validation fails, the renames fail, and the next call sweeps the
      back-up before it fails in turn. */
  lemma ValidCacheIsLost<Dir>(previous: Dir, staged: Dir, valid: Dir -> bool, first: Faults<Dir>, second: Faults<Dir>)
    requires valid(previous) && valid(staged)
    requires first.diskSpace.Done? && first.readyCheck.Misreads? && first.preparingEvent.Done?
    requires first.staging == Staged(staged) && first.stagedCheck.Answers?
    requires first.backup.Done? && first.promote.Fails? && first.rollback.Fails?
    requires second.stale(0).Removed? && second.diskSpace.Fails?
    ensures Download(Cache(Some(previous), []), valid, first) == (Cache(None, [previous]), Raised)
    ensures Download(Cache(None, [previous]), valid, second) == (Cache(None, []), Raised)
  {
    assert [] + [previous] == [previous];
    SweepOfOne(previous, second.stale);
  }

  // ----- any sequence of calls -----

  function States<Dir>(c: Cache<Dir>, valid: Dir -> bool, calls: seq<Faults<Dir>>): (s: seq<Cache<Dir>>)
    ensures |s| == |calls| + 1 && s[0] == c
    decreases |calls|
  {
    if calls == [] then [c] else [c] + States(Download(c, valid, calls[0]).0, valid, calls[1..])
  }

  /** Over any sequence of calls, failing or killed anywhere, the ready directory only ever holds its initial content,
      nothing, or a cache that validates. */
  lemma {:induction false} EveryRunIsSafe<Dir>(c: Cache<Dir>, valid: Dir -> bool, calls: seq<Faults<Dir>>)
    ensures forall s :: s in States(c, valid, calls) ==> s.ready.None? || s.ready == c.ready || valid(s.ready.value)
    decreases |calls|
  {
    if calls != [] {
      EveryRunIsSafe(Download(c, valid, calls[0]).0, valid, calls[1..]);
    }
  }

  ghost predicate StaysInPlace<Dir(!new)>(c: Cache<Dir>, valid: Dir -> bool, calls: seq<Faults<Dir>>) {
    forall s :: s in States(c, valid, calls) ==> s.ready == c.ready
  }

  /** Which calls of a run misread the ready cache. */
  ghost predicate Misread<Dir>(calls: seq<Faults<Dir>>, at: seq<bool>) {
    |calls| == |at| && forall i :: 0 <= i < |calls| ==> (calls[i].readyCheck.Misreads? <==> at[i])
  }

  lemma {:induction false} UnmisreadStays<Dir(!new)>(c: Cache<Dir>, valid: Dir -> bool, calls: seq<Faults<Dir>>)
    requires Usable(c, valid) && forall i :: 0 <= i < |calls| ==> !calls[i].readyCheck.Misreads?
    ensures StaysInPlace(c, valid, calls)
    decreases |calls|
  {
    if calls != [] {
      var next := Download(c, valid, calls[0]).0;
      assert next.ready == c.ready;
      UnmisreadStays(next, valid, calls[1..]);
    }
  }

  /** A call in which everything works, except that the validation may misread and the renames may fail. */
  function Plain<Dir>(staged: Dir, misreads: bool, renames: Io): Faults<Dir> {
    Faults(_ => Removed, Done, if misreads then Misreads else Answers, Done, Staged(staged), Answers, Done, renames,
           Fails, Removed, Done)
  }

  function PlainRun<Dir>(staged: Dir, at: seq<bool>): (calls: seq<Faults<Dir>>)
    ensures Misread(calls, at)
  {
    seq(|at|, i requires 0 <= i < |at| => Plain(staged, at[i], Fails))
  }

  lemma {:induction false} FirstMisreadDisplaces<Dir(!new)>(c: Cache<Dir>, valid: Dir -> bool, at: seq<bool>, i: nat)
    requires Usable(c, valid) && i < |at| && at[i]
    ensures !StaysInPlace(c, valid, PlainRun(c.ready.value, at))
    decreases |at|
  {
    var calls := PlainRun(c.ready.value, at);
    var f := calls[0];
    var next := Download(c, valid, f).0;
    var states := States(c, valid, calls);
    SweepDiscardsBackups(c.backups, f.stale, 0);
    assert calls[1..] == PlainRun(c.ready.value, at[1..]);
    if at[0] {
      assert next.ready.None? && States(next, valid, calls[1..])[0] == next;
      assert states[1] == next && next in states;
    } else {
      assert next.ready == c.ready;
      FirstMisreadDisplaces(next, valid, at[1..], i - 1);
      var s :| s in States(next, valid, calls[1..]) && s.ready != next.ready;
      assert s in states;
    }
  }

  /** A valid ready cache is there for good, whatever else fails in whatever order, exactly when no call misreads it. */
  lemma ValidForGoodIff<Dir(!new)>(c: Cache<Dir>, valid: Dir -> bool, at: seq<bool>)
    requires Usable(c, valid)
    ensures (forall calls: seq<Faults<Dir>> :: Misread(calls, at) ==> StaysInPlace(c, valid, calls)) <==> true !in at
  {
    if true in at {
      var i :| 0 <= i < |at| && at[i];
      FirstMisreadDisplaces(c, valid, at, i);
      assert Misread(PlainRun(c.ready.value, at), at);
    } else {
      forall calls: seq<Faults<Dir>> | Misread(calls, at)
        ensures StaysInPlace(c, valid, calls)
      {
        UnmisreadStays(c, valid, calls);
      }
    }
  }

  // ----- which runs can lose the only cache -----

  /** The rename that brings in a staged cache does not happen and is not undone. */
  predicate RenameFails<Dir>(f: Faults<Dir>) {
    f.promote.Killed? || (f.promote.Fails? && !f.rollback.Done?)
  }

  ghost predicate RenamesFail<Dir>(calls: seq<Faults<Dir>>, at: seq<bool>) {
    |calls| == |at| && forall i :: 0 <= i < |calls| ==> (RenameFails(calls[i]) <==> at[i])
  }

  ghost predicate NeverLoses<Dir(!new)>(c: Cache<Dir>, valid: Dir -> bool, previous: Dir, calls: seq<Faults<Dir>>) {
    forall s :: s in States(c, valid, calls) ==> !Lost(s, valid, previous)
  }

  lemma {:induction false} NoFailingRenameLosesNothing<Dir(!new)>(c: Cache<Dir>, valid: Dir -> bool, previous: Dir,
                                                                  calls: seq<Faults<Dir>>)
    requires c.ready == Some(previous) || Usable(c, valid)
    requires forall i :: 0 <= i < |calls| ==> !RenameFails(calls[i])
    ensures NeverLoses(c, valid, previous, calls)
    decreases |calls|
  {
    if calls != [] {
      CallOutcomes(c, valid, calls[0]);
      NoFailingRenameLosesNothing(Download(c, valid, calls[0]).0, valid, previous, calls[1..]);
    }
  }

  /** A call that misreads the ready cache and stages another; its rename fails or works. */
  function Replacing<Dir>(staged: Dir, fails: bool): Faults<Dir> {
    Faults(_ => Removed, Done, Misreads, Done, Staged(staged), Answers, Done, if fails then Killed else Done,
           Fails, Removed, Done)
  }

  /** A call that sweeps and then finds the disk full. */
  function Idle<Dir>(staged: Dir): Faults<Dir> {
    Replacing(staged, false).(diskSpace := Fails)
  }

  function LosingRun<Dir>(staged: Dir, at: seq<bool>): (calls: seq<Faults<Dir>>)
    ensures RenamesFail(calls, at)
  {
    seq(|at|, i requires 0 <= i < |at| => if at[i] then Replacing(staged, true) else Idle(staged))
  }

  lemma ReplacingCall<Dir>(only: Dir, staged: Dir, fails: bool, valid: Dir -> bool)
    requires valid(staged)
    ensures Download(Cache(Some(only), []), valid, Replacing(staged, fails)).0
         == if fails then Cache(None, [only]) else Cache(Some(staged), [])
  {
    assert [] + [only] == [only];
  }

  /** Whatever a call of the run does after the displacement, it sweeps the back-up first. */
  lemma SweptAfterwards<Dir>(only: Dir, staged: Dir, fails: bool, valid: Dir -> bool)
    ensures var f := if fails then Replacing(staged, true) else Idle(staged);
      Download(Cache(None, [only]), valid, f).0 == Cache(None, [])
  {
    var f := if fails then Replacing(staged, true) else Idle(staged);
    SweepOfOne(only, f.stale);
  }

  lemma {:induction false} ReplacementIsDisplaced<Dir(!new)>(previous: Dir, other: Dir, valid: Dir -> bool,
                                                             at: seq<bool>)
    requires valid(other) && other != previous && true in at
    ensures !NeverLoses(Cache(Some(other), []), valid, previous, LosingRun(other, at))
    decreases |at|
  {
    var c, calls := Cache(Some(other), []), LosingRun(other, at);
    var next := Download(c, valid, calls[0]).0;
    assert calls[1..] == LosingRun(other, at[1..]);
    if at[0] {
      ReplacingCall(other, other, true, valid);
      assert States(next, valid, calls[1..])[0] == next;
      assert States(c, valid, calls)[1] == next && Lost(next, valid, previous);
    } else {
      assert next == c;
      ReplacementIsDisplaced(previous, other, valid, at[1..]);
      var s :| s in States(next, valid, calls[1..]) && Lost(s, valid, previous);
      assert s in States(c, valid, calls);
    }
  }

  lemma DisplacedIsSwept<Dir(!new)>(previous: Dir, other: Dir, valid: Dir -> bool, at: seq<bool>)
    requires valid(other) && |at| > 0
    ensures !NeverLoses(Cache(None, [previous]), valid, previous, LosingRun(other, at))
  {
    var c, calls := Cache(None, [previous]), LosingRun(other, at);
    var next := Download(c, valid, calls[0]).0;
    SweptAfterwards(previous, other, at[0], valid);
    assert States(next, valid, calls[1..])[0] == next;
    assert States(c, valid, calls)[1] == next && Lost(next, valid, previous);
  }

  /** Over all runs in which given calls fail to rename, whatever else happens, a single cache is never lost exactly
      when none does or the run is a single call. */
  lemma NeverLostIff<Dir(!new)>(previous: Dir, other: Dir, valid: Dir -> bool, at: seq<bool>)
    requires valid(other) && other != previous
    ensures (forall calls: seq<Faults<Dir>> :: RenamesFail(calls, at) ==>
               NeverLoses(Cache(Some(previous), []), valid, previous, calls)) <==> |at| <= 1 || true !in at
  {
    var start := Cache(Some(previous), []);
    if |at| > 1 && true in at {
      var calls := [Replacing(other, at[0])] + LosingRun(other, at[1..]);
      var next := Download(start, valid, calls[0]).0;
      assert calls[1..] == LosingRun(other, at[1..]);
      ReplacingCall(previous, other, at[0], valid);
      if at[0] {
        DisplacedIsSwept(previous, other, valid, at[1..]);
      } else {
        ReplacementIsDisplaced(previous, other, valid, at[1..]);
      }
      var s :| s in States(next, valid, calls[1..]) && Lost(s, valid, previous);
      assert s in States(start, valid, calls);
      assert RenamesFail(calls, at) && !NeverLoses(start, valid, previous, calls);
    } else {
      forall calls: seq<Faults<Dir>> | RenamesFail(calls, at)
        ensures NeverLoses(start, valid, previous, calls)
      {
        if true !in at {
          NoFailingRenameLosesNothing(start, valid, previous, calls);
        } else {
          NothingIsLostInOneCall(start, valid, calls[0]);
          assert States(start, valid, calls) == [start] + [Download(start, valid, calls[0]).0];
        }
      }
    }
  }

  /** A call in which nothing fails installs the staged cache and leaves no back-up behind. */
  lemma CleanCallInstalls<Dir>(c: Cache<Dir>, valid: Dir -> bool, f: Faults<Dir>)
    requires forall i: nat :: i < |c.backups| ==> f.stale(i).Removed?
    requires f.diskSpace.Done? && f.readyCheck.Answers? && f.preparingEvent.Done? && f.completedEvent.Done?
    requires f.staging.Staged? && f.stagedCheck.Answers? && valid(f.staging.dir)
    requires f.backup.Done? && f.promote.Done? && f.discard.Removed?
    ensures Download(c, valid, f)
         == (Cache(if Usable(c, valid) then c.ready else Some(f.staging.dir), []), Returned)
  {
    SweepDiscardsBackups(c.backups, f.stale, 0);
  }
}
