/**
 * What the settings snapshot serves, told from the steps: every load and every write has one outcome, and the
 * record served, the error shown, the counters and the times are those of the outcomes so far.
 */
module SettingsHistory {
  import opened Options
  import opened SettingsSnapshot

  // ---------- Usable settings ----------

  /** No limit is negative, and automatic tests run at least a minute apart; an unset interval will do. */
  predicate Usable(s: Settings) {
    && s.maxGatewayRequests >= 0 && s.maxRequestsPerAccount >= 0 && s.maxRequestsPerKey >= 0 && s.requestsPerMinute >= 0
    && s.tokensPerMinute >= 0 && s.autoTestInterval >= 0 && s.retentionDays >= 0
    && (s.autoTest ==> s.autoTestInterval == 0 || s.autoTestInterval >= 60)
  }

  /** The settings with the interval of five minutes where none is set. */
  function Completed(s: Settings): Settings {
    if s.autoTestInterval == 0 then s.(autoTestInterval := 300) else s
  }

  lemma NormalizeIsCompleted(s: Settings)
    ensures Normalize(s) == if Usable(s) then Some(Completed(s)) else None
  {
  }

  /** A record that may be served: usable settings with a version. */
  predicate Good(record: Record) {
    Usable(record.settings) && record.updatedAt != 0
  }

  // ---------- The load a refresh applies ----------

  /** The load with this id that is still to be applied or given up after n steps. */
  ghost function LoadIn(steps: seq<Step>, id: nat, n: nat): (r: Option<nat>)
    requires n <= |steps|
    ensures r.Some? ==> r.value < n && steps[r.value].Load? && steps[r.value].id == id
  {
    if n == 0 then None
    else
      var before, step := LoadIn(steps, id, n - 1), steps[n - 1];
      if step.Publish? || step.id != id then before
      else if step.Load? then if before.Some? then before else Some(n - 1)
      else None
  }

  lemma {:induction false} PendingIsLoad(defaults: Settings, steps: seq<Step>, id: nat, n: nat)
    requires n <= |steps|
    ensures var pending, load := After(defaults, steps[..n]).pending, LoadIn(steps, id, n);
            && (id in pending <==> load.Some?)
            && (load.Some? ==> pending[id] == Pending(steps[load.value].initial, steps[load.value].loaded))
  {
    hide Applied, Published;
    if n > 0 {
      PendingIsLoad(defaults, steps, id, n - 1);
      Stepping(defaults, steps, n - 1);
    }
  }

  // ---------- Outcomes ----------

  datatype Outcome =
    | Ignored
    | Taken(record: Record, refresh: bool)
    | Disputed
    | DefaultsTaken
    | Failed(code: ErrorCode)

  /** What step n leads to, given what was served before it. */
  ghost function OutcomeOf(steps: seq<Step>, n: nat): Outcome
    requires n < |steps|
    decreases n, 1
  {
    var served := Served(steps, n);
    match steps[n]
    case Load(_, _, _) => Ignored
    case GiveUp(_) => Ignored
    case Publish(record, _) =>
      WriteOutcome(record, served)
    case Apply(id, _) =>
      var load := LoadIn(steps, id, n);
      if load.None? then Ignored else LoadOutcome(steps[load.value].loaded, steps[load.value].initial, served)
  }

  /** What publishing a write leads to. */
  ghost function WriteOutcome(record: Record, served: Option<Record>): Outcome {
    if !Good(record) || (served.Some? && record.updatedAt < served.value.updatedAt) then Ignored
    else if served.Some? && record.updatedAt == served.value.updatedAt && Completed(record.settings) != served.value.settings then Disputed
    else Taken(record.(settings := Completed(record.settings)), false)
  }

  /** What applying a load leads to. */
  ghost function LoadOutcome(loaded: Loaded, initial: bool, served: Option<Record>): Outcome {
    match loaded
    case NotFound => if served.Some? then Failed(Missing) else DefaultsTaken
    case FoundInvalid => Failed(Invalid)
    case Unreachable => Failed(LoadFailed)
    case Found(record) =>
      if !Good(record) then Failed(Invalid)
      else if !initial && served.Some? && record.updatedAt < served.value.updatedAt then Failed(VersionConflict)
      else Taken(record.(settings := Completed(record.settings)), true)
  }

  /** The last record taken. */
  ghost function Served(steps: seq<Step>, n: nat): Option<Record>
    requires n <= |steps|
    decreases n, 0
  {
    if n == 0 then None
    else
      var outcome := OutcomeOf(steps, n - 1);
      if outcome.Taken? then Some(outcome.record) else Served(steps, n - 1)
  }

  /** The error of the last step that was not ignored. */
  ghost function ErrorShown(steps: seq<Step>, n: nat): ErrorCode
    requires n <= |steps|
  {
    if n == 0 then NoError
    else
      match OutcomeOf(steps, n - 1)
      case Ignored => ErrorShown(steps, n - 1)
      case Taken(_, _) => NoError
      case DefaultsTaken => NoError
      case Disputed => VersionConflict
      case Failed(code) => code
  }

  predicate Succeeds(o: Outcome) {
    (o.Taken? && o.refresh) || o.DefaultsTaken?
  }

  /** How many refreshes succeeded. */
  ghost function SuccessCount(steps: seq<Step>, n: nat): nat
    requires n <= |steps|
  {
    if n == 0 then 0 else SuccessCount(steps, n - 1) + if Succeeds(OutcomeOf(steps, n - 1)) then 1 else 0
  }

  /** How many refreshes failed. */
  ghost function FailureCount(steps: seq<Step>, n: nat): nat
    requires n <= |steps|
  {
    if n == 0 then 0 else FailureCount(steps, n - 1) + if OutcomeOf(steps, n - 1).Failed? then 1 else 0
  }

  /** How many refreshes failed since settings were last taken. */
  ghost function FailuresInARow(steps: seq<Step>, n: nat): nat
    requires n <= |steps|
  {
    if n == 0 || OutcomeOf(steps, n - 1).Taken? || OutcomeOf(steps, n - 1).DefaultsTaken? then 0
    else FailuresInARow(steps, n - 1) + if OutcomeOf(steps, n - 1).Failed? then 1 else 0
  }

  // ---------- The snapshot shows exactly this ----------

  ghost predicate Shows(steps: seq<Step>, n: nat, c: Snapshot)
    requires n <= |steps|
  {
    var served := Served(steps, n);
    && (if served.None? then c.version.None? else c.version == Some(served.value.updatedAt) && c.settings == served.value.settings)
    && c.lastError == ErrorShown(steps, n)
    && c.successes == SuccessCount(steps, n) && c.failures == FailureCount(steps, n)
    && c.consecutiveFailures == FailuresInARow(steps, n)
  }

  lemma OneMore(steps: seq<Step>, n: nat)
    requires n < |steps|
    ensures var o := OutcomeOf(steps, n);
            && Served(steps, n + 1) == (if o.Taken? then Some(o.record) else Served(steps, n))
            && ErrorShown(steps, n + 1) == (if o.Ignored? then ErrorShown(steps, n) else if o.Failed? then o.code else if o.Disputed? then VersionConflict else NoError)
            && SuccessCount(steps, n + 1) == SuccessCount(steps, n) + (if Succeeds(o) then 1 else 0)
            && FailureCount(steps, n + 1) == FailureCount(steps, n) + (if o.Failed? then 1 else 0)
            && FailuresInARow(steps, n + 1) ==
               (if o.Taken? || o.DefaultsTaken? then 0 else FailuresInARow(steps, n) + if o.Failed? then 1 else 0)
  {
    hide OutcomeOf;
  }

  lemma PublishShows(steps: seq<Step>, n: nat, c: Snapshot)
    requires n < |steps| && steps[n].Publish? && Shows(steps, n, c)
    ensures Shows(steps, n + 1, Published(c, steps[n].record, steps[n].now))
  {
    assert OutcomeOf(steps, n) == WriteOutcome(steps[n].record, Served(steps, n));
    hide OutcomeOf, Served, ErrorShown, SuccessCount, FailureCount, FailuresInARow, Usable, Completed, Normalize;
    NormalizeIsCompleted(steps[n].record.settings);
    OneMore(steps, n);
  }

  lemma ApplyShows(defaults: Settings, steps: seq<Step>, n: nat, c: Snapshot, load: nat)
    requires n < |steps| && steps[n].Apply? && Shows(steps, n, c) && LoadIn(steps, steps[n].id, n) == Some(load)
    requires c.persistedLoaded <==> c.version.Some?
    ensures Shows(steps, n + 1, Applied(c, defaults, steps[load].loaded, steps[load].initial, steps[n].now))
  {
    assert OutcomeOf(steps, n) == LoadOutcome(steps[load].loaded, steps[load].initial, Served(steps, n));
    hide OutcomeOf, Served, ErrorShown, SuccessCount, FailureCount, FailuresInARow, Usable, Completed, Normalize, LoadIn;
    if steps[load].loaded.Found? {
      NormalizeIsCompleted(steps[load].loaded.record.settings);
    }
    OneMore(steps, n);
  }

  lemma IgnoredShows(steps: seq<Step>, n: nat, c: Snapshot)
    requires n < |steps| && Shows(steps, n, c) && OutcomeOf(steps, n) == Ignored
    ensures Shows(steps, n + 1, c)
  {
    hide OutcomeOf, Served, ErrorShown, SuccessCount, FailureCount, FailuresInARow;
    OneMore(steps, n);
  }

  /** In every interleaving the snapshot shows the record last taken, the last error, and the counts. */
  lemma {:induction false} SnapshotShowsHistory(defaults: Settings, steps: seq<Step>, n: nat)
    requires Normalized(defaults) && n <= |steps|
    ensures Shows(steps, n, After(defaults, steps[..n]).snapshot)
  {
    hide Applied, Published, Shows, LoadIn, After, Coherent;
    if n == 0 {
      NothingShown(defaults, steps);
    } else {
      SnapshotShowsHistory(defaults, steps, n - 1);
      AlwaysCoherent(defaults, steps[..n - 1]);
      Stepping(defaults, steps, n - 1);
      var c, step := After(defaults, steps[..n - 1]).snapshot, steps[n - 1];
      match step
      case Load(_, _, _) =>
        IgnoredShows(steps, n - 1, c);
      case GiveUp(_) =>
        IgnoredShows(steps, n - 1, c);
      case Publish(_, _) =>
        PublishShows(steps, n - 1, c);
      case Apply(id, _) =>
        PendingIsLoad(defaults, steps, id, n - 1);
        if LoadIn(steps, id, n - 1).None? {
          IgnoredShows(steps, n - 1, c);
        } else {
          LoadedWhenVersioned(c, defaults);
          ApplyShows(defaults, steps, n - 1, c, LoadIn(steps, id, n - 1).value);
        }
    }
  }

  lemma LoadedWhenVersioned(c: Snapshot, defaults: Settings)
    requires Coherent(c, defaults)
    ensures c.persistedLoaded <==> c.version.Some?
  {
  }

  lemma NothingShown(defaults: Settings, steps: seq<Step>)
    ensures After(defaults, steps[..0]).snapshot == EMPTY && Shows(steps, 0, EMPTY)
  {
    assert steps[..0] == [];
  }

  // ---------- What is served ----------

  /** Step i took a record, and none has been taken since. */
  ghost predicate LastTaken(steps: seq<Step>, i: nat, n: nat) {
    i < n <= |steps| && OutcomeOf(steps, i).Taken? && forall j :: i < j < n ==> !OutcomeOf(steps, j).Taken?
  }

  /** The record a step offers: the one it publishes, or the one of the load it applies. */
  ghost function Offered(steps: seq<Step>, i: nat): Option<Record>
    requires i < |steps|
  {
    match steps[i]
    case Publish(record, _) => Some(record)
    case Apply(id, _) =>
      var load := LoadIn(steps, id, i);
      if load.Some? && steps[load.value].loaded.Found? then Some(steps[load.value].loaded.record) else None
    case _ => None
  }

  lemma {:induction false} ServedIsLastTaken(steps: seq<Step>, n: nat)
    requires n <= |steps| && Served(steps, n).Some?
    ensures exists i: nat :: LastTaken(steps, i, n) && Served(steps, n) == Some(OutcomeOf(steps, i).record)
  {
    hide OutcomeOf;
    if OutcomeOf(steps, n - 1).Taken? {
      assert LastTaken(steps, n - 1, n);
    } else {
      ServedIsLastTaken(steps, n - 1);
      var i: nat :| LastTaken(steps, i, n - 1) && Served(steps, n - 1) == Some(OutcomeOf(steps, i).record);
      assert LastTaken(steps, i, n);
    }
  }

  lemma TakenIsOffered(steps: seq<Step>, i: nat)
    requires i < |steps| && OutcomeOf(steps, i).Taken?
    ensures Offered(steps, i).Some?
    ensures var record := Offered(steps, i).value;
            Good(record) && OutcomeOf(steps, i).record == record.(settings := Completed(record.settings))
  {
    hide Usable, Completed;
  }

  /** Whenever a version is served, it and its settings are those of the record last offered and taken. */
  lemma ServesLastTaken(defaults: Settings, steps: seq<Step>, n: nat)
    requires Normalized(defaults) && n <= |steps| && After(defaults, steps[..n]).snapshot.version.Some?
    ensures exists i: nat :: LastTaken(steps, i, n) && Offered(steps, i).Some? &&
                             var c, record := After(defaults, steps[..n]).snapshot, Offered(steps, i).value;
                             c.version == Some(record.updatedAt) && c.settings == Completed(record.settings) && Good(record)
  {
    hide After, OutcomeOf, Offered, Good, Completed;
    SnapshotShowsHistory(defaults, steps, n);
    ServedIsLastTaken(steps, n);
    var i: nat :| LastTaken(steps, i, n) && Served(steps, n) == Some(OutcomeOf(steps, i).record);
    TakenIsOffered(steps, i);
  }

  /** A usable write that is newer than everything served is served from its publication on. */
  lemma NewerWriteIsServed(defaults: Settings, steps: seq<Step>, i: nat)
    requires Normalized(defaults) && i < |steps| && steps[i].Publish? && Good(steps[i].record)
    requires var version := After(defaults, steps[..i]).snapshot.version;
             version.None? || version.value < steps[i].record.updatedAt
    ensures var c := After(defaults, steps[..i + 1]).snapshot;
            && c.version == Some(steps[i].record.updatedAt) && c.settings == Completed(steps[i].record.settings)
            && c.valid && c.lastError == NoError && !c.stale && c.consecutiveFailures == 0
  {
    hide After, Good, Completed, Usable;
    SnapshotShowsHistory(defaults, steps, i);
    SnapshotShowsHistory(defaults, steps, i + 1);
    AlwaysCoherent(defaults, steps[..i + 1]);
    assert OutcomeOf(steps, i) == Taken(steps[i].record.(settings := Completed(steps[i].record.settings)), false);
  }

  /** A write with the version served is taken if its settings are those served, and otherwise only disputed. */
  lemma SameVersionWrite(defaults: Settings, steps: seq<Step>, i: nat)
    requires Normalized(defaults) && i < |steps| && steps[i].Publish? && Good(steps[i].record)
    requires After(defaults, steps[..i]).snapshot.version == Some(steps[i].record.updatedAt)
    ensures var b, c := After(defaults, steps[..i]).snapshot, After(defaults, steps[..i + 1]).snapshot;
            && c.version == b.version && c.settings == b.settings
            && c.lastError == if Completed(steps[i].record.settings) == b.settings then NoError else VersionConflict
  {
    hide After, Good, Completed, Usable;
    SnapshotShowsHistory(defaults, steps, i);
    SnapshotShowsHistory(defaults, steps, i + 1);
  }

  /** An older or unusable write leaves everything as it was. */
  lemma OtherWritesIgnored(defaults: Settings, steps: seq<Step>, i: nat)
    requires i < |steps| && steps[i].Publish?
    requires var version := After(defaults, steps[..i]).snapshot.version;
             !Good(steps[i].record) || (version.Some? && steps[i].record.updatedAt < version.value)
    ensures After(defaults, steps[..i + 1]) == After(defaults, steps[..i])
  {
    Stepping(defaults, steps, i);
    NormalizeIsCompleted(steps[i].record.settings);
    hide After, Usable, Completed, Normalize;
  }

  /** A load that is applied is answered: taken over, or counted as a failure with its reason. */
  lemma LoadIsAnswered(defaults: Settings, steps: seq<Step>, i: nat, load: nat)
    requires Normalized(defaults) && i < |steps| && steps[i].Apply? && LoadIn(steps, steps[i].id, i) == Some(load)
    ensures var b, c := After(defaults, steps[..i]).snapshot, After(defaults, steps[..i + 1]).snapshot;
            match steps[load].loaded
            case NotFound => c.settings == (if b.valid then b.settings else defaults) && c.valid && c.lastError == (if b.version.Some? then Missing else NoError)
            case FoundInvalid => c.settings == b.settings && c.version == b.version && c.lastError == Invalid
            case Unreachable => c.settings == b.settings && c.version == b.version && c.lastError == LoadFailed
            case Found(record) =>
              if !Good(record) then c.settings == b.settings && c.version == b.version && c.lastError == Invalid
              else if !steps[load].initial && b.version.Some? && record.updatedAt < b.version.value then
                c.settings == b.settings && c.version == b.version && c.lastError == VersionConflict
              else c.settings == Completed(record.settings) && c.version == Some(record.updatedAt) && c.lastError == NoError && c.valid
  {
    Stepping(defaults, steps, i);
    PendingIsLoad(defaults, steps, steps[i].id, i);
    AlwaysCoherent(defaults, steps[..i]);
    if steps[load].loaded.Found? {
      NormalizeIsCompleted(steps[load].loaded.record.settings);
    }
    hide After, Usable, Completed, Normalize, LoadIn, Normalized;
  }

  // ---------- Times and sources ----------

  function TimeOf(step: Step): int {
    if step.Apply? || step.Publish? then step.now else 0
  }

  /** Every time and the source change with the outcomes they stand for, and with no others. */
  ghost predicate Stamped(b: Snapshot, c: Snapshot, o: Outcome, now: int) {
    && c.attemptAt == (if Succeeds(o) || o.Failed? then Some(now) else b.attemptAt)
    && c.succeededAt == (if Succeeds(o) then Some(now) else b.succeededAt)
    && c.failedAt == (if o.Failed? then Some(now) else b.failedAt)
    && c.loadedAt == (if o.Taken? || (o.DefaultsTaken? && !b.valid) then Some(now) else b.loadedAt)
    && c.source == if o.Taken? then Persisted else if o.DefaultsTaken? then StartupDefault
                   else if (o.Failed? || o.Disputed?) && b.valid then LastKnownGood else b.source
  }

  lemma OutcomesAreStamped(defaults: Settings, steps: seq<Step>, i: nat)
    requires Normalized(defaults) && i < |steps|
    ensures Stamped(After(defaults, steps[..i]).snapshot, After(defaults, steps[..i + 1]).snapshot, OutcomeOf(steps, i), TimeOf(steps[i]))
  {
    var b, step := After(defaults, steps[..i]).snapshot, steps[i];
    SnapshotShowsHistory(defaults, steps, i);
    AlwaysCoherent(defaults, steps[..i]);
    LoadedWhenVersioned(b, defaults);
    Stepping(defaults, steps, i);
    if step.Apply? {
      PendingIsLoad(defaults, steps, step.id, i);
      if LoadIn(steps, step.id, i).Some? {
        var load := LoadIn(steps, step.id, i).value;
        assert OutcomeOf(steps, i) == LoadOutcome(steps[load].loaded, steps[load].initial, Served(steps, i));
        LoadStamped(b, defaults, steps[load].loaded, steps[load].initial, Served(steps, i), step.now);
      }
    } else if step.Publish? {
      assert OutcomeOf(steps, i) == WriteOutcome(step.record, Served(steps, i));
      WriteStamped(b, step.record, Served(steps, i), step.now);
    }
    hide *;
  }

  lemma LoadStamped(b: Snapshot, defaults: Settings, loaded: Loaded, initial: bool, served: Option<Record>, now: int)
    requires b.persistedLoaded <==> b.version.Some?
    requires if served.None? then b.version.None? else b.version == Some(served.value.updatedAt) && b.settings == served.value.settings
    ensures Stamped(b, Applied(b, defaults, loaded, initial, now), LoadOutcome(loaded, initial, served), now)
  {
    if loaded.Found? {
      NormalizeIsCompleted(loaded.record.settings);
    }
    hide Usable, Completed, Normalize;
  }

  lemma WriteStamped(b: Snapshot, record: Record, served: Option<Record>, now: int)
    requires if served.None? then b.version.None? else b.version == Some(served.value.updatedAt) && b.settings == served.value.settings
    ensures Stamped(b, Published(b, record, now), WriteOutcome(record, served), now)
  {
    NormalizeIsCompleted(record.settings);
    hide Usable, Completed, Normalize;
  }
}
