/**
 * The gateway settings snapshot: refreshes load first and apply later, and administrators' writes are published
 * in between.
 */
module SettingsSnapshot {
  import opened Options

  const ZERO_TIME := 0
  const DEFAULT_AUTO_TEST_INTERVAL := 300
  const MIN_AUTO_TEST_INTERVAL := 60

  datatype Settings = Settings(
    maxGatewayRequests: int, maxRequestsPerAccount: int, maxRequestsPerKey: int, requestsPerMinute: int,
    tokensPerMinute: int, autoTest: bool, autoTestInterval: int, retentionDays: int)

  datatype Record = Record(settings: Settings, updatedAt: int)

  datatype Source = NoSource | Persisted | StartupDefault | LastKnownGood

  datatype ErrorCode = NoError | LoadFailed | Invalid | Missing | VersionConflict

  /** The published state; before the first publication it is empty. */
  datatype Snapshot = Snapshot(
    settings: Settings, version: Option<int>, loadedAt: Option<int>,
    attemptAt: Option<int>, succeededAt: Option<int>, failedAt: Option<int>,
    lastError: ErrorCode, consecutiveFailures: nat, successes: nat, failures: nat,
    source: Source, valid: bool, stale: bool, persistedLoaded: bool)

  const NO_SETTINGS := Settings(0, 0, 0, 0, 0, false, 0, 0)
  const EMPTY := Snapshot(NO_SETTINGS, None, None, None, None, None, NoError, 0, 0, 0, NoSource, false, false, false)

  function Normalize(s: Settings): (r: Option<Settings>)
    ensures r.Some? ==> Normalized(r.value)
    ensures r.Some? ==> r.value == s || (s.autoTestInterval == 0 && r.value == s.(autoTestInterval := DEFAULT_AUTO_TEST_INTERVAL))
    ensures Normalized(s) <==> r == Some(s)
  {
    if s.maxGatewayRequests < 0 || s.maxRequestsPerAccount < 0 || s.maxRequestsPerKey < 0 || s.requestsPerMinute < 0 ||
       s.tokensPerMinute < 0 || s.autoTestInterval < 0 || s.retentionDays < 0 then None
    else
      var t := if s.autoTestInterval == 0 then s.(autoTestInterval := DEFAULT_AUTO_TEST_INTERVAL) else s;
      if t.autoTest && t.autoTestInterval < MIN_AUTO_TEST_INTERVAL then None else Some(t)
  }

  /** What the gateway may rely on. */
  predicate Normalized(s: Settings) {
    && s.maxGatewayRequests >= 0 && s.maxRequestsPerAccount >= 0 && s.maxRequestsPerKey >= 0
    && s.requestsPerMinute >= 0 && s.tokensPerMinute >= 0 && s.retentionDays >= 0
    && s.autoTestInterval > 0 && (s.autoTest ==> s.autoTestInterval >= MIN_AUTO_TEST_INTERVAL)
  }

  // ---------- Publications, on values ----------

  /** A load that came back: a record, none stored, a stored one that is invalid, or a failure. */
  datatype Loaded = Found(record: Record) | NotFound | FoundInvalid | Unreachable

  function Committed(c: Snapshot, record: Record, now: int): Snapshot {
    c.(settings := record.settings, version := Some(record.updatedAt), loadedAt := Some(now), lastError := NoError,
       consecutiveFailures := 0, source := Persisted, valid := true, stale := false, persistedLoaded := true)
  }

  function Refreshed(c: Snapshot, record: Record, now: int): Snapshot {
    Committed(c, record, now).(attemptAt := Some(now), succeededAt := Some(now), successes := c.successes + 1)
  }

  function Defaulted(c: Snapshot, defaults: Settings, now: int): Snapshot {
    c.(settings := if c.valid then c.settings else defaults, loadedAt := if c.valid then c.loadedAt else Some(now),
       attemptAt := Some(now), succeededAt := Some(now), lastError := NoError, consecutiveFailures := 0,
       successes := c.successes + 1, source := StartupDefault, valid := true, stale := false)
  }

  function Conflicting(c: Snapshot): Snapshot {
    c.(lastError := VersionConflict, stale := c.valid, source := if c.valid then LastKnownGood else c.source)
  }

  function Failing(c: Snapshot, code: ErrorCode, now: int): Snapshot {
    Conflicting(c).(lastError := code, attemptAt := Some(now), failedAt := Some(now),
                    consecutiveFailures := c.consecutiveFailures + 1, failures := c.failures + 1)
  }

  predicate Older(updatedAt: int, version: Option<int>) {
    version.Some? && updatedAt < version.value
  }

  /** The snapshot after the result of a load is applied. */
  function Applied(c: Snapshot, defaults: Settings, loaded: Loaded, initial: bool, now: int): Snapshot {
    match loaded
    case NotFound => if c.persistedLoaded then Failing(c, Missing, now) else Defaulted(c, defaults, now)
    case FoundInvalid => Failing(c, Invalid, now)
    case Unreachable => Failing(c, LoadFailed, now)
    case Found(record) =>
      var settings := Normalize(record.settings);
      if settings.None? || record.updatedAt == ZERO_TIME then Failing(c, Invalid, now)
      else if !initial && Older(record.updatedAt, c.version) then Failing(c, VersionConflict, now)
      else Refreshed(c, record.(settings := settings.value), now)
  }

  /** Other settings under the version that is served. */
  predicate Contradicts(record: Record, c: Snapshot) {
    && record.updatedAt != ZERO_TIME && c.version == Some(record.updatedAt)
    && Normalize(record.settings).Some? && Normalize(record.settings) != Some(c.settings)
  }

  /** The snapshot after an administrator's write is published. */
  function Published(c: Snapshot, record: Record, now: int): Snapshot {
    var settings := Normalize(record.settings);
    if settings.None? || record.updatedAt == ZERO_TIME || Older(record.updatedAt, c.version) then c
    else if Contradicts(record, c) then Conflicting(c)
    else Committed(c, record.(settings := settings.value), now)
  }

  /** What every published snapshot satisfies. */
  predicate Coherent(c: Snapshot, defaults: Settings) {
    && (c.valid ==> Normalized(c.settings))
    && (c.persistedLoaded <==> c.version.Some?) && (c.persistedLoaded ==> c.valid)
    && (c.valid && !c.persistedLoaded ==> c.settings == defaults)
    && (c.stale <==> c.valid && c.lastError != NoError)
    && (c.valid ==> (c.stale <==> c.source == LastKnownGood))
    && (c.version.Some? ==> c.version.value != ZERO_TIME)
    && (c.valid <==> c.source != NoSource)
  }

  // ---------- The runtime ----------

  datatype PublishError = PublishOk | PublishInvalid

  datatype RefreshError = RefreshOk | RefreshUnavailable | RefreshInvalid

  class GatewaySettingsRuntime {
    const defaults: Settings
    var snapshot: Snapshot
    var refreshRequested: bool

    /** The caller has normalized the defaults. */
    constructor (defaults: Settings)
      requires Normalized(defaults)
      ensures this.defaults == defaults && snapshot == EMPTY && Valid()
    {
      this.defaults := defaults;
      snapshot, refreshRequested := EMPTY, false;
    }

    predicate Valid()
      reads this
    {
      Normalized(defaults) && Coherent(snapshot, defaults)
    }

    /** Settings are served exactly while the snapshot is valid. */
    method GetGatewaySettings() returns (r: Option<Settings>)
      requires Valid()
      ensures r.Some? <==> snapshot.valid
      ensures r.Some? ==> Normalized(r.value) && r.value == snapshot.settings
    {
      if !snapshot.valid {
        return None;
      }
      return Some(snapshot.settings);
    }

    method PublishFailure(code: ErrorCode, now: int)
      modifies this`snapshot
      ensures snapshot == Failing(old(snapshot), code, now)
    {
      var next := snapshot;
      next := next.(attemptAt := Some(now), failedAt := Some(now), lastError := code);
      next := next.(consecutiveFailures := next.consecutiveFailures + 1, failures := next.failures + 1);
      next := next.(stale := next.valid);
      if next.valid {
        next := next.(source := LastKnownGood);
      }
      snapshot := next;
    }

    /** The second half of a refresh, after its load; the load itself happened at any earlier time. */
    method Apply(loaded: Loaded, initial: bool, now: int) returns (e: RefreshError)
      requires Valid()
      modifies this`snapshot
      ensures Valid() && snapshot == Applied(old(snapshot), defaults, loaded, initial, now)
      ensures e.RefreshOk? <==> snapshot.successes == old(snapshot.successes) + 1
      ensures e.RefreshInvalid? <==> snapshot.lastError == Invalid || snapshot.lastError == VersionConflict
    {
      match loaded {
        case NotFound =>
          if snapshot.persistedLoaded {
            PublishFailure(Missing, now);
            return RefreshUnavailable;
          }
          var next := snapshot;
          if !next.valid {
            next := next.(settings := defaults, loadedAt := Some(now));
          }
          next := next.(attemptAt := Some(now), succeededAt := Some(now), lastError := NoError, consecutiveFailures := 0);
          next := next.(successes := next.successes + 1, source := StartupDefault, valid := true, stale := false);
          snapshot := next;
          return RefreshOk;
        case FoundInvalid =>
          PublishFailure(Invalid, now);
          return RefreshInvalid;
        case Unreachable =>
          PublishFailure(LoadFailed, now);
          return RefreshUnavailable;
        case Found(record) =>
          var settings := Normalize(record.settings);
          if settings.None? || record.updatedAt == ZERO_TIME {
            PublishFailure(Invalid, now);
            return RefreshInvalid;
          }
          if !initial && Older(record.updatedAt, snapshot.version) {
            PublishFailure(VersionConflict, now);
            return RefreshInvalid;
          }
          var next := snapshot;
          next := next.(settings := settings.value, version := Some(record.updatedAt), loadedAt := Some(now));
          next := next.(attemptAt := Some(now), succeededAt := Some(now), lastError := NoError, consecutiveFailures := 0);
          next := next.(successes := next.successes + 1, source := Persisted, valid := true, stale := false);
          next := next.(persistedLoaded := true);
          snapshot := next;
          return RefreshOk;
      }
    }

    /** An administrator's write: ignored when older, refused when it contradicts the version served. */
    method PublishPersisted(record: Record, now: int) returns (e: PublishError)
      requires Valid()
      modifies this
      ensures Valid() && snapshot == Published(old(snapshot), record, now)
      ensures refreshRequested == (old(refreshRequested) || Contradicts(record, old(snapshot)))
      ensures e.PublishInvalid? <==>
                Normalize(record.settings).None? || record.updatedAt == ZERO_TIME || Contradicts(record, old(snapshot))
    {
      var settings := Normalize(record.settings);
      if settings.None? || record.updatedAt == ZERO_TIME {
        return PublishInvalid;
      }
      if Older(record.updatedAt, snapshot.version) {
        return PublishOk;
      }
      if snapshot.version == Some(record.updatedAt) && settings.value != snapshot.settings {
        var next := snapshot.(lastError := VersionConflict, stale := snapshot.valid);
        if next.valid {
          next := next.(source := LastKnownGood);
        }
        snapshot := next;
        refreshRequested := true;
        return PublishInvalid;
      }
      var next := snapshot;
      next := next.(settings := settings.value, version := Some(record.updatedAt), loadedAt := Some(now));
      next := next.(lastError := NoError, consecutiveFailures := 0, source := Persisted);
      next := next.(valid := true, stale := false, persistedLoaded := true);
      snapshot := next;
      return PublishOk;
    }
  }

  // ---------- Every interleaving ----------

  /** A refresh begins with its load, which may complete at any time, and is applied or given up later. */
  datatype Step =
    | Load(id: nat, initial: bool, loaded: Loaded)
    | Apply(id: nat, now: int)
    | GiveUp(id: nat)
    | Publish(record: Record, now: int)

  datatype Pending = Pending(initial: bool, loaded: Loaded)

  datatype System = System(snapshot: Snapshot, pending: map<nat, Pending>)

  function Next(s: System, defaults: Settings, step: Step): System {
    match step
    case Load(id, initial, loaded) => if id in s.pending then s else s.(pending := s.pending[id := Pending(initial, loaded)])
    case Apply(id, now) =>
      if id in s.pending then
        System(Applied(s.snapshot, defaults, s.pending[id].loaded, s.pending[id].initial, now), s.pending - {id})
      else s
    case GiveUp(id) => s.(pending := s.pending - {id})
    case Publish(record, now) => s.(snapshot := Published(s.snapshot, record, now))
  }

  function After(defaults: Settings, steps: seq<Step>): System {
    if steps == [] then System(EMPTY, map[])
    else Next(After(defaults, steps[..|steps| - 1]), defaults, steps[|steps| - 1])
  }

  /** A later version replaced by none or an earlier one. */
  predicate Regresses(before: Snapshot, after: Snapshot) {
    before.version.Some? && (after.version.None? || after.version.value < before.version.value)
  }

  /** Applying an initial load of a usable record that is older than the version served. */
  predicate AppliesOldInitial(s: System, step: Step) {
    && step.Apply? && step.id in s.pending && s.pending[step.id].initial && s.pending[step.id].loaded.Found?
    && var record := s.pending[step.id].loaded.record;
       Normalize(record.settings).Some? && record.updatedAt != ZERO_TIME && Older(record.updatedAt, s.snapshot.version)
  }

  /** Other settings under the same version. */
  predicate Swaps(before: Snapshot, after: Snapshot) {
    before.version.Some? && after.version == before.version && after.settings != before.settings
  }

  /** Applying a load of a usable record with the version served and other settings. */
  predicate AppliesOtherSettings(s: System, step: Step) {
    && step.Apply? && step.id in s.pending && s.pending[step.id].loaded.Found?
    && var record := s.pending[step.id].loaded.record;
       record.updatedAt != ZERO_TIME && s.snapshot.version == Some(record.updatedAt) &&
       Normalize(record.settings).Some? && Normalize(record.settings) != Some(s.snapshot.settings)
  }

  lemma StepFacts(s: System, defaults: Settings, step: Step)
    requires Normalized(defaults) && Coherent(s.snapshot, defaults)
    ensures var t := Next(s, defaults, step);
            && Coherent(t.snapshot, defaults)
            && (s.snapshot.valid ==> t.snapshot.valid)
            && (Regresses(s.snapshot, t.snapshot) <==> AppliesOldInitial(s, step))
            && (Swaps(s.snapshot, t.snapshot) <==> AppliesOtherSettings(s, step))
  {
    hide Normalized;
  }

  /** In every interleaving the snapshot is coherent. */
  lemma {:induction false} AlwaysCoherent(defaults: Settings, steps: seq<Step>)
    requires Normalized(defaults)
    ensures Coherent(After(defaults, steps).snapshot, defaults)
  {
    hide Coherent, Next;
    if steps == [] {
      EmptyIsCoherent(defaults);
    } else {
      AlwaysCoherent(defaults, steps[..|steps| - 1]);
      StepFacts(After(defaults, steps[..|steps| - 1]), defaults, steps[|steps| - 1]);
    }
  }

  lemma EmptyIsCoherent(defaults: Settings)
    ensures Coherent(EMPTY, defaults)
  {
  }

  lemma Stepping(defaults: Settings, steps: seq<Step>, i: nat)
    requires i < |steps|
    ensures After(defaults, steps[..i + 1]) == Next(After(defaults, steps[..i]), defaults, steps[i])
  {
    assert steps[..i + 1][..i] == steps[..i];
  }

  /** Once valid, always valid. */
  lemma {:induction false} StaysValid(defaults: Settings, steps: seq<Step>, i: nat, j: nat)
    requires Normalized(defaults) && i <= j <= |steps| && After(defaults, steps[..i]).snapshot.valid
    ensures After(defaults, steps[..j]).snapshot.valid
    decreases j
  {
    hide Next, Coherent, After;
    if i < j {
      StaysValid(defaults, steps, i, j - 1);
      AlwaysCoherent(defaults, steps[..j - 1]);
      Stepping(defaults, steps, j - 1);
      StepFacts(After(defaults, steps[..j - 1]), defaults, steps[j - 1]);
    }
  }

  /** A version, once served, is never replaced by an older one, unless an initial load is applied after it. */
  lemma {:induction false} VersionNeverDecreases(defaults: Settings, steps: seq<Step>, i: nat, j: nat)
    requires Normalized(defaults) && i <= j <= |steps| && After(defaults, steps[..i]).snapshot.version.Some?
    requires forall k :: i <= k < j ==> !AppliesOldInitial(After(defaults, steps[..k]), steps[k])
    ensures var before, after := After(defaults, steps[..i]).snapshot.version, After(defaults, steps[..j]).snapshot.version;
            after.Some? && before.value <= after.value
    decreases j
  {
    hide Next, Coherent, After, AppliesOldInitial;
    if i < j {
      VersionNeverDecreases(defaults, steps, i, j - 1);
      AlwaysCoherent(defaults, steps[..j - 1]);
      Stepping(defaults, steps, j - 1);
      StepFacts(After(defaults, steps[..j - 1]), defaults, steps[j - 1]);
    }
  }

  /** One step makes the served version older exactly when it applies an initial load of an older record. */
  lemma VersionDropsExactly(defaults: Settings, steps: seq<Step>, i: nat)
    requires Normalized(defaults) && i < |steps|
    ensures Regresses(After(defaults, steps[..i]).snapshot, After(defaults, steps[..i + 1]).snapshot) <==>
            AppliesOldInitial(After(defaults, steps[..i]), steps[i])
  {
    hide Next, Coherent, After, AppliesOldInitial, Regresses;
    AlwaysCoherent(defaults, steps[..i]);
    Stepping(defaults, steps, i);
    StepFacts(After(defaults, steps[..i]), defaults, steps[i]);
  }

  /** It does happen: a write is published between the load and the application of an initial refresh. */
  lemma VersionMayDrop(defaults: Settings)
    requires Normalized(defaults)
    ensures var steps := [Load(0, true, Found(Record(defaults, 1))), Publish(Record(defaults, 2), 10), Apply(0, 11)];
            After(defaults, steps[..2]).snapshot.version == Some(2) && After(defaults, steps).snapshot.version == Some(1)
  {
    var steps := [Load(0, true, Found(Record(defaults, 1))), Publish(Record(defaults, 2), 10), Apply(0, 11)];
    hide Normalized;
    Stepping(defaults, steps, 0);
    Stepping(defaults, steps, 1);
    Stepping(defaults, steps, 2);
    assert steps[..0] == [] && steps[..3] == steps;
  }

  /** A version changes its settings exactly when a load of a record with that version and other settings is applied. */
  lemma SettingsSwapExactly(defaults: Settings, steps: seq<Step>, i: nat)
    requires Normalized(defaults) && i < |steps|
    ensures Swaps(After(defaults, steps[..i]).snapshot, After(defaults, steps[..i + 1]).snapshot) <==>
            AppliesOtherSettings(After(defaults, steps[..i]), steps[i])
  {
    hide Next, Coherent, After, AppliesOtherSettings, Swaps;
    AlwaysCoherent(defaults, steps[..i]);
    Stepping(defaults, steps, i);
    StepFacts(After(defaults, steps[..i]), defaults, steps[i]);
  }

  /** It does happen: a refresh finds other settings under the version that a write published. */
  lemma SettingsMaySwap(defaults: Settings, other: Settings)
    requires Normalized(defaults) && Normalized(other) && other != defaults
    ensures var steps := [Publish(Record(defaults, 1), 10), Load(0, false, Found(Record(other, 1))), Apply(0, 11)];
            var before, after := After(defaults, steps[..2]).snapshot, After(defaults, steps).snapshot;
            && before.version == after.version == Some(1)
            && before.settings == defaults && after.settings == other && after.lastError == NoError
  {
    var steps := [Publish(Record(defaults, 1), 10), Load(0, false, Found(Record(other, 1))), Apply(0, 11)];
    hide Normalized;
    Stepping(defaults, steps, 0);
    Stepping(defaults, steps, 1);
    Stepping(defaults, steps, 2);
    assert steps[..0] == [] && steps[..3] == steps;
  }
}
