/** Operator writes to the runtime settings: internal/config/runtime_service.go over the
    compare-and-set store of internal/store/runtime_settings.go. */
module SettingsService {
  import opened Wrappers
  import opened SettingsPolicy
  import opened Powers
  import opened SettingsProjection
  import opened SettingsSnapshot

  // Store

  function IndexOf(rows: seq<Row>, key: StoredKey): (index: nat)
    ensures index <= |rows|
    ensures index < |rows| ==> rows[index].key == key
    ensures forall i | 0 <= i < index :: rows[i].key != key
  {
    if rows == [] || rows[0].key == key then 0 else 1 + IndexOf(rows[1..], key)
  }

  /** The state revision must be the one the writer saw, and so must the row's: zero means no row. */
  predicate Unchanged(state: Stored, key: StoredKey, expected: int, expectedState: int) {
    var index := IndexOf(state.rows, key);
    state.revision == expectedState &&
    if index < |state.rows| then state.rows[index].revision == expected else expected == 0
  }

  function Upserted(state: Stored, row: Row): Stored {
    var index := IndexOf(state.rows, row.key);
    var saved := row.(revision := state.revision + 1);
    Stored(state.revision + 1, if index < |state.rows| then state.rows[index := saved] else state.rows + [saved])
  }

  function Deleted(state: Stored, key: StoredKey): Stored {
    var index := IndexOf(state.rows, key);
    Stored(state.revision + 1, if index < |state.rows| then state.rows[..index] + state.rows[index + 1..]
           else state.rows)
  }

  class Store {
    var state: Stored

    constructor (initial: Stored)
      ensures state == initial
    {
      state := initial;
    }

    method Upsert(row: Row, expected: int, expectedState: int) returns (saved: Option<Row>)
      modifies this
      ensures var accepted := Unchanged(old(state), row.key, expected, expectedState);
        && state == (if accepted then Upserted(old(state), row) else old(state))
        && saved == (if accepted then Some(row.(revision := old(state).revision + 1)) else None)
    {
      hide IndexOf;
      if !Unchanged(state, row.key, expected, expectedState) {
        return None;
      }
      var revision := state.revision + 1;
      var index := IndexOf(state.rows, row.key);
      var next := row.(revision := revision);
      if index < |state.rows| {
        state := Stored(revision, state.rows[index := next]);
      } else {
        state := Stored(revision, state.rows + [next]);
      }
      return Some(next);
    }

    method Delete(key: StoredKey, expected: int, expectedState: int) returns (revision: Option<int>)
      modifies this
      ensures var index := IndexOf(old(state).rows, key);
        var accepted := index < |old(state).rows| && Unchanged(old(state), key, expected, expectedState);
        && state == (if accepted then Deleted(old(state), key) else old(state))
        && revision == (if accepted then Some(old(state).revision + 1) else None)
    {
      hide IndexOf;
      var index := IndexOf(state.rows, key);
      if index == |state.rows| || state.rows[index].revision != expected || state.revision != expectedState {
        return None;
      }
      state := Stored(state.revision + 1, state.rows[..index] + state.rows[index + 1..]);
      return Some(state.revision);
    }
  }

  // Writes

  /** A replica's published snapshot, the store, and the answer. */
  datatype Outcome = Outcome(current: Snapshot, state: Stored, result: Result<Description, Error>)

  /** reloadLocked with force: a state that does not load or build leaves the snapshot alone. */
  ghost function Reloaded(c: Context, current: Snapshot, loaded: Option<Stored>): Snapshot
    requires ContextOk(c)
  {
    if loaded.Some? && Built(c, loaded.value).Ok? then Built(c, loaded.value).value else current
  }

  function Preview(revision: int): int {
    if revision + 1 <= 0 then 1 else revision + 1
  }

  ghost predicate GroupSafe(c: Context, key: Key, fallback: Values)
    requires Complete(fallback) && ContextOk(c)
  {
    GroupOf(key).Some? ==>
      forall mask: nat | mask < Pow2(|KeysOf(GroupOf(key).value)|) :: MaskValid(c, GroupOf(key).value, fallback, mask)
  }

  /** With every projection valid before a change of one setting, checking that setting's masks is
      checking every subset of the environment under every group. */
  lemma ChangedGroupOnly(c: Context, before: Values, after: Values, key: Key)
    requires Complete(before) && Complete(after) && ContextOk(c) && SameOff(before, after, key) && Safe(c, before)
    ensures Safe(c, after) <==> GroupSafe(c, key, after)
  {
    hide Complete, ContextOk, SameOff, KeysOf;
    if GroupSafe(c, key, after) {
      forall group: Group, present: set<Key> ensures ValidWith(c, group, after, present) {
        if GroupOf(key) == Some(group) {
          MaskForSet(c, group, after, present);
        } else {
          OtherGroups(c, before, after, key, group, present);
          assert ValidWith(c, group, before, present);
        }
      }
    }
  }

  ghost predicate GroupUnharmed(c: Context, key: Key, before: Values, after: Values)
    requires Complete(before) && Complete(after) && ContextOk(c)
  {
    GroupOf(key).Some? ==> NoNewInvalid(c, before, after, GroupOf(key).value)
  }

  /** The snapshot kept after a write: the preview with the stored row's revision and actor. */
  function Patched(preview: Snapshot, key: Key, saved: Row): Snapshot
    requires key in preview.descriptions
  {
    preview.(
      revision := saved.revision,
      overrides := preview.overrides[key := saved],
      descriptions := preview.descriptions[key := preview.descriptions[key].(revision := saved.revision)])
  }

  lemma BuiltFacts(c: Context, state: Stored)
    requires ContextOk(c) && Built(c, state).Ok?
    ensures OverridesOk(Overrides(state.rows))
    ensures Complete(Fallback(Overrides(state.rows))) && Bounded(Fallback(Overrides(state.rows)))
    ensures Built(c, state).value == Assembled(c, state.revision, Overrides(state.rows), Unsupported(state.rows))
  {
    OverridesAreOk(state.rows);
    FallbackComplete(Overrides(state.rows));
  }

  ghost function CheckedSet(c: Context, key: StoredKey, parsed: Option<Value>, actor: Option<nat>,
                            expected: int): Option<Error>
  {
    if actor.None? then Some(MissingActor)
    else if expected < 0 then Some(InvalidValue)
    else if key.Unknown? then Some(UnknownSetting)
    else if !Editable(key.key) || key.key in c.environment then Some(SettingLocked)
    else if parsed.None? || !HasType(key.key, parsed.value) || !InBounds(key.key, parsed.value) then Some(InvalidValue)
    else None
  }

  /** Set: `loaded` is the state read before the checks, `refreshed` the one read after a conflict;
      other replicas may write in between. */
  ghost function SetOutcome(c: Context, current: Snapshot, state: Stored, loaded: Option<Stored>,
                            refreshed: Option<Stored>, key: StoredKey, parsed: Option<Value>, actor: Option<nat>,
                            expected: int): Outcome
    requires ContextOk(c)
  {
    var refused := CheckedSet(c, key, parsed, actor, expected);
    if refused.Some? then Outcome(current, state, Err(refused.value))
    else if loaded.None? then Outcome(current, state, Err(LoadFailed))
    else if Built(c, loaded.value).Err? then Outcome(current, state, Err(InvalidValue))
    else
      BuiltFacts(c, loaded.value);
      var before := Built(c, loaded.value).value;
      var row := Row(key, parsed.value, Preview(before.revision), None);
      var overrides := before.overrides[key.key := row];
      if !Accepted(c, overrides) then Outcome(before, state, Err(InvalidValue))
      else
        FallbackComplete(overrides);
        if !GroupSafe(c, key.key, Fallback(overrides)) then Outcome(before, state, Err(InvalidValue))
        else if !Unchanged(state, key, expected, before.revision) then
          Outcome(Reloaded(c, before, refreshed), state, Err(RevisionConflict))
        else
          var saved := row.(revision := state.revision + 1, actor := actor);
          var preview := Assembled(c, before.revision, overrides, before.unsupported);
          var after := Patched(preview, key.key, saved);
          Outcome(after, Upserted(state, row.(actor := actor)), Ok(after.descriptions[key.key]))
  }

  ghost function CheckedClear(key: StoredKey, actor: Option<nat>, expected: int): Option<Error> {
    if actor.None? then Some(MissingActor)
    else if expected <= 0 then Some(RevisionConflict)
    else if key.Unknown? then Some(UnknownSetting)
    else if !Editable(key.key) then Some(SettingLocked)
    else None
  }

  ghost function ClearOutcome(c: Context, current: Snapshot, state: Stored, loaded: Option<Stored>,
                              refreshed: Option<Stored>, key: StoredKey, actor: Option<nat>, expected: int): Outcome
    requires ContextOk(c)
  {
    var refused := CheckedClear(key, actor, expected);
    if refused.Some? then Outcome(current, state, Err(refused.value))
    else if loaded.None? then Outcome(current, state, Err(LoadFailed))
    else if Built(c, loaded.value).Err? then Outcome(current, state, Err(InvalidValue))
    else
      BuiltFacts(c, loaded.value);
      var before := Built(c, loaded.value).value;
      if key.key !in before.overrides && key.key in c.environment then Outcome(before, state, Err(SettingLocked))
      else if key.key !in before.overrides || before.overrides[key.key].revision != expected then
        Outcome(before, state, Err(RevisionConflict))
      else
        var overrides := before.overrides - {key.key};
        if !Accepted(c, overrides) then Outcome(before, state, Err(InvalidValue))
        else
          FallbackComplete(overrides);
          if !GroupUnharmed(c, key.key, before.fallback, Fallback(overrides))
          then Outcome(before, state, Err(InvalidValue))
          else if IndexOf(state.rows, key) == |state.rows| || !Unchanged(state, key, expected, before.revision) then
            Outcome(Reloaded(c, before, refreshed), state, Err(RevisionConflict))
          else
            var after := Assembled(c, state.revision + 1, overrides, before.unsupported);
            Outcome(after, Deleted(state, key), Ok(after.descriptions[key.key]))
  }

  lemma OverrideSet(overrides: map<Key, Row>, row: Row)
    requires OverridesOk(overrides) && RowOk(row) && row.key.Known?
    ensures OverridesOk(overrides[row.key.key := row])
  {
  }

  lemma OverrideCleared(overrides: map<Key, Row>, key: Key)
    requires OverridesOk(overrides)
    ensures OverridesOk(overrides - {key})
  {
  }

  // When a write succeeds, and what it does

  /** The row of the key has this revision; zero means that there is none. */
  ghost predicate RowAt(rows: seq<Row>, key: StoredKey, revision: int) {
    || (revision == 0 && forall i | 0 <= i < |rows| :: rows[i].key != key)
    || (exists i :: 0 <= i < |rows| && rows[i].key == key && rows[i].revision == revision)
  }

  lemma UnchangedIs(state: Stored, key: StoredKey, expected: int, expectedState: int)
    requires DistinctRows(state.rows)
    ensures Unchanged(state, key, expected, expectedState) <==>
      state.revision == expectedState && RowAt(state.rows, key, expected)
    ensures IndexOf(state.rows, key) < |state.rows| <==> exists i :: 0 <= i < |state.rows| && state.rows[i].key == key
  {
    var index := IndexOf(state.rows, key);
    if index < |state.rows| {
      assert forall i | 0 <= i < |state.rows| && state.rows[i].key == key :: i == index;
    }
  }

  /** An operator may set this key to this value: not one fixed at startup or by the environment, and a value
      of its type and within its bounds. */
  predicate MayEdit(c: Context, key: StoredKey, parsed: Option<Value>) {
    && key.Known? && key.key != ChallengeEnabled && key.key !in c.environment
    && parsed.Some? && Permitted(key.key, parsed.value)
  }

  /** The state read builds; with the new value in force the policy holds; no removal of environment
      variables would break the setting's group; and neither the state nor the row has changed since. */
  ghost predicate MaySet(c: Context, state: Stored, loaded: Option<Stored>, key: StoredKey, parsed: Option<Value>,
                         actor: Option<nat>, expected: int)
    requires ContextOk(c)
  {
    && actor.Some? && 0 <= expected && MayEdit(c, key, parsed)
    && loaded.Some? && Built(c, loaded.value).Ok?
    && var before := Built(c, loaded.value).value;
    var values, fallback := before.values[key.key := parsed.value], before.fallback[key.key := parsed.value];
    && Complete(values) && PolicyHolds(c, values)
    && Complete(fallback) && GroupSafe(c, key.key, fallback)
    && state.revision == before.revision && RowAt(state.rows, key, expected)
  }

  /** The state is one revision later; the key has the row, with the new revision, and every other key the
      rows it had. */
  ghost predicate RowWritten(before: Stored, after: Stored, row: Row) {
    && after.revision == before.revision + 1 && row.(revision := after.revision) in after.rows
    && (forall i | 0 <= i < |after.rows| && after.rows[i].key == row.key ::
          after.rows[i] == row.(revision := after.revision))
    && (forall r: Row | r.key != row.key :: r in after.rows <==> r in before.rows)
  }

  /** The state is one revision later and the key has no row; every other key has the rows it had. */
  ghost predicate RowRemoved(before: Stored, after: Stored, key: StoredKey) {
    && after.revision == before.revision + 1
    && (forall i | 0 <= i < |after.rows| :: after.rows[i].key != key)
    && (forall r: Row | r.key != key :: r in after.rows <==> r in before.rows)
  }

  lemma UpsertedIs(state: Stored, row: Row)
    requires DistinctRows(state.rows)
    ensures RowWritten(state, Upserted(state, row), row)
  {
    hide IndexOf;
    var index, after := IndexOf(state.rows, row.key), Upserted(state, row);
    var at := if index < |state.rows| then index else |state.rows|;
    assert after.rows[at] == row.(revision := after.revision);
    forall r: Row | r.key != row.key ensures r in after.rows <==> r in state.rows {
      if r in state.rows {
        var i :| 0 <= i < |state.rows| && state.rows[i] == r;
        assert after.rows[i] == r;
      }
    }
  }

  lemma RowTakenOut(rows: seq<Row>, index: nat, r: Row)
    requires index < |rows| && r != rows[index]
    ensures r in rows[..index] + rows[index + 1..] <==> r in rows
  {
    if r in rows {
      var i :| 0 <= i < |rows| && rows[i] == r;
      assert (rows[..index] + rows[index + 1..])[if i < index then i else i - 1] == r;
    }
  }

  lemma NoneLeft(rows: seq<Row>, index: nat, i: nat)
    requires DistinctRows(rows) && index < |rows| && i < |rows| - 1
    ensures (rows[..index] + rows[index + 1..])[i].key != rows[index].key
  {
    assert (rows[..index] + rows[index + 1..])[i] == rows[if i < index then i else i + 1];
  }

  lemma DeletedIs(state: Stored, key: StoredKey)
    requires DistinctRows(state.rows)
    ensures RowRemoved(state, Deleted(state, key), key)
  {
    hide DistinctRows, IndexOf;
    var index := IndexOf(state.rows, key);
    if index < |state.rows| {
      var after := state.rows[..index] + state.rows[index + 1..];
      forall i | 0 <= i < |after| ensures after[i].key != key {
        NoneLeft(state.rows, index, i);
      }
      forall r: Row | r.key != key ensures r in after <==> r in state.rows {
        RowTakenOut(state.rows, index, r);
      }
      assert Deleted(state, key).rows == after;
    }
  }

  lemma FallbackElsewhere(overrides: map<Key, Row>, key: Key, row: Row)
    ensures FallbackOf(overrides[key := row], key) == row.value
    ensures forall other: Key ::
      other != key ==> FallbackOf(overrides[key := row], other) == FallbackOf(overrides, other)
    ensures FallbackOf(overrides - {key}, key) == Default(key)
    ensures forall other: Key :: other != key ==> FallbackOf(overrides - {key}, other) == FallbackOf(overrides, other)
  {
  }

  lemma EffectiveSet(c: Context, fallback: Values, key: Key, value: Value)
    requires forall k: Key :: k in fallback
    ensures Effective(c, fallback[key := value]) ==
      if key in c.environment then Effective(c, fallback) else Effective(c, fallback)[key := value]
  {
  }

  /** The layers after one override more. */
  lemma LayersSet(c: Context, overrides: map<Key, Row>, key: Key, row: Row)
    ensures Fallback(overrides[key := row]) == Fallback(overrides)[key := row.value]
    ensures key !in c.environment ==>
      Effective(c, Fallback(overrides[key := row])) == Effective(c, Fallback(overrides))[key := row.value]
    ensures key in c.environment ==>
      Effective(c, Fallback(overrides[key := row])) == Effective(c, Fallback(overrides))
  {
    hide Effective, FallbackOf;
    FallbackElsewhere(overrides, key, row);
    assert Fallback(overrides[key := row]) == Fallback(overrides)[key := row.value];
    EffectiveSet(c, Fallback(overrides), key, row.value);
  }

  /** The layers after one override less. */
  lemma LayersCleared(c: Context, overrides: map<Key, Row>, key: Key)
    ensures Fallback(overrides - {key}) == Fallback(overrides)[key := Default(key)]
    ensures key !in c.environment ==>
      Effective(c, Fallback(overrides - {key})) == Effective(c, Fallback(overrides))[key := Default(key)]
    ensures key in c.environment ==>
      Effective(c, Fallback(overrides - {key})) == Effective(c, Fallback(overrides))
  {
    hide Effective, FallbackOf, Default;
    FallbackElsewhere(overrides, key, Row(Known(key), Default(key), 0, None));
    assert Fallback(overrides - {key}) == Fallback(overrides)[key := Default(key)];
    EffectiveSet(c, Fallback(overrides), key, Default(key));
  }

  /** The proposal of a set: its layers, and that it is accepted exactly when the policy holds. */
  lemma SetProposal(c: Context, loaded: Stored, key: Key, row: Row)
    requires ContextOk(c) && Built(c, loaded).Ok? && key !in c.environment && row.key == Known(key) && RowOk(row)
    ensures var before := Built(c, loaded).value;
      var overrides := before.overrides[key := row];
      var values, fallback := before.values[key := row.value], before.fallback[key := row.value];
      && OverridesOk(overrides) && Fallback(overrides) == fallback && Effective(c, fallback) == values
      && Complete(fallback) && Complete(values) && (Accepted(c, overrides) <==> PolicyHolds(c, values))
  {
    BuiltFacts(c, loaded);
    var before := Built(c, loaded).value;
    var overrides := before.overrides[key := row];
    hide Built, RowOk, Overrides, Unsupported, Descriptions, Complete, Bounded, PolicyOk, PolicyHolds, ContextOk;
    hide Effective, Fallback;
    OverrideSet(before.overrides, row);
    LayersSet(c, before.overrides, key, row);
    FallbackComplete(overrides);
    EffectiveComplete(c, Fallback(overrides));
    PolicyIs(c, Effective(c, Fallback(overrides)));
  }

  lemma CheckedSetIs(c: Context, key: StoredKey, parsed: Option<Value>, actor: Option<nat>, expected: int)
    ensures CheckedSet(c, key, parsed, actor, expected).None? <==>
      actor.Some? && 0 <= expected && MayEdit(c, key, parsed)
  {
    if key.Known? && parsed.Some? {
      PermittedIs(key.key, parsed.value);
    }
  }

  /** A set succeeds exactly when it may; the published values are then the old ones with the new value, and
      the store has the row. A refusal leaves the store alone. */
  ghost predicate SetDone(c: Context, state: Stored, loaded: Option<Stored>, key: StoredKey, parsed: Option<Value>,
                          actor: Option<nat>, expected: int, outcome: Outcome)
    requires ContextOk(c)
  {
    && (outcome.result.Ok? <==> MaySet(c, state, loaded, key, parsed, actor, expected))
    && (outcome.result.Ok? ==>
          && outcome.current.values == Built(c, loaded.value).value.values[key.key := parsed.value]
          && PolicyHolds(c, outcome.current.values)
          && outcome.current.revision == outcome.state.revision
          && RowWritten(state, outcome.state, Row(key, parsed.value, 0, actor)))
    && (outcome.result.Err? ==> outcome.state == state)
  }

  lemma SetIs(c: Context, current: Snapshot, state: Stored, loaded: Option<Stored>, refreshed: Option<Stored>,
              key: StoredKey, parsed: Option<Value>, actor: Option<nat>, expected: int)
    requires ContextOk(c) && DistinctRows(state.rows)
    ensures SetDone(c, state, loaded, key, parsed, actor, expected,
                    SetOutcome(c, current, state, loaded, refreshed, key, parsed, actor, expected))
  {
    CheckedSetIs(c, key, parsed, actor, expected);
    hide CheckedSet, Built, Accepted, Unchanged, IndexOf, RowAt, GroupSafe, PolicyHolds, Complete, Fallback, Effective;
    hide Reloaded, ContextOk, DistinctRows, Upserted, RowWritten;
    if actor.Some? && 0 <= expected && MayEdit(c, key, parsed) && loaded.Some? && Built(c, loaded.value).Ok? {
      var before := Built(c, loaded.value).value;
      var row := Row(key, parsed.value, Preview(before.revision), None);
      UnchangedIs(state, key, expected, before.revision);
      SetProposal(c, loaded.value, key.key, row);
      BuiltFacts(c, loaded.value);
      SetState(state, row.(actor := actor));
    }
  }

  /** The revision a row carries into a write is not the one it gets. */
  lemma SetState(state: Stored, row: Row)
    requires DistinctRows(state.rows)
    ensures RowWritten(state, Upserted(state, row), row.(revision := 0))
    ensures Upserted(state, row).revision == state.revision + 1
  {
    hide DistinctRows;
    UpsertedIs(state, row);
  }

  /** The state read builds and has the row to clear at this revision; with the environment's or the default
      value in its place the policy holds; no removal of environment variables newly breaks the setting's
      group; and neither the state nor the row has changed since. */
  ghost predicate MayClear(c: Context, state: Stored, loaded: Option<Stored>, key: StoredKey, actor: Option<nat>,
                           expected: int)
    requires ContextOk(c)
  {
    && actor.Some? && 0 < expected && key.Known? && key.key != ChallengeEnabled
    && loaded.Some? && Built(c, loaded.value).Ok? && RowAt(loaded.value.rows, key, expected)
    && var before := Built(c, loaded.value).value;
    var values := if key.key in c.environment then before.values else before.values[key.key := Default(key.key)];
    var fallback := before.fallback[key.key := Default(key.key)];
    && Complete(values) && PolicyHolds(c, values)
    && Complete(before.fallback) && Complete(fallback) && GroupUnharmed(c, key.key, before.fallback, fallback)
    && state.revision == before.revision && RowAt(state.rows, key, expected)
  }

  lemma ClearProposal(c: Context, loaded: Stored, key: Key)
    requires ContextOk(c) && Built(c, loaded).Ok?
    ensures var before := Built(c, loaded).value;
      var overrides := before.overrides - {key};
      var values := if key in c.environment then before.values else before.values[key := Default(key)];
      var fallback := before.fallback[key := Default(key)];
      && OverridesOk(overrides) && Fallback(overrides) == fallback && Effective(c, fallback) == values
      && Complete(before.fallback) && Complete(fallback) && Complete(values)
      && (Accepted(c, overrides) <==> PolicyHolds(c, values))
  {
    BuiltFacts(c, loaded);
    var before := Built(c, loaded).value;
    var overrides := before.overrides - {key};
    hide Built, RowOk, Overrides, Unsupported, Descriptions, Complete, Bounded, PolicyOk, PolicyHolds, ContextOk;
    hide Effective, Fallback;
    OverrideCleared(before.overrides, key);
    LayersCleared(c, before.overrides, key);
    FallbackComplete(overrides);
    EffectiveComplete(c, Fallback(overrides));
    PolicyIs(c, Effective(c, Fallback(overrides)));
  }

  lemma LoadedRow(c: Context, loaded: Stored, key: Key, expected: int)
    requires ContextOk(c) && Built(c, loaded).Ok? && 0 < expected
    ensures var overrides := Built(c, loaded).value.overrides;
      RowAt(loaded.rows, Known(key), expected) <==> key in overrides && overrides[key].revision == expected
  {
    BuiltFacts(c, loaded);
    hide Overrides, Accepted;
    StoredAt(loaded.rows, key);
  }

  /** A clear succeeds exactly when it may; the published values are then the old ones with the environment's
      or the default value of the key, and the store has no row of it. A refusal leaves the store alone. */
  ghost predicate ClearDone(c: Context, state: Stored, loaded: Option<Stored>, key: StoredKey, actor: Option<nat>,
                            expected: int, outcome: Outcome)
    requires ContextOk(c)
  {
    && (outcome.result.Ok? <==> MayClear(c, state, loaded, key, actor, expected))
    && (outcome.result.Ok? ==>
          var values := Built(c, loaded.value).value.values;
          && outcome.current.values ==
               (if key.key in c.environment then values else values[key.key := Default(key.key)])
          && PolicyHolds(c, outcome.current.values)
          && outcome.current.revision == outcome.state.revision && RowRemoved(state, outcome.state, key))
    && (outcome.result.Err? ==> outcome.state == state)
  }

  lemma ClearIs(c: Context, current: Snapshot, state: Stored, loaded: Option<Stored>, refreshed: Option<Stored>,
                key: StoredKey, actor: Option<nat>, expected: int)
    requires ContextOk(c) && DistinctRows(state.rows)
    ensures ClearDone(c, state, loaded, key, actor, expected,
                      ClearOutcome(c, current, state, loaded, refreshed, key, actor, expected))
  {
    hide Built, Accepted, Unchanged, IndexOf, RowAt, GroupUnharmed, PolicyHolds, Complete, Fallback, Effective;
    hide Reloaded, ContextOk, DistinctRows, Deleted, RowRemoved, Default, Overrides, Unsupported, OverridesOk, Bounded;
    hide Descriptions;
    if actor.Some? && 0 < expected && key.Known? && Editable(key.key) && loaded.Some? && Built(c, loaded.value).Ok? {
      var before := Built(c, loaded.value).value;
      UnchangedIs(state, key, expected, before.revision);
      RowThere(state.rows, key, expected);
      LoadedRow(c, loaded.value, key.key, expected);
      ClearProposal(c, loaded.value, key.key);
      BuiltFacts(c, loaded.value);
      DeletedIs(state, key);
      NextRevision(state, key);
    }
  }

  lemma RowThere(rows: seq<Row>, key: StoredKey, revision: int)
    requires 0 < revision
    ensures RowAt(rows, key, revision) ==> exists i :: 0 <= i < |rows| && rows[i].key == key
  {
  }

  lemma NextRevision(state: Stored, key: StoredKey)
    ensures Deleted(state, key).revision == state.revision + 1
  {
  }

  lemma SetAlways(c: Context, current: Snapshot, state: Stored, loaded: Option<Stored>, refreshed: Option<Stored>,
                  key: StoredKey, parsed: Option<Value>, actor: Option<nat>, expected: int)
    requires ContextOk(c)
    ensures DistinctRows(state.rows) ==>
      SetDone(c, state, loaded, key, parsed, actor, expected,
              SetOutcome(c, current, state, loaded, refreshed, key, parsed, actor, expected))
  {
    hide SetDone, SetOutcome, DistinctRows;
    if DistinctRows(state.rows) {
      SetIs(c, current, state, loaded, refreshed, key, parsed, actor, expected);
    }
  }

  lemma ClearAlways(c: Context, current: Snapshot, state: Stored, loaded: Option<Stored>, refreshed: Option<Stored>,
                    key: StoredKey, actor: Option<nat>, expected: int)
    requires ContextOk(c)
    ensures DistinctRows(state.rows) ==>
      ClearDone(c, state, loaded, key, actor, expected,
                ClearOutcome(c, current, state, loaded, refreshed, key, actor, expected))
  {
    hide ClearDone, ClearOutcome, DistinctRows;
    if DistinctRows(state.rows) {
      ClearIs(c, current, state, loaded, refreshed, key, actor, expected);
    }
  }

  /** validateEnvironmentRemovalProjections. */
  method ProjectionsValid(c: Context, key: Key, fallback: Values) returns (valid: bool)
    requires Complete(fallback) && ContextOk(c)
    ensures valid == GroupSafe(c, key, fallback)
  {
    hide KeysOf, GroupOf, Complete, ContextOk, MaskValid;
    var invalid := ProjectionErrors(c, key, fallback);
    for mask := 0 to |invalid|
      invariant forall m | 0 <= m < mask :: !invalid[m]
    {
      if invalid[mask] {
        return false;
      }
    }
    return true;
  }

  /** The comparison a clear makes: it may leave invalid projections, but not add one. */
  method ProjectionsUnharmed(c: Context, key: Key, before: Values, after: Values) returns (unharmed: bool)
    requires Complete(before) && Complete(after) && ContextOk(c)
    ensures unharmed == GroupUnharmed(c, key, before, after)
  {
    hide KeysOf, GroupOf, Complete, ContextOk, MaskValid;
    var invalidBefore := ProjectionErrors(c, key, before);
    var invalidAfter := ProjectionErrors(c, key, after);
    for mask := 0 to |invalidAfter|
      invariant forall m | 0 <= m < mask :: invalidAfter[m] ==> invalidBefore[m]
    {
      if invalidAfter[mask] && !invalidBefore[mask] {
        return false;
      }
    }
    return true;
  }

  /** One replica. */
  class SettingsService {
    const context: Context
    var current: Snapshot

    constructor (c: Context, initial: Snapshot)
      ensures context == c && current == initial
    {
      context := c;
      current := initial;
    }

    method ReloadLocked(loaded: Option<Stored>, force: bool) returns (error: Option<Error>)
      requires ContextOk(context)
      modifies this`current
      ensures loaded.None? ==> error == Some(LoadFailed) && current == old(current)
      ensures loaded.Some? ==>
        if !force && old(current).revision == loaded.value.revision then error.None? && current == old(current)
        else if Built(context, loaded.value).Ok? then error.None? && current == Built(context, loaded.value).value
        else error == Some(InvalidValue) && current == old(current)
    {
      if loaded.None? {
        return Some(LoadFailed);
      }
      if !force && current.revision == loaded.value.revision {
        return None;
      }
      var next := Build(context, loaded.value);
      if next.Err? {
        return Some(next.error);
      }
      current := next.value;
      return None;
    }

    method Set(store: Store, loaded: Option<Stored>, refreshed: Option<Stored>, key: StoredKey, parsed: Option<Value>,
               actor: Option<nat>, expected: int)
      returns (result: Result<Description, Error>)
      requires ContextOk(context)
      modifies this`current, store
      ensures Outcome(current, store.state, result) ==
        SetOutcome(context, old(current), old(store.state), loaded, refreshed, key, parsed, actor, expected)
      ensures DistinctRows(old(store.state).rows) ==>
        SetDone(context, old(store.state), loaded, key, parsed, actor, expected, Outcome(current, store.state, result))
    {
      hide Fallback, Effective, PolicyOk, Accepted, OverridesOk, RowsOk, Overrides, Unsupported, Complete;
      hide Bounded, ContextOk, SetDone, DistinctRows;
      hide Editable, HasType, InBounds, IndexOf, GroupSafe, GroupUnharmed, Upserted, Deleted;
      SetAlways(context, current, store.state, loaded, refreshed, key, parsed, actor, expected);
      if actor.None? {
        return Err(MissingActor);
      }
      if expected < 0 {
        return Err(InvalidValue);
      }
      if key.Unknown? {
        return Err(UnknownSetting);
      }
      if !Editable(key.key) || key.key in context.environment {
        return Err(SettingLocked);
      }
      if parsed.None? || !HasType(key.key, parsed.value) || !InBounds(key.key, parsed.value) {
        return Err(InvalidValue);
      }
      var failed := ReloadLocked(loaded, true);
      if failed.Some? {
        return Err(failed.value);
      }
      var before := current;
      BuiltFacts(context, loaded.value);
      var row := Row(key, parsed.value, Preview(before.revision), None);
      OverrideSet(before.overrides, row);
      var overrides := before.overrides[key.key := row];
      var proposed := Assemble(context, before.revision, overrides, before.unsupported);
      if proposed.Err? {
        return Err(proposed.error);
      }
      FallbackComplete(overrides);
      var valid := ProjectionsValid(context, key.key, proposed.value.fallback);
      if !valid {
        return Err(InvalidValue);
      }
      var saved := store.Upsert(row.(actor := actor), expected, before.revision);
      if saved.None? {
        var _ := ReloadLocked(refreshed, true);
        return Err(RevisionConflict);
      }
      current := Patched(proposed.value, key.key, saved.value);
      return Ok(current.descriptions[key.key]);
    }

    method Clear(store: Store, loaded: Option<Stored>, refreshed: Option<Stored>, key: StoredKey, actor: Option<nat>,
                 expected: int)
      returns (result: Result<Description, Error>)
      requires ContextOk(context)
      modifies this`current, store
      ensures Outcome(current, store.state, result) ==
        ClearOutcome(context, old(current), old(store.state), loaded, refreshed, key, actor, expected)
      ensures DistinctRows(old(store.state).rows) ==>
        ClearDone(context, old(store.state), loaded, key, actor, expected, Outcome(current, store.state, result))
    {
      hide Fallback, Effective, PolicyOk, Accepted, OverridesOk, RowsOk, Overrides, Unsupported, Complete;
      hide Bounded, ContextOk, ClearDone, DistinctRows;
      hide Editable, HasType, InBounds, IndexOf, GroupSafe, GroupUnharmed, Upserted, Deleted;
      ClearAlways(context, current, store.state, loaded, refreshed, key, actor, expected);
      if actor.None? {
        return Err(MissingActor);
      }
      if expected <= 0 {
        return Err(RevisionConflict);
      }
      if key.Unknown? {
        return Err(UnknownSetting);
      }
      if !Editable(key.key) {
        return Err(SettingLocked);
      }
      var failed := ReloadLocked(loaded, true);
      if failed.Some? {
        return Err(failed.value);
      }
      var before := current;
      BuiltFacts(context, loaded.value);
      if key.key !in before.overrides && key.key in context.environment {
        return Err(SettingLocked);
      }
      if key.key !in before.overrides || before.overrides[key.key].revision != expected {
        return Err(RevisionConflict);
      }
      OverrideCleared(before.overrides, key.key);
      var overrides := before.overrides - {key.key};
      var proposed := Assemble(context, before.revision, overrides, before.unsupported);
      if proposed.Err? {
        return Err(proposed.error);
      }
      FallbackComplete(overrides);
      var unharmed := ProjectionsUnharmed(context, key.key, before.fallback, proposed.value.fallback);
      if !unharmed {
        return Err(InvalidValue);
      }
      var revision := store.Delete(key, expected, before.revision);
      if revision.None? {
        var _ := ReloadLocked(refreshed, true);
        return Err(RevisionConflict);
      }
      current := proposed.value.(revision := revision.value);
      return Ok(current.descriptions[key.key]);
    }

    /** Reconcile: a reload unless the revision is the one already published. */
    method Reconcile(loaded: Option<Stored>) returns (error: Option<Error>)
      requires ContextOk(context)
      modifies this`current
      ensures current == Reconciled(context, old(current), loaded)
    {
      error := ReloadLocked(loaded, false);
    }
  }

  ghost function Reconciled(c: Context, current: Snapshot, loaded: Option<Stored>): Snapshot
    requires ContextOk(c)
  {
    if loaded.Some? && loaded.value.revision == current.revision then current else Reloaded(c, current, loaded)
  }
}
