/** Several replicas of the settings service over one store: the snapshot a replica publishes is
    the one a full reload would build, and no write breaks an environment-removal projection. */
module SettingsReplicas {
  import opened Wrappers
  import opened SettingsPolicy
  import opened Powers
  import opened SettingsProjection
  import opened SettingsSnapshot
  import opened SettingsService

  // Incremental snapshots

  lemma {:induction false} UnsupportedReplaced(rows: seq<Row>, index: nat, middle: seq<Row>)
    requires index < |rows| && rows[index].key.Known?
    requires middle == [] || (|middle| == 1 && middle[0].key.Known?)
    ensures Unsupported(rows[..index] + middle + rows[index + 1..]) == Unsupported(rows)
  {
    var front, back := rows[..index], rows[index + 1..];
    assert rows == front + ([rows[index]] + back);
    assert front + middle + back == front + (middle + back);
    UnsupportedSplit(front, [rows[index]] + back);
    UnsupportedSplit(front, middle + back);
    UnsupportedSplit([rows[index]], back);
    UnsupportedSplit(middle, back);
    assert Unsupported([rows[index]]) == [];
    assert Unsupported(middle) == [];
  }

  lemma UpsertedRowsOk(state: Stored, row: Row)
    requires RowsOk(state.rows) && RowOk(row.(revision := state.revision + 1))
    ensures RowsOk(Upserted(state, row).rows)
  {
    hide RowOk;
  }

  lemma UpsertedUnsupported(state: Stored, row: Row)
    requires row.key.Known?
    ensures Unsupported(Upserted(state, row).rows) == Unsupported(state.rows)
  {
    var index := IndexOf(state.rows, row.key);
    var saved := row.(revision := state.revision + 1);
    var rows := Upserted(state, row).rows;
    if index < |state.rows| {
      assert rows == state.rows[..index] + [saved] + state.rows[index + 1..];
      UnsupportedReplaced(state.rows, index, [saved]);
    } else {
      assert rows[..|rows| - 1] == state.rows;
    }
  }

  lemma UpsertedRows(state: Stored, row: Row)
    requires RowsOk(state.rows) && row.key.Known? && RowOk(row.(revision := state.revision + 1))
    ensures RowsOk(Upserted(state, row).rows)
    ensures Overrides(Upserted(state, row).rows) ==
            Overrides(state.rows)[row.key.key := row.(revision := state.revision + 1)]
    ensures Unsupported(Upserted(state, row).rows) == Unsupported(state.rows)
  {
    hide RowOk, Overrides, Unsupported;
    var index := IndexOf(state.rows, row.key);
    var saved := row.(revision := state.revision + 1);
    var rows := Upserted(state, row).rows;
    UpsertedRowsOk(state, row);
    UpsertedUnsupported(state, row);
    OverridesAt(state.rows);
    assert rows[index] == saved;
    var m := Overrides(state.rows)[row.key.key := saved];
    forall key <- m ensures m[key] in rows && m[key].key == Known(key) {
      if key != row.key.key {
        var i :| 0 <= i < |state.rows| && state.rows[i] == Overrides(state.rows)[key];
        assert rows[i] == m[key];
      }
    }
    OverridesUnique(rows, m);
  }

  lemma DeletedRowsOk(rows: seq<Row>, left: seq<Row>, index: nat)
    requires RowsOk(rows) && index < |rows| && |left| == |rows| - 1
    requires forall i | 0 <= i < |left| :: left[i] == rows[if i < index then i else i + 1]
    ensures RowsOk(left)
  {
    hide RowOk;
    assert DistinctRows(left) by {
      forall i, j | 0 <= i < j < |left| ensures left[i].key != left[j].key {
        assert left[i] == rows[if i < index then i else i + 1] && left[j] == rows[if j < index then j else j + 1];
      }
    }
  }

  /** Where a row left after a deletion was before it. */
  function Before(i: nat, index: nat): nat {
    if i < index then i else i + 1
  }

  lemma LeftOverrides(rows: seq<Row>, left: seq<Row>, index: nat, key: Key, i: nat)
    requires DistinctRows(rows) && index < |rows| && |left| == |rows| - 1
    requires i < |left| && left[i] == rows[Before(i, index)] && left[i].key.Known?
    requires rows[index].key == Known(key)
    ensures left[i].key.key in Overrides(rows) && Overrides(rows)[left[i].key.key] == left[i] && left[i].key.key != key
  {
    hide Overrides;
    OverridesAt(rows);
  }

  lemma OverridesLeft(rows: seq<Row>, left: seq<Row>, index: nat, key: Key, other: Key)
    requires DistinctRows(rows) && index < |rows| && |left| == |rows| - 1
    requires forall i | 0 <= i < |left| :: left[i] == rows[Before(i, index)]
    requires rows[index].key == Known(key) && other in Overrides(rows) && other != key
    ensures Overrides(rows)[other] in left && Overrides(rows)[other].key == Known(other)
  {
    hide Overrides, DistinctRows;
    OverridesAt(rows);
    var i :| 0 <= i < |rows| && rows[i] == Overrides(rows)[other];
    var at := if i < index then i else i - 1;
    assert Before(at, index) == i && left[at] == rows[i];
  }

  lemma DeletedOverrides(rows: seq<Row>, left: seq<Row>, index: nat, key: Key)
    requires DistinctRows(rows) && DistinctRows(left) && index < |rows| && |left| == |rows| - 1
    requires forall i | 0 <= i < |left| :: left[i] == rows[Before(i, index)]
    requires rows[index].key == Known(key)
    ensures Overrides(left) == Overrides(rows) - {key}
  {
    hide Overrides, DistinctRows, Before;
    var m := Overrides(rows) - {key};
    forall i | 0 <= i < |left| && left[i].key.Known? ensures left[i].key.key in m && m[left[i].key.key] == left[i] {
      LeftOverrides(rows, left, index, key, i);
    }
    forall other <- m ensures m[other] in left && m[other].key == Known(other) {
      OverridesLeft(rows, left, index, key, other);
    }
    OverridesUnique(left, m);
  }

  lemma DeletedRows(state: Stored, key: Key)
    requires RowsOk(state.rows) && IndexOf(state.rows, Known(key)) < |state.rows|
    ensures RowsOk(Deleted(state, Known(key)).rows)
    ensures Overrides(Deleted(state, Known(key)).rows) == Overrides(state.rows) - {key}
    ensures Unsupported(Deleted(state, Known(key)).rows) == Unsupported(state.rows)
  {
    hide RowOk, Overrides, Unsupported, IndexOf;
    var index := IndexOf(state.rows, Known(key));
    var rows := Deleted(state, Known(key)).rows;
    DeletedRowsOk(state.rows, rows, index);
    assert rows == state.rows[..index] + [] + state.rows[index + 1..];
    UnsupportedReplaced(state.rows, index, []);
    DeletedOverrides(state.rows, rows, index, key);
  }

  /** Revisions and actors of rows do not influence what the settings are. */
  lemma RevisionsDoNotMatter(c: Context, revision: int, overrides: map<Key, Row>, unsupported: seq<(string, int)>,
                             row: Row, saved: Row)
    requires ContextOk(c) && row.key.Known? && saved == row.(revision := saved.revision, actor := saved.actor)
    requires OverridesOk(overrides[row.key.key := row]) && OverridesOk(overrides[row.key.key := saved])
    ensures Accepted(c, overrides[row.key.key := row]) == Accepted(c, overrides[row.key.key := saved])
    ensures Assembled(c, saved.revision, overrides[row.key.key := saved], unsupported) ==
            Patched(Assembled(c, revision, overrides[row.key.key := row], unsupported), row.key.key, saved)
  {
    hide ChecksOk, EmailRuleOk, Effective, Complete, RowOk, HasType;
    var key := row.key.key;
    var before, after := overrides[key := row], overrides[key := saved];
    assert Fallback(before) == Fallback(after);
    var patched := Patched(Assembled(c, revision, before, unsupported), key, saved);
    assert patched.overrides == after;
    forall other: Key ensures patched.descriptions[other] == Descriptions(c, after)[other] {
    }
    assert patched.descriptions == Descriptions(c, after);
  }

  predicate ValidRevision(state: Stored) {
    state.revision >= 0
  }

  function SetRow(state: Stored, key: Key, value: Value, actor: Option<nat>): Row {
    Row(Known(key), value, Preview(state.revision), actor)
  }

  /** The overrides a set checks before it writes. */
  function SetOverrides(state: Stored, key: Key, value: Value): map<Key, Row> {
    Overrides(state.rows)[key := SetRow(state, key, value, None)]
  }

  predicate Settable(state: Stored, key: Key, value: Value) {
    ValidRevision(state) && Editable(key) && HasType(key, value) && InBounds(key, value)
  }

  lemma SetOverridesOk(state: Stored, key: Key, value: Value)
    requires RowsOk(state.rows) && Settable(state, key, value)
    ensures OverridesOk(SetOverrides(state, key, value))
    ensures Complete(Fallback(SetOverrides(state, key, value)))
  {
    OverridesAreOk(state.rows);
    OverrideSet(Overrides(state.rows), SetRow(state, key, value, None));
    FallbackComplete(SetOverrides(state, key, value));
  }

  lemma BuiltFrom(c: Context, state: Stored, overrides: map<Key, Row>)
    requires ContextOk(c) && RowsOk(state.rows) && overrides == Overrides(state.rows)
    requires OverridesOk(overrides) && Accepted(c, overrides)
    ensures Built(c, state) == Ok(Assembled(c, state.revision, overrides, Unsupported(state.rows)))
  {
  }

  /** What the replica publishes after a set is what a reload of the new state would build. */
  lemma SetPublishesReload(c: Context, state: Stored, key: Key, value: Value, actor: Option<nat>)
    requires ContextOk(c) && RowsOk(state.rows) && Settable(state, key, value)
    requires OverridesOk(SetOverrides(state, key, value)) && Accepted(c, SetOverrides(state, key, value))
    ensures Built(c, Upserted(state, SetRow(state, key, value, actor))) ==
            Ok(Patched(Assembled(c, state.revision, SetOverrides(state, key, value), Unsupported(state.rows)),
                       key, SetRow(state, key, value, actor).(revision := state.revision + 1)))
  {
    hide Accepted, Built, Overrides, Unsupported, RowsOk, Assembled, Patched, IndexOf;
    var row := SetRow(state, key, value, None);
    var saved := SetRow(state, key, value, actor).(revision := state.revision + 1);
    UpsertedRows(state, SetRow(state, key, value, actor));
    OverridesAreOk(state.rows);
    OverrideSet(Overrides(state.rows), saved);
    RevisionsDoNotMatter(c, state.revision, Overrides(state.rows), Unsupported(state.rows), row, saved);
    BuiltFrom(c, Upserted(state, SetRow(state, key, value, actor)), Overrides(state.rows)[key := saved]);
  }

  lemma ClearPublishesReload(c: Context, state: Stored, key: Key)
    requires ContextOk(c) && RowsOk(state.rows) && IndexOf(state.rows, Known(key)) < |state.rows|
    requires OverridesOk(Overrides(state.rows) - {key}) && Accepted(c, Overrides(state.rows) - {key})
    ensures Built(c, Deleted(state, Known(key))) ==
            Ok(Assembled(c, state.revision + 1, Overrides(state.rows) - {key}, Unsupported(state.rows)))
  {
    hide Accepted, Built, Overrides, Unsupported, RowsOk, Assembled, OverridesOk, IndexOf;
    DeletedRows(state, key);
    BuiltFrom(c, Deleted(state, Known(key)), Overrides(state.rows) - {key});
  }

  /** A set accepted by its group's masks breaks no projection. */
  lemma SetUnharmed(c: Context, state: Stored, key: Key, value: Value, actor: Option<nat>)
    requires ContextOk(c) && RowsOk(state.rows) && Settable(state, key, value)
    requires Complete(Fallback(Overrides(state.rows))) && Complete(Fallback(SetOverrides(state, key, value)))
    requires GroupSafe(c, key, Fallback(SetOverrides(state, key, value)))
    ensures Fallback(Overrides(Upserted(state, SetRow(state, key, value, actor)).rows)) ==
        Fallback(SetOverrides(state, key, value))
    ensures NoneBroken(c, Fallback(Overrides(state.rows)), Fallback(SetOverrides(state, key, value)))
  {
    hide Overrides, Unsupported, RowsOk, Complete, MaskValid, NoneBroken, KeysOf, Pow2, GroupOf, IndexOf;
    UpsertedRows(state, SetRow(state, key, value, actor));
    OneGroupIsEnough(c, Fallback(Overrides(state.rows)), Fallback(SetOverrides(state, key, value)), key);
  }

  /** A clear accepted by its group's masks breaks no projection. */
  lemma ClearUnharmed(c: Context, state: Stored, key: Key)
    requires ContextOk(c) && RowsOk(state.rows) && IndexOf(state.rows, Known(key)) < |state.rows|
    requires Complete(Fallback(Overrides(state.rows))) && Complete(Fallback(Overrides(state.rows) - {key}))
    requires GroupUnharmed(c, key, Fallback(Overrides(state.rows)), Fallback(Overrides(state.rows) - {key}))
    ensures Fallback(Overrides(Deleted(state, Known(key)).rows)) == Fallback(Overrides(state.rows) - {key})
    ensures NoneBroken(c, Fallback(Overrides(state.rows)), Fallback(Overrides(state.rows) - {key}))
  {
    hide Overrides, Unsupported, RowsOk, Complete, NoNewInvalid, NoneBroken, GroupOf, IndexOf;
    DeletedRows(state, key);
    OneGroupIsEnough(c, Fallback(Overrides(state.rows)), Fallback(Overrides(state.rows) - {key}), key);
  }

  // Runs

  /** Every state the store has held, oldest first, and each replica's published snapshot. */
  datatype Sys = Sys(history: seq<Stored>, replicas: map<nat, Snapshot>)

  /** Positions in the history say which state a replica's read returned; None is a failed read.
      Other replicas' writes may lie between the read and the replica's own write. */
  datatype Action =
    | Set(replica: nat, loaded: Option<nat>, refreshed: Option<nat>,
          key: StoredKey, parsed: Option<Value>, actor: Option<nat>, expected: int)
    | Clear(replica: nat, loaded: Option<nat>, refreshed: Option<nat>, key: StoredKey, actor: Option<nat>,
            expected: int)
    | Reconcile(replica: nat, loaded: Option<nat>)

  function Read(history: seq<Stored>, at: Option<nat>): Option<Stored> {
    if at.Some? && at.value < |history| then Some(history[at.value]) else None
  }

  function Latest(s: Sys): Stored
    requires s.history != []
  {
    s.history[|s.history| - 1]
  }

  ghost function Step(c: Context, s: Sys, action: Action): Outcome
    requires ContextOk(c) && s.history != [] && action.replica in s.replicas
  {
    var current := s.replicas[action.replica];
    match action
    case Set(_, loaded, refreshed, key, parsed, actor, expected) =>
      SetOutcome(c, current, Latest(s), Read(s.history, loaded), Read(s.history, refreshed), key, parsed, actor,
                 expected)
    case Clear(_, loaded, refreshed, key, actor, expected) =>
      ClearOutcome(c, current, Latest(s), Read(s.history, loaded), Read(s.history, refreshed), key, actor, expected)
    case Reconcile(_, loaded) =>
      Outcome(Reconciled(c, current, Read(s.history, loaded)), Latest(s), Err(LoadFailed))
  }

  ghost function Apply(c: Context, s: Sys, action: Action): Sys
    requires ContextOk(c)
  {
    if s.history == [] || action.replica !in s.replicas then s
    else
      var outcome := Step(c, s, action);
      Sys(if outcome.state == Latest(s) then s.history else s.history + [outcome.state],
          s.replicas[action.replica := outcome.current])
  }

  ghost function Run(c: Context, s: Sys, actions: seq<Action>): Sys
    requires ContextOk(c)
    decreases |actions|
  {
    if actions == [] then s else Run(c, Apply(c, s, actions[0]), actions[1..])
  }

  /** A snapshot is the reload of the stored state with its revision. */
  ghost predicate IsReload(c: Context, history: seq<Stored>, snapshot: Snapshot)
    requires ContextOk(c) && history != []
  {
    var at := snapshot.revision - history[0].revision;
    0 <= at < |history| && Built(c, history[at]) == Ok(snapshot)
  }

  ghost predicate HistoryOk(c: Context, history: seq<Stored>)
    requires ContextOk(c)
  {
    && history != [] && ValidRevision(history[0])
    && forall i | 0 <= i < |history| :: history[i].revision == history[0].revision + i && Built(c, history[i]).Ok?
  }

  ghost predicate Inv(c: Context, s: Sys)
    requires ContextOk(c)
  {
    && HistoryOk(c, s.history)
    && forall replica <- s.replicas :: IsReload(c, s.history, s.replicas[replica])
  }

  /** The fallback values of a stored state that builds. */
  ghost function FallbackOfState(c: Context, state: Stored): (fallback: Values)
    requires ContextOk(c) && Built(c, state).Ok?
    ensures Complete(fallback) && Bounded(fallback)
  {
    BuiltFacts(c, state);
    Fallback(Overrides(state.rows))
  }

  /** What one accepted write does to the store. */
  ghost predicate Written(c: Context, before: Stored, after: Stored)
    requires ContextOk(c)
  {
    && Built(c, before).Ok? && Built(c, after).Ok?
    && after.revision == before.revision + 1
    && NoneBroken(c, FallbackOfState(c, before), FallbackOfState(c, after))
  }

  /** Reading an old state and still matching the store's revision means reading the current one. */
  lemma SameRevision(c: Context, history: seq<Stored>, at: nat)
    requires ContextOk(c) && HistoryOk(c, history) && at < |history|
    requires history[at].revision == history[|history| - 1].revision
    ensures history[at] == history[|history| - 1]
  {
    hide Built;
  }

  lemma ReloadedIsReload(c: Context, history: seq<Stored>, current: Snapshot, at: Option<nat>)
    requires ContextOk(c) && HistoryOk(c, history) && IsReload(c, history, current)
    ensures IsReload(c, history, Reloaded(c, current, Read(history, at)))
    ensures IsReload(c, history, Reconciled(c, current, Read(history, at)))
  {
    hide Built;
    if Read(history, at).Some? {
      BuiltRevision(c, history[at.value]);
    }
  }

  lemma BuiltRevision(c: Context, state: Stored)
    requires ContextOk(c) && Built(c, state).Ok?
    ensures RowsOk(state.rows) && Built(c, state).value.revision == state.revision
  {
  }

  /** Where a replica may end up when a write is refused. */
  ghost predicate Refused(c: Context, current: Snapshot, state: Stored, loaded: Option<Stored>,
                          refreshed: Option<Stored>, outcome: Outcome)
    requires ContextOk(c)
  {
    && outcome.state == state
    && (outcome.current == current || outcome.current == Reloaded(c, current, loaded) ||
        outcome.current == Reloaded(c, Reloaded(c, current, loaded), refreshed))
  }

  lemma SetRefused(c: Context, current: Snapshot, state: Stored, loaded: Option<Stored>, refreshed: Option<Stored>,
                   key: StoredKey, parsed: Option<Value>, actor: Option<nat>, expected: int)
    requires ContextOk(c)
    requires SetOutcome(c, current, state, loaded, refreshed, key, parsed, actor, expected).result.Err?
    ensures Refused(c, current, state, loaded, refreshed,
                    SetOutcome(c, current, state, loaded, refreshed, key, parsed, actor, expected))
  {
    hide Built, CheckedSet, Accepted, Assembled, Patched, Upserted, Unchanged, Fallback, OverridesOk, Complete;
    hide GroupSafe;
  }

  lemma ClearRefused(c: Context, current: Snapshot, state: Stored, loaded: Option<Stored>, refreshed: Option<Stored>,
                     key: StoredKey, actor: Option<nat>, expected: int)
    requires ContextOk(c)
    requires ClearOutcome(c, current, state, loaded, refreshed, key, actor, expected).result.Err?
    ensures Refused(c, current, state, loaded, refreshed,
                    ClearOutcome(c, current, state, loaded, refreshed, key, actor, expected))
  {
    hide Built, CheckedClear, Accepted, Assembled, Deleted, Unchanged, Fallback, OverridesOk, Complete, GroupUnharmed;
  }

  /** What an accepted write did. */
  ghost predicate Published(c: Context, state: Stored, outcome: Outcome)
    requires ContextOk(c)
  {
    Written(c, state, outcome.state) && Built(c, outcome.state) == Ok(outcome.current)
  }

  lemma WrittenFrom(c: Context, before: Stored, after: Stored, fallback: Values)
    requires ContextOk(c) && Built(c, before).Ok? && Built(c, after).Ok? && after.revision == before.revision + 1
    requires fallback == Fallback(Overrides(after.rows)) && Complete(fallback)
    requires Complete(Fallback(Overrides(before.rows))) && NoneBroken(c, Fallback(Overrides(before.rows)), fallback)
    ensures Written(c, before, after)
  {
    hide Built, Complete, NoneBroken;
  }

  lemma SetAccepted(c: Context, current: Snapshot, state: Stored, refreshed: Option<Stored>, key: StoredKey,
                    parsed: Option<Value>, actor: Option<nat>, expected: int)
    requires ContextOk(c) && ValidRevision(state) && Built(c, state).Ok?
    requires SetOutcome(c, current, state, Some(state), refreshed, key, parsed, actor, expected).result.Ok?
    ensures Published(c, state, SetOutcome(c, current, state, Some(state), refreshed, key, parsed, actor, expected))
  {
    var outcome := SetOutcome(c, current, state, Some(state), refreshed, key, parsed, actor, expected);
    BuiltFacts(c, state);
    BuiltRevision(c, state);
    hide Built, HasType, InBounds, Editable, Accepted, Fallback, OverridesOk, Complete, GroupSafe, NoneBroken;
    hide RowsOk, Overrides, Unsupported, ContextOk, Preview, IndexOf, Patched, Unchanged, Bounded;
    var value := parsed.value;
    SetOverridesOk(state, key.key, value);
    SetPublishesReload(c, state, key.key, value, actor);
    SetUnharmed(c, state, key.key, value, actor);
    WrittenFrom(c, state, outcome.state, Fallback(SetOverrides(state, key.key, value)));
  }

  lemma ClearAccepted(c: Context, current: Snapshot, state: Stored, refreshed: Option<Stored>, key: StoredKey,
                      actor: Option<nat>, expected: int)
    requires ContextOk(c) && Built(c, state).Ok?
    requires ClearOutcome(c, current, state, Some(state), refreshed, key, actor, expected).result.Ok?
    ensures Published(c, state, ClearOutcome(c, current, state, Some(state), refreshed, key, actor, expected))
  {
    var outcome := ClearOutcome(c, current, state, Some(state), refreshed, key, actor, expected);
    BuiltFacts(c, state);
    BuiltRevision(c, state);
    hide Built, Editable, Accepted, Fallback, OverridesOk, Complete, GroupUnharmed, NoneBroken, RowsOk;
    hide Overrides, Unsupported, ContextOk, IndexOf, Unchanged, Bounded;
    var overrides := Overrides(state.rows) - {key.key};
    OverrideCleared(Overrides(state.rows), key.key);
    FallbackComplete(overrides);
    ClearPublishesReload(c, state, key.key);
    ClearUnharmed(c, state, key.key);
    WrittenFrom(c, state, outcome.state, Fallback(overrides));
  }

  lemma RefusedKept(c: Context, s: Sys, replica: nat, loaded: Option<nat>, refreshed: Option<nat>, outcome: Outcome)
    requires ContextOk(c) && Inv(c, s) && replica in s.replicas
    requires Refused(c, s.replicas[replica], Latest(s), Read(s.history, loaded), Read(s.history, refreshed), outcome)
    ensures outcome.state == Latest(s) && IsReload(c, s.history, outcome.current)
  {
    hide Built, Reloaded, IsReload, Read;
    ReloadedIsReload(c, s.history, s.replicas[replica], loaded);
    ReloadedIsReload(c, s.history, Reloaded(c, s.replicas[replica], Read(s.history, loaded)), refreshed);
  }

  /** A step either leaves the store alone, publishing the reload of a stored state, or writes and
      publishes the reload of what it wrote. */
  ghost predicate StepOk(c: Context, s: Sys, outcome: Outcome)
    requires ContextOk(c) && s.history != []
  {
    || (outcome.state == Latest(s) && IsReload(c, s.history, outcome.current))
    || Published(c, Latest(s), outcome)
  }

  lemma StepIsOk(c: Context, s: Sys, action: Action)
    requires ContextOk(c) && Inv(c, s) && action.replica in s.replicas
    ensures StepOk(c, s, Step(c, s, action))
  {
    hide SetOutcome, ClearOutcome, Built, Written, Refused, Reloaded, Reconciled;
    var current := s.replicas[action.replica];
    var state, outcome := Latest(s), Step(c, s, action);
    match action
    case Set(_, loaded, refreshed, key, parsed, actor, expected) =>
      if outcome.result.Err? {
        SetRefused(c, current, state, Read(s.history, loaded), Read(s.history, refreshed), key, parsed, actor,
                   expected);
        RefusedKept(c, s, action.replica, loaded, refreshed, outcome);
      } else {
        SetReadLatest(c, s, action);
        SetAccepted(c, current, state, Read(s.history, refreshed), key, parsed, actor, expected);
      }
    case Clear(_, loaded, refreshed, key, actor, expected) =>
      if outcome.result.Err? {
        ClearRefused(c, current, state, Read(s.history, loaded), Read(s.history, refreshed), key, actor, expected);
        RefusedKept(c, s, action.replica, loaded, refreshed, outcome);
      } else {
        ClearReadLatest(c, s, action);
        ClearAccepted(c, current, state, Read(s.history, refreshed), key, actor, expected);
      }
    case Reconcile(_, loaded) => ReloadedIsReload(c, s.history, current, loaded);
  }

  lemma SetReadLatest(c: Context, s: Sys, action: Action)
    requires ContextOk(c) && Inv(c, s) && action.Set? && action.replica in s.replicas && Step(c, s, action).result.Ok?
    ensures ValidRevision(Latest(s)) && Read(s.history, action.loaded) == Some(Latest(s))
  {
    hide Accepted, Assembled, Patched, Upserted, Fallback, OverridesOk, Complete, GroupSafe, CheckedSet, IsReload;
    hide Built, IndexOf;
    BuiltRevision(c, s.history[action.loaded.value]);
    SameRevision(c, s.history, action.loaded.value);
  }

  lemma ClearReadLatest(c: Context, s: Sys, action: Action)
    requires ContextOk(c) && Inv(c, s) && action.Clear? && action.replica in s.replicas && Step(c, s, action).result.Ok?
    ensures Read(s.history, action.loaded) == Some(Latest(s))
  {
    hide Accepted, Assembled, Deleted, Fallback, OverridesOk, Complete, GroupUnharmed, CheckedClear, IsReload;
    hide Built, IndexOf;
    BuiltRevision(c, s.history[action.loaded.value]);
    SameRevision(c, s.history, action.loaded.value);
  }

  /** Every invariant, and what happened to the store. */
  lemma StepKept(c: Context, s: Sys, action: Action)
    requires ContextOk(c) && Inv(c, s)
    ensures Inv(c, Apply(c, s, action))
    ensures var t := Apply(c, s, action);
      t.history == s.history || (|t.history| == |s.history| + 1 && t.history[..|s.history|] == s.history &&
                                 Written(c, Latest(s), Latest(t)))
  {
    hide Step, Built, NoneBroken, FallbackOfState;
    if action.replica in s.replicas {
      StepIsOk(c, s, action);
      var outcome := Step(c, s, action);
      if outcome.state != Latest(s) {
        BuiltRevision(c, outcome.state);
      }
    }
  }

  /** No projection valid at a stored state is invalid at a later one. */
  ghost predicate Improves(c: Context, history: seq<Stored>)
    requires ContextOk(c) && HistoryOk(c, history)
  {
    forall i, j | 0 <= i <= j < |history| ::
        NoneBroken(c, FallbackOfState(c, history[i]), FallbackOfState(c, history[j]))
  }

  lemma ImprovesKept(c: Context, history: seq<Stored>, next: Stored)
    requires ContextOk(c) && HistoryOk(c, history) && Improves(c, history)
    requires Written(c, history[|history| - 1], next)
    ensures HistoryOk(c, history + [next]) && Improves(c, history + [next])
  {
    hide Built, FallbackOfState, ValidWith;
    var longer := history + [next];
    forall i, j | 0 <= i <= j < |longer|
      ensures NoneBroken(c, FallbackOfState(c, longer[i]), FallbackOfState(c, longer[j]))
    {
      if i < |history| {
        assert NoneBroken(c, FallbackOfState(c, longer[i]), FallbackOfState(c, history[|history| - 1]));
      }
    }
  }

  lemma StepImproves(c: Context, s: Sys, action: Action)
    requires ContextOk(c) && Inv(c, s) && Improves(c, s.history)
    ensures Inv(c, Apply(c, s, action)) && Improves(c, Apply(c, s, action).history)
    ensures Apply(c, s, action).history[0] == s.history[0] && Apply(c, s, action).replicas.Keys == s.replicas.Keys
  {
    hide Built, Written, NoneBroken, FallbackOfState, IsReload, Step, Improves;
    var t := Apply(c, s, action);
    StepKept(c, s, action);
    if t.history != s.history {
      ImprovesKept(c, s.history, Latest(t));
      assert t.history == s.history + [Latest(t)];
    }
  }

  lemma {:induction false} RunKept(c: Context, s: Sys, actions: seq<Action>)
    requires ContextOk(c) && Inv(c, s) && Improves(c, s.history)
    ensures Inv(c, Run(c, s, actions)) && Improves(c, Run(c, s, actions).history)
    ensures Run(c, s, actions).history[0] == s.history[0] && Run(c, s, actions).replicas.Keys == s.replicas.Keys
    decreases |actions|
  {
    hide Improves, HistoryOk, IsReload, Apply;
    if actions != [] {
      StepImproves(c, s, actions[0]);
      RunKept(c, Apply(c, s, actions[0]), actions[1..]);
    }
  }

  /** Replicas that have just loaded one stored state. */
  ghost function Started(c: Context, initial: Stored, replicas: set<nat>): Sys
    requires ContextOk(c) && Built(c, initial).Ok?
  {
    Sys([initial], map replica | replica in replicas :: Built(c, initial).value)
  }

  lemma StartedOk(c: Context, initial: Stored, replicas: set<nat>)
    requires ContextOk(c) && Built(c, initial).Ok? && ValidRevision(initial)
    ensures Inv(c, Started(c, initial, replicas)) && Improves(c, Started(c, initial, replicas).history)
  {
    hide Built, ValidWith;
    BuiltRevision(c, initial);
  }

  /** Whatever the replicas do, every stored state builds, and every published snapshot is the
      full reload of the stored state with its revision. */
  lemma SnapshotsAreReloads(c: Context, initial: Stored, replicas: set<nat>, actions: seq<Action>)
    requires ContextOk(c) && Built(c, initial).Ok? && ValidRevision(initial)
    ensures var s := Run(c, Started(c, initial, replicas), actions);
      && (forall state <- s.history :: Built(c, state).Ok?)
      && (forall replica <- s.replicas ::
            exists state :: state in s.history && state.revision == s.replicas[replica].revision &&
                            Built(c, state) == Ok(s.replicas[replica]))
  {
    hide Built;
    var s := Run(c, Started(c, initial, replicas), actions);
    StartedOk(c, initial, replicas);
    RunKept(c, Started(c, initial, replicas), actions);
    forall replica <- s.replicas
      ensures exists state :: state in s.history && state.revision == s.replicas[replica].revision &&
                              Built(c, state) == Ok(s.replicas[replica])
    {
      assert IsReload(c, s.history, s.replicas[replica]);
      var state := s.history[s.replicas[replica].revision - s.history[0].revision];
      assert state in s.history;
    }
  }

  /** An accepted write takes the next revision, and the replica that made it publishes the full
      reload of what the store now holds. */
  lemma WritesPublishReloads(c: Context, initial: Stored, replicas: set<nat>, actions: seq<Action>, action: Action)
    requires ContextOk(c) && Built(c, initial).Ok? && ValidRevision(initial)
    requires !action.Reconcile? && action.replica in replicas
    ensures var s := Run(c, Started(c, initial, replicas), actions);
      && s.history != [] && action.replica in s.replicas
      && (Step(c, s, action).result.Ok? ==>
            var t := Apply(c, s, action);
            && t.history[..|t.history| - 1] == s.history && Latest(t).revision == Latest(s).revision + 1
            && Built(c, Latest(t)) == Ok(t.replicas[action.replica]))
  {
    hide Built, IsReload, Improves, SetOutcome, ClearOutcome, NoneBroken;
    var s := Run(c, Started(c, initial, replicas), actions);
    StartedOk(c, initial, replicas);
    RunKept(c, Started(c, initial, replicas), actions);
    if Step(c, s, action).result.Ok? {
      match action
      case Set(_, _, refreshed, key, parsed, actor, expected) =>
        SetReadLatest(c, s, action);
        SetAccepted(c, s.replicas[action.replica], Latest(s), Read(s.history, refreshed), key, parsed, actor, expected);
      case Clear(_, _, refreshed, key, actor, expected) =>
        ClearReadLatest(c, s, action);
        ClearAccepted(c, s.replicas[action.replica], Latest(s), Read(s.history, refreshed), key, actor, expected);
    }
  }

  /** Texts of the default settings read as the source reads them. */
  predicate ReadsDefaults(c: Context) {
    c.safeReturn("/") && c.rotation("24h") == Some(DAY) && c.events("") == []
  }

  predicate AllDefault(v: Values) {
    forall key: Key :: key in v && v[key] == Default(key)
  }

  lemma DefaultSession(c: Context, v: Values)
    requires ReadsDefaults(c) && AllDefault(v)
    ensures TypedOn(v, SessionGroup) && SessionValuesOk(c, v)
  {
    assert v[AccessTokenTTL] == Number(10) && v[SessionTTL] == Number(60) && v[RefreshTokenTTL] == Number(14);
    assert v[Rotation] == Text("24h") && v[RecentAuthenticationWindow] == Span(10 * MINUTE);
    assert v[RecentAuthenticationEnabled] == Flag(true);
  }

  lemma DefaultWebhook(c: Context, v: Values)
    requires ReadsDefaults(c) && AllDefault(v)
    ensures TypedOn(v, TimingGroup) && TypedOn(v, EventsGroup) && WebhookValuesOk(c, v)
  {
    assert v[WebhookTimeout] == Span(5 * SECOND) && v[WebhookStaleAfter] == Span(2 * MINUTE) &&
        v[WebhookEvents] == Text("");
  }

  lemma DefaultChallenge(v: Values)
    requires AllDefault(v)
    ensures TypedOn(v, ChallengeGroup) && TypedAt(v, MaxAttempts) && TypedAt(v, MaxResends) &&
        TypedAt(v, MinimumResendInterval)
    ensures ChallengeValuesOk(v)
  {
    assert v[ChallengeTTL] == Span(30 * MINUTE) && v[VerificationCodeTTL] == Span(10 * MINUTE);
    assert v[MaxAttempts] == Number(5) && v[MaxResends] == Number(3) && v[MinimumResendInterval] == Span(30 * SECOND);
  }

  lemma DefaultsPass(c: Context, v: Values)
    requires ReadsDefaults(c) && Complete(v) && AllDefault(v)
    ensures PolicyOk(c, v)
  {
    DefaultSession(c, v);
    DefaultWebhook(c, v);
    DefaultChallenge(v);
    assert v[ReturnTo] == Text("/") && v[EmailVerificationRequired] == Flag(false);
    hide SessionValuesOk, WebhookValuesOk, ChallengeValuesOk, AllDefault, Complete;
    CompleteAt(v);
  }

  lemma DefaultLayers(c: Context, present: set<Key>)
    requires c.environment == map[]
    ensures AllDefault(Layered(Fallback(map[]), c.environment, present))
    ensures Effective(c, Fallback(map[])) == Layered(Fallback(map[]), c.environment, {})
  {
  }

  /** Where the runs begin: with nothing stored and nothing in the environment, the defaults build
      and no projection is invalid, whatever the revocation mode and the mail set-up. */
  lemma DefaultsAreSafe(c: Context)
    requires c.environment == map[] && ReadsDefaults(c)
    ensures ContextOk(c) && Built(c, Stored(0, [])).Ok? && Safe(c, FallbackOfState(c, Stored(0, [])))
  {
    var fallback := Fallback(map[]);
    assert Overrides([]) == map[];
    OverridesAreOk([]);
    FallbackComplete(map[]);
    hide Layered, Effective, Fallback, Complete, ChecksOk, EmailRuleOk, Bounded, ReadsDefaults, Overrides;
    hide Unsupported, Safe, AllDefault;
    EffectiveComplete(c, fallback);
    DefaultLayers(c, {});
    forall present: set<Key> ensures Removable(c, fallback, present) {
      DefaultLayers(c, present);
      LayeredComplete(c, fallback, present);
      DefaultsPass(c, Layered(fallback, c.environment, present));
    }
    DefaultsPass(c, Effective(c, fallback));
    SafeIsRemovable(c, fallback);
  }

  // Removing environment variables

  /** The context of a process started with only the variables in `present`. */
  function Without(c: Context, present: set<Key>): Context {
    c.(environment := map key | key in c.environment && key in present :: c.environment[key])
  }

  lemma WithoutLayers(c: Context, fallback: Values, present: set<Key>)
    ensures Effective(Without(c, present), fallback) == Layered(fallback, c.environment, present)
  {
  }

  lemma PolicyIgnoresEnvironment(c: Context, present: set<Key>, v: Values)
    requires Complete(v)
    ensures PolicyOk(Without(c, present), v) == PolicyOk(c, v)
  {
  }

  ghost predicate EmailRuleWith(c: Context, fallback: Values, present: set<Key>)
    requires Complete(fallback) && ContextOk(c)
  {
    LayeredComplete(c, fallback, present);
    CompleteAt(Layered(fallback, c.environment, present));
    EmailRuleOk(c, Layered(fallback, c.environment, present))
  }

  lemma StateRemovable(c: Context, state: Stored, present: set<Key>)
    requires ContextOk(c) && Built(c, state).Ok? && Safe(c, FallbackOfState(c, state))
    ensures Built(Without(c, present), state).Ok? <==> EmailRuleWith(c, FallbackOfState(c, state), present)
  {
    hide Complete, Bounded, Overrides, RowsOk, OverridesOk, Fallback, Layered, ChecksOk, EmailRuleOk, Safe;
    var fallback := FallbackOfState(c, state);
    BuiltFacts(c, state);
    WithoutLayers(c, fallback, present);
    LayeredComplete(c, fallback, present);
    EffectiveComplete(c, fallback);
    SafeIsRemovable(c, fallback);
    assert Removable(c, fallback, present);
    PolicyIgnoresEnvironment(c, present, Layered(fallback, c.environment, present));
  }

  /** From a state with no invalid projection, after any run and for any environment variables
      taken away: a process still starts on any stored state, exactly when the one rule outside the
      projections, on required email verification, allows it. */
  lemma RemovalStaysSafe(c: Context, initial: Stored, replicas: set<nat>, actions: seq<Action>, at: nat,
                         present: set<Key>)
    requires ContextOk(c) && Built(c, initial).Ok? && ValidRevision(initial) && Safe(c, FallbackOfState(c, initial))
    ensures var history := Run(c, Started(c, initial, replicas), actions).history;
      at < |history| ==>
        && Built(c, history[at]).Ok?
        && (Built(Without(c, present), history[at]).Ok? <==> EmailRuleWith(c, FallbackOfState(c, history[at]), present))
  {
    hide Built, FallbackOfState, EmailRuleWith, ValidWith, IsReload;
    StartedOk(c, initial, replicas);
    RunKept(c, Started(c, initial, replicas), actions);
    var history := Run(c, Started(c, initial, replicas), actions).history;
    if at < |history| {
      assert NoneBroken(c, FallbackOfState(c, history[0]), FallbackOfState(c, history[at]));
      StateRemovable(c, history[at], present);
    }
  }

  lemma ChecksIgnoreEmail(c: Context, v: Values, w: Values)
    requires Complete(v) && Complete(w) && SameOff(v, w, EmailVerificationRequired)
    ensures ChecksOk(c, v) == ChecksOk(c, w)
  {
    CompleteAt(v);
    CompleteAt(w);
    hide ValidSession, ValidWebhook, ValidChallenge, Complete, HasType;
    assert v[ReturnTo] == w[ReturnTo] && v[AccessTokenTTL] == w[AccessTokenTTL] && v[SessionTTL] == w[SessionTTL]
      && v[RefreshTokenTTL] == w[RefreshTokenTTL] && v[Rotation] == w[Rotation]
      && v[RecentAuthenticationWindow] == w[RecentAuthenticationWindow] && v[WebhookEvents] == w[WebhookEvents]
      && v[WebhookTimeout] == w[WebhookTimeout] && v[WebhookStaleAfter] == w[WebhookStaleAfter]
      && v[ChallengeTTL] == w[ChallengeTTL] && v[VerificationCodeTTL] == w[VerificationCodeTTL]
      && v[MaxAttempts] == w[MaxAttempts] && v[MaxResends] == w[MaxResends]
      && v[MinimumResendInterval] == w[MinimumResendInterval];
  }

  /** Email verification required, with the challenge flows enabled by the environment only. */
  predicate ChallengeFromEnvironment(c: Context) {
    && c.emailDeliverable && EmailVerificationRequired !in c.environment
    && ChallengeEnabled in c.environment && c.environment[ChallengeEnabled] == Flag(true)
  }

  lemma BuiltAccepted(c: Context, state: Stored)
    requires ContextOk(c) && Built(c, state).Ok?
    ensures OverridesOk(Overrides(state.rows)) && Accepted(c, Overrides(state.rows))
  {
    OverridesAreOk(state.rows);
  }

  lemma EffectiveAfter(c: Context, overrides: map<Key, Row>, key: Key, row: Row)
    requires key !in c.environment
    ensures SameOff(Effective(c, Fallback(overrides)), Effective(c, Fallback(overrides[key := row])), key)
    ensures Effective(c, Fallback(overrides[key := row]))[key] == row.value
  {
  }

  lemma RequireEmail(c: Context, overrides: map<Key, Row>, row: Row)
    requires ContextOk(c) && ChallengeFromEnvironment(c) && row.value == Flag(true)
    requires OverridesOk(overrides) && Accepted(c, overrides)
    requires OverridesOk(overrides[EmailVerificationRequired := row])
    ensures Accepted(c, overrides[EmailVerificationRequired := row])
  {
    var after := overrides[EmailVerificationRequired := row];
    hide ChecksOk, OverridesOk, Complete, Fallback, Bounded;
    FallbackComplete(overrides);
    FallbackComplete(after);
    EffectiveComplete(c, Fallback(overrides));
    EffectiveComplete(c, Fallback(after));
    EffectiveAfter(c, overrides, EmailVerificationRequired, row);
    ChecksIgnoreEmail(c, Effective(c, Fallback(overrides)), Effective(c, Fallback(after)));
    CompleteAt(Effective(c, Fallback(after)));
  }

  lemma NotOverridden(overrides: map<Key, Row>, key: Key)
    requires OverridesOk(overrides) && !Editable(key)
    ensures key !in overrides
  {
  }

  lemma EmailRuleBroken(c: Context, state: Stored)
    requires ContextOk(c) && ContextOk(Without(c, c.environment.Keys - {ChallengeEnabled}))
    requires ChallengeFromEnvironment(c) && RowsOk(state.rows)
    requires EmailVerificationRequired in Overrides(state.rows)
    requires Overrides(state.rows)[EmailVerificationRequired].value == Flag(true)
    ensures Built(Without(c, c.environment.Keys - {ChallengeEnabled}), state).Err?
  {
    OverridesAreOk(state.rows);
    var fallback := Fallback(Overrides(state.rows));
    FallbackComplete(Overrides(state.rows));
    var d := Without(c, c.environment.Keys - {ChallengeEnabled});
    EffectiveComplete(d, fallback);
    NotOverridden(Overrides(state.rows), ChallengeEnabled);
    hide ChecksOk, Overrides, RowsOk, OverridesOk, Complete;
    CompleteAt(Effective(d, fallback));
    assert !EmailRuleOk(d, Effective(d, fallback));
  }

  lemma EmailSetWrites(c: Context, current: Snapshot, state: Stored, actor: nat)
    requires ContextOk(c) && Built(c, state).Ok? && ChallengeFromEnvironment(c)
    requires Built(c, state).value == Assembled(c, state.revision, Overrides(state.rows), Unsupported(state.rows))
    requires IndexOf(state.rows, Known(EmailVerificationRequired)) == |state.rows|
    requires OverridesOk(SetOverrides(state, EmailVerificationRequired, Flag(true)))
    requires Accepted(c, SetOverrides(state, EmailVerificationRequired, Flag(true)))
    ensures var outcome := SetOutcome(c, current, state, Some(state), None, Known(EmailVerificationRequired),
                                      Some(Flag(true)), Some(actor), 0);
      outcome.result.Ok? &&
      outcome.state == Upserted(state, SetRow(state, EmailVerificationRequired, Flag(true), Some(actor)))
  {
    hide Built, Accepted, Overrides, Unsupported, OverridesOk, Fallback, Complete, Upserted, Patched, Effective;
    hide ContextOk;
  }

  /** The email rule really is outside the projections: where only the environment enables the
      challenge flows, requiring verified email is accepted, and without that one variable no
      process starts on the state it leaves. */
  lemma EmailRuleNotProjected(c: Context, current: Snapshot, state: Stored, actor: nat)
    requires ContextOk(c) && Built(c, state).Ok? && ValidRevision(state) && ChallengeFromEnvironment(c)
    requires IndexOf(state.rows, Known(EmailVerificationRequired)) == |state.rows|
    ensures var outcome := SetOutcome(c, current, state, Some(state), None, Known(EmailVerificationRequired),
                                      Some(Flag(true)), Some(actor), 0);
      outcome.result.Ok? && Built(Without(c, c.environment.Keys - {ChallengeEnabled}), outcome.state).Err?
  {
    hide Built, Accepted, Overrides, Unsupported, RowsOk, OverridesOk, Fallback, Complete, Upserted, IndexOf;
    hide SetOutcome;
    hide Assembled, Effective;
    BuiltRevision(c, state);
    BuiltFacts(c, state);
    BuiltAccepted(c, state);
    SetOverridesOk(state, EmailVerificationRequired, Flag(true));
    var row := SetRow(state, EmailVerificationRequired, Flag(true), Some(actor));
    RequireEmail(c, Overrides(state.rows), SetRow(state, EmailVerificationRequired, Flag(true), None));
    EmailSetWrites(c, current, state, actor);
    UpsertedRows(state, row);
    EmailRuleBroken(c, Upserted(state, row));
  }
}
