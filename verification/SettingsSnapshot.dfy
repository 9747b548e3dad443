/** Snapshots built from the stored overrides (internal/config/runtime_service.go). */
module SettingsSnapshot {
  import opened Wrappers
  import opened SettingsPolicy
  import opened SettingsProjection

  /** A stored key this version knows, or one written by another version. */
  datatype StoredKey = Known(key: Key) | Unknown(name: string)

  datatype Row = Row(key: StoredKey, value: Value, revision: int, actor: Option<nat>)

  /** The settings tables: one state revision and a row per override. */
  datatype Stored = Stored(revision: int, rows: seq<Row>)

  datatype Source = FromDefault | FromOperator | FromEnvironment

  datatype Description = Description(
    value: Value,
    source: Source,
    locked: bool,
    persisted: Option<Value>,
    revision: int,
    dormant: bool)

  datatype Snapshot = Snapshot(
    revision: int,
    fallback: Values,
    values: Values,
    overrides: map<Key, Row>,
    unsupported: seq<(string, int)>,
    descriptions: map<Key, Description>)

  datatype Error = MissingActor | InvalidValue | UnknownSetting | SettingLocked | RevisionConflict | LoadFailed

  /** A row buildSnapshot accepts; a value that does not decode has the wrong type here. */
  predicate RowOk(row: Row) {
    row.revision > 0 && (row.key.Known? ==>
      Editable(row.key.key) && HasType(row.key.key, row.value) && InBounds(row.key.key, row.value))
  }

  predicate DistinctRows(rows: seq<Row>) {
    forall i, j | 0 <= i < j < |rows| :: rows[i].key != rows[j].key
  }

  predicate RowsOk(rows: seq<Row>) {
    DistinctRows(rows) && forall i | 0 <= i < |rows| :: RowOk(rows[i])
  }

  function Overrides(rows: seq<Row>): map<Key, Row> {
    if rows == [] then map[]
    else
      var row := rows[|rows| - 1];
      var rest := Overrides(rows[..|rows| - 1]);
      if row.key.Known? then rest[row.key.key := row] else rest
  }

  function Unsupported(rows: seq<Row>): seq<(string, int)> {
    if rows == [] then []
    else
      var row := rows[|rows| - 1];
      var rest := Unsupported(rows[..|rows| - 1]);
      if row.key.Known? then rest else rest + [(row.key.name, row.revision)]
  }

  ghost predicate OverridesOk(overrides: map<Key, Row>) {
    forall key <- overrides ::
      var row := overrides[key];
      row.key == Known(key) && RowOk(row)
  }

  function FallbackOf(overrides: map<Key, Row>, key: Key): Value {
    if key in overrides then overrides[key].value else Default(key)
  }

  function Fallback(overrides: map<Key, Row>): (fallback: Values)
    ensures forall key: Key :: key in fallback
  {
    map key: Key | true :: FallbackOf(overrides, key)
  }

  function DescriptionOf(c: Context, overrides: map<Key, Row>, key: Key): Description {
    var stored := key in overrides;
    var explicit := key in c.environment;
    Description(
      if explicit then c.environment[key] else FallbackOf(overrides, key),
      if explicit then FromEnvironment else if stored then FromOperator else FromDefault,
      !Editable(key) || explicit,
      if stored then Some(overrides[key].value) else None,
      if stored then overrides[key].revision else 0,
      explicit && stored)
  }

  function Descriptions(c: Context, overrides: map<Key, Row>): map<Key, Description> {
    map key: Key | true :: DescriptionOf(c, overrides, key)
  }

  lemma FallbackComplete(overrides: map<Key, Row>)
    requires OverridesOk(overrides)
    ensures Complete(Fallback(overrides)) && Bounded(Fallback(overrides))
  {
    forall key: Key ensures TypedAt(Fallback(overrides), key) && InBounds(key, Fallback(overrides)[key]) {
      if key in overrides {
        assert RowOk(overrides[key]);
      }
    }
  }

  lemma EffectiveComplete(c: Context, fallback: Values)
    requires Complete(fallback) && ContextOk(c)
    ensures Complete(Effective(c, fallback))
  {
    LayeredComplete(c, fallback, c.environment.Keys);
  }

  ghost function Assembled(c: Context, revision: int, overrides: map<Key, Row>,
                           unsupported: seq<(string, int)>): Snapshot
  {
    var fallback := Fallback(overrides);
    Snapshot(revision, fallback, Effective(c, fallback), overrides, unsupported, Descriptions(c, overrides))
  }

  ghost predicate Accepted(c: Context, overrides: map<Key, Row>)
    requires ContextOk(c) && OverridesOk(overrides)
  {
    FallbackComplete(overrides);
    EffectiveComplete(c, Fallback(overrides));
    PolicyOk(c, Effective(c, Fallback(overrides)))
  }

  /** buildSnapshot. */
  ghost function Built(c: Context, state: Stored): Result<Snapshot, Error>
    requires ContextOk(c)
  {
    if !RowsOk(state.rows) then Err(InvalidValue)
    else
      OverridesAreOk(state.rows);
      if !Accepted(c, Overrides(state.rows)) then Err(InvalidValue)
      else Ok(Assembled(c, state.revision, Overrides(state.rows), Unsupported(state.rows)))
  }

  lemma {:induction false} OverridesAt(rows: seq<Row>)
    requires DistinctRows(rows)
    ensures forall i | 0 <= i < |rows| && rows[i].key.Known? ::
      rows[i].key.key in Overrides(rows) && Overrides(rows)[rows[i].key.key] == rows[i]
    ensures forall key <- Overrides(rows) ::
      Overrides(rows)[key] in rows && Overrides(rows)[key].key == Known(key)
  {
    if rows != [] {
      var init := rows[..|rows| - 1];
      OverridesAt(init);
      var row := rows[|rows| - 1];
      forall key <- Overrides(rows)
        ensures Overrides(rows)[key] in rows && Overrides(rows)[key].key == Known(key)
      {
        if row.key != Known(key) {
          assert Overrides(init)[key] in init;
        }
      }
    }
  }

  lemma OverridesAreOk(rows: seq<Row>)
    requires RowsOk(rows)
    ensures OverridesOk(Overrides(rows))
  {
    OverridesAt(rows);
  }

  /** Overrides is the only map holding exactly the known rows. */
  lemma OverridesUnique(rows: seq<Row>, m: map<Key, Row>)
    requires DistinctRows(rows)
    requires forall i | 0 <= i < |rows| && rows[i].key.Known? :: rows[i].key.key in m && m[rows[i].key.key] == rows[i]
    requires forall key <- m :: m[key] in rows && m[key].key == Known(key)
    ensures m == Overrides(rows)
  {
    OverridesAt(rows);
    forall key: Key ensures key in m <==> key in Overrides(rows) {
      if key in m {
        var i :| 0 <= i < |rows| && rows[i] == m[key];
      }
      if key in Overrides(rows) {
        var i :| 0 <= i < |rows| && rows[i] == Overrides(rows)[key];
      }
    }
    forall key <- m ensures m[key] == Overrides(rows)[key] {
      var i :| 0 <= i < |rows| && rows[i] == m[key];
    }
  }

  lemma {:induction false} UnsupportedSplit(front: seq<Row>, back: seq<Row>)
    ensures Unsupported(front + back) == Unsupported(front) + Unsupported(back)
  {
    if back == [] {
      assert front + back == front;
    } else {
      UnsupportedSplit(front, back[..|back| - 1]);
      assert (front + back)[..|front + back| - 1] == front + back[..|back| - 1];
    }
  }

  /** buildSnapshot, loop by loop: the rows are checked and sorted into known and unknown, each
      setting is layered and described, and the policy is checked. */
  method Build(c: Context, state: Stored) returns (result: Result<Snapshot, Error>)
    requires ContextOk(c)
    ensures result == Built(c, state)
  {
    var overrides: map<Key, Row> := map[];
    var unsupported := [];
    var seen: set<StoredKey> := {};
    for n := 0 to |state.rows|
      invariant RowsOk(state.rows[..n])
      invariant seen == set i | 0 <= i < n :: state.rows[i].key
      invariant overrides == Overrides(state.rows[..n]) && unsupported == Unsupported(state.rows[..n])
    {
      var row := state.rows[n];
      assert state.rows[..n + 1][..n] == state.rows[..n];
      if row.revision <= 0 || row.key in seen {
        return Err(InvalidValue);
      }
      seen := seen + {row.key};
      if row.key.Unknown? {
        unsupported := unsupported + [(row.key.name, row.revision)];
      } else if !Editable(row.key.key) || !HasType(row.key.key, row.value) || !InBounds(row.key.key, row.value) {
        return Err(InvalidValue);
      } else {
        overrides := overrides[row.key.key := row];
      }
    }
    assert state.rows[..|state.rows|] == state.rows;
    OverridesAreOk(state.rows);
    result := Assemble(c, state.revision, overrides, unsupported);
  }

  /** Default, operator and environment values of one setting. */
  method Layer(c: Context, overrides: map<Key, Row>, key: Key)
    returns (operator: Value, value: Value, description: Description)
    ensures operator == FallbackOf(overrides, key)
    ensures value == if key in c.environment then c.environment[key] else operator
    ensures description == DescriptionOf(c, overrides, key)
  {
    value := Default(key);
    var source := FromDefault;
    var locked := !Editable(key);
    var persisted: Option<Value> := None;
    var revision := 0;
    var dormant := false;
    if key in overrides {
      value := overrides[key].value;
      source := FromOperator;
      persisted := Some(value);
      revision := overrides[key].revision;
    }
    operator := value;
    if key in c.environment {
      value := c.environment[key];
      source := FromEnvironment;
      locked := true;
      dormant := persisted.Some?;
    }
    description := Description(value, source, locked, persisted, revision, dormant);
  }

  method Layers(c: Context, overrides: map<Key, Row>)
    returns (fallback: Values, values: Values, descriptions: map<Key, Description>)
    ensures fallback == Fallback(overrides) && values == Effective(c, fallback)
    ensures descriptions == Descriptions(c, overrides)
  {
    hide FallbackOf, DescriptionOf;
    fallback, values, descriptions := map[], map[], map[];
    ghost var expected := Effective(c, Fallback(overrides));
    for n := 0 to |KEYS|
      invariant forall i | 0 <= i < n :: KEYS[i] in fallback && fallback[KEYS[i]] == FallbackOf(overrides, KEYS[i])
      invariant forall i | 0 <= i < n :: KEYS[i] in values && values[KEYS[i]] == expected[KEYS[i]]
      invariant forall i | 0 <= i < n ::
        KEYS[i] in descriptions && descriptions[KEYS[i]] == DescriptionOf(c, overrides, KEYS[i])
    {
      var key := KEYS[n];
      var operator, value, description := Layer(c, overrides, key);
      fallback := fallback[key := operator];
      values := values[key := value];
      descriptions := descriptions[key := description];
    }
    forall key: Key
      ensures key in fallback && fallback[key] == FallbackOf(overrides, key)
      ensures key in values && values[key] == expected[key]
      ensures key in descriptions && descriptions[key] == DescriptionOf(c, overrides, key)
    {
      KeysAreAll(key);
    }
    assert fallback == Fallback(overrides);
    assert values == expected;
    assert descriptions == Descriptions(c, overrides);
  }

  method Assemble(c: Context, revision: int, overrides: map<Key, Row>, unsupported: seq<(string, int)>)
    returns (result: Result<Snapshot, Error>)
    requires ContextOk(c) && OverridesOk(overrides)
    ensures result ==
      if Accepted(c, overrides) then Ok(Assembled(c, revision, overrides, unsupported)) else Err(InvalidValue)
  {
    var fallback, values, descriptions := Layers(c, overrides);
    FallbackComplete(overrides);
    EffectiveComplete(c, fallback);
    if PolicyOk(c, values) {
      return Ok(Snapshot(revision, fallback, values, overrides, unsupported, descriptions));
    }
    return Err(InvalidValue);
  }

  // What a built snapshot is

  /** The values in force: the environment's, else the stored ones, else the defaults. */
  ghost predicate InForce(c: Context, rows: seq<Row>, v: Values) {
    && Complete(v)
    && (forall key <- c.environment :: key in v && v[key] == c.environment[key])
    && (forall i | 0 <= i < |rows| && rows[i].key.Known? && rows[i].key.key !in c.environment ::
          rows[i].key.key in v && v[rows[i].key.key] == rows[i].value)
    && (forall key: Key | key !in c.environment && (forall i | 0 <= i < |rows| :: rows[i].key != Known(key)) ::
          key in v && v[key] == Default(key))
  }

  lemma EffectiveInForce(c: Context, rows: seq<Row>)
    requires ContextOk(c) && RowsOk(rows)
    ensures InForce(c, rows, Effective(c, Fallback(Overrides(rows))))
  {
    OverridesAt(rows);
    OverridesAreOk(rows);
    FallbackComplete(Overrides(rows));
    EffectiveComplete(c, Fallback(Overrides(rows)));
    var v := Effective(c, Fallback(Overrides(rows)));
    hide Complete, Overrides, RowOk, Default;
    forall key: Key ensures key in Fallback(Overrides(rows)) && key in v {
    }
    forall key: Key | key !in c.environment && (forall i | 0 <= i < |rows| :: rows[i].key != Known(key))
      ensures key in v && v[key] == Default(key)
    {
      assert key !in Overrides(rows);
    }
  }

  /** One row a key, each written at some revision; those of known keys may be edited and hold a value that an
      operator may give. */
  ghost predicate RowsInOrder(rows: seq<Row>) {
    && (forall i, j | 0 <= i < j < |rows| :: rows[i].key != rows[j].key)
    && forall i | 0 <= i < |rows| ::
         && 0 < rows[i].revision
         && (rows[i].key.Known? ==> rows[i].key.key != ChallengeEnabled && Permitted(rows[i].key.key, rows[i].value))
  }

  lemma RowsInOrderIs(rows: seq<Row>)
    ensures RowsInOrder(rows) <==> RowsOk(rows)
  {
    forall i | 0 <= i < |rows|
      ensures RowOk(rows[i]) <==>
        && 0 < rows[i].revision
        && (rows[i].key.Known? ==> rows[i].key.key != ChallengeEnabled && Permitted(rows[i].key.key, rows[i].value))
    {
      if rows[i].key.Known? {
        PermittedIs(rows[i].key.key, rows[i].value);
      }
    }
    hide RowOk, Permitted;
  }

  /** The settings of other versions: their names and revisions, each from a row. */
  ghost predicate KeepsAside(rows: seq<Row>, unsupported: seq<(string, int)>) {
    && (forall i | 0 <= i < |rows| && rows[i].key.Unknown? :: (rows[i].key.name, rows[i].revision) in unsupported)
    && (forall n | 0 <= n < |unsupported| ::
          exists i | 0 <= i < |rows| ::
            rows[i].key == Unknown(unsupported[n].0) && rows[i].revision == unsupported[n].1)
  }

  lemma {:induction false} UnsupportedAre(rows: seq<Row>)
    ensures KeepsAside(rows, Unsupported(rows))
  {
    if rows != [] {
      var n := |rows| - 1;
      var rest := Unsupported(rows[..n]);
      UnsupportedAre(rows[..n]);
      forall k | 0 <= k < |Unsupported(rows)|
        ensures exists i | 0 <= i < |rows| ::
          rows[i].key == Unknown(Unsupported(rows)[k].0) && rows[i].revision == Unsupported(rows)[k].1
      {
        if k < |rest| {
          var i :| 0 <= i < n && rows[..n][i].key == Unknown(rest[k].0) && rows[..n][i].revision == rest[k].1;
          assert rows[i].key == Unknown(rest[k].0);
        } else {
          assert rows[n].key == Unknown(Unsupported(rows)[k].0);
        }
      }
      forall i | 0 <= i < |rows| && rows[i].key.Unknown?
        ensures (rows[i].key.name, rows[i].revision) in Unsupported(rows)
      {
        if i < n {
          assert rows[..n][i] == rows[i];
        }
      }
    }
  }

  /** A stored state builds exactly if its rows are in order and the values in force satisfy the policy;
      the snapshot then has those values. */
  lemma BuiltIs(c: Context, state: Stored)
    requires ContextOk(c)
    ensures Built(c, state).Ok? ==>
      && RowsInOrder(state.rows) && Built(c, state).value.revision == state.revision
      && InForce(c, state.rows, Built(c, state).value.values) && PolicyHolds(c, Built(c, state).value.values)
      && KeepsAside(state.rows, Built(c, state).value.unsupported)
    ensures Built(c, state).Err? && RowsInOrder(state.rows) ==>
      exists v :: InForce(c, state.rows, v) && !PolicyHolds(c, v)
  {
    RowsInOrderIs(state.rows);
    UnsupportedAre(state.rows);
    hide RowsInOrder, KeepsAside;
    if RowsOk(state.rows) {
      OverridesAreOk(state.rows);
      FallbackComplete(Overrides(state.rows));
      EffectiveComplete(c, Fallback(Overrides(state.rows)));
      EffectiveInForce(c, state.rows);
      PolicyIs(c, Effective(c, Fallback(Overrides(state.rows))));
      hide PolicyOk, PolicyHolds, InForce, Complete, Bounded, Effective, Fallback, Overrides, OverridesOk, RowsOk;
      hide ContextOk, Descriptions;
    }
  }

  /** A setting's description shows its value in force and says where it comes from, whether operators can
      change it and whether a stored value waits behind the environment's. */
  ghost predicate Describes(c: Context, rows: seq<Row>, snapshot: Snapshot, key: Key) {
    && key in snapshot.descriptions && key in snapshot.values
    && var d, stored := snapshot.descriptions[key], exists i | 0 <= i < |rows| :: rows[i].key == Known(key);
    && d.value == snapshot.values[key]
    && (d.source == FromEnvironment <==> key in c.environment)
    && (d.source == FromDefault <==> key !in c.environment && !stored)
    && (d.locked <==> key in c.environment || key == ChallengeEnabled)
    && (d.dormant <==> key in c.environment && stored)
    && (forall i | 0 <= i < |rows| && rows[i].key == Known(key) ::
          d.persisted == Some(rows[i].value) && d.revision == rows[i].revision)
    && (!stored ==> d.persisted.None? && d.revision == 0)
  }

  lemma StoredAt(rows: seq<Row>, key: Key)
    requires DistinctRows(rows)
    ensures key in Overrides(rows) <==> exists i | 0 <= i < |rows| :: rows[i].key == Known(key)
    ensures forall i | 0 <= i < |rows| && rows[i].key == Known(key) ::
      key in Overrides(rows) && Overrides(rows)[key] == rows[i]
  {
    OverridesAt(rows);
    hide Overrides;
    if key in Overrides(rows) {
      var i :| 0 <= i < |rows| && rows[i] == Overrides(rows)[key];
      assert rows[i].key == Known(key);
    }
  }

  lemma AssembledAt(c: Context, revision: int, overrides: map<Key, Row>, unsupported: seq<(string, int)>, key: Key)
    ensures var snapshot := Assembled(c, revision, overrides, unsupported);
      && key in snapshot.descriptions && snapshot.descriptions[key] == DescriptionOf(c, overrides, key)
      && key in snapshot.values
      && snapshot.values[key] == if key in c.environment then c.environment[key] else FallbackOf(overrides, key)
  {
    hide DescriptionOf, FallbackOf;
    assert key in Fallback(overrides);
  }

  lemma DescriptionsAre(c: Context, state: Stored, key: Key)
    requires ContextOk(c) && Built(c, state).Ok?
    ensures Describes(c, state.rows, Built(c, state).value, key)
  {
    hide Overrides, Unsupported, Accepted, RowOk, Assembled, FallbackOf;
    StoredAt(state.rows, key);
    AssembledAt(c, state.revision, Overrides(state.rows), Unsupported(state.rows), key);
  }
}
