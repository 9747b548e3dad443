/** Environment-removal projections (internal/config/runtime_service.go): a bit mask over a
    group's settings says which explicit environment variables are still present. */
module SettingsProjection {
  import opened Wrappers
  import opened SettingsPolicy
  import opened Powers

  /** Environment values of the settings in `present` over operator and default values. */
  function Layered(fallback: Values, environment: Values, present: set<Key>): Values {
    map key <- fallback :: if key in present && key in environment then environment[key] else fallback[key]
  }

  function Effective(c: Context, fallback: Values): Values {
    Layered(fallback, c.environment, c.environment.Keys)
  }

  lemma LayeredComplete(c: Context, fallback: Values, present: set<Key>)
    requires Complete(fallback) && ContextOk(c)
    ensures Complete(Layered(fallback, c.environment, present))
    ensures forall group: Group :: TypedOn(Layered(fallback, c.environment, present), group)
  {
    var v := Layered(fallback, c.environment, present);
    forall key: Key ensures TypedAt(v, key) {
      assert TypedAt(fallback, key);
    }
    CompleteAt(v);
  }

  /** `mask & (1 << index) != 0`. */
  predicate Bit(mask: nat, index: nat) {
    if index == 0 then mask % 2 == 1 else Bit(mask / 2, index - 1)
  }

  function Present(keys: seq<Key>, mask: nat): set<Key> {
    set i | 0 <= i < |keys| && Bit(mask, i) :: keys[i]
  }

  function MaskOf(keys: seq<Key>, present: set<Key>): (mask: nat)
    ensures mask < Pow2(|keys|)
  {
    if keys == [] then 0 else (if keys[0] in present then 1 else 0) + 2 * MaskOf(keys[1..], present)
  }

  /** Every set of settings is the set some mask in range selects. */
  lemma {:induction false} MaskOfBits(keys: seq<Key>, present: set<Key>, i: nat)
    requires i < |keys|
    ensures Bit(MaskOf(keys, present), i) <==> keys[i] in present
  {
    var rest := MaskOf(keys[1..], present);
    assert MaskOf(keys, present) / 2 == rest;
    if i > 0 {
      MaskOfBits(keys[1..], present, i - 1);
    }
  }

  /** The group's verdict when exactly the variables in `present` are set. */
  ghost predicate ValidWith(c: Context, group: Group, fallback: Values, present: set<Key>)
    requires Complete(fallback) && ContextOk(c)
  {
    LayeredComplete(c, fallback, present);
    GroupOk(c, group, Layered(fallback, c.environment, present))
  }

  ghost predicate MaskValid(c: Context, group: Group, fallback: Values, mask: nat)
    requires Complete(fallback) && ContextOk(c)
  {
    ValidWith(c, group, fallback, Present(KeysOf(group), mask))
  }

  lemma MaskForSet(c: Context, group: Group, fallback: Values, present: set<Key>)
    requires Complete(fallback) && ContextOk(c)
    ensures MaskOf(KeysOf(group), present) < Pow2(|KeysOf(group)|)
    ensures MaskValid(c, group, fallback, MaskOf(KeysOf(group), present)) == ValidWith(c, group, fallback, present)
  {
    var keys := KeysOf(group);
    var mask := MaskOf(keys, present);
    forall i | 0 <= i < |keys| ensures Bit(mask, i) <==> keys[i] in present {
      MaskOfBits(keys, present, i);
    }
    LayeredComplete(c, fallback, present);
    LayeredComplete(c, fallback, Present(keys, mask));
    DistinctKeys(group);
    forall key <- keys ensures key in present <==> key in Present(keys, mask) {
      var i :| 0 <= i < |keys| && keys[i] == key;
    }
    forall key <- keys ensures key in fallback {
      assert TypedAt(fallback, key);
    }
    GroupOkLocal(c, group, Layered(fallback, c.environment, present),
                 Layered(fallback, c.environment, Present(keys, mask)));
  }

  lemma DistinctKeys(group: Group)
    ensures Distinct(KeysOf(group))
  {
  }

  /** Checking every mask of a group is checking every subset of the environment. */
  lemma MasksAreSubsets(c: Context, group: Group, fallback: Values)
    requires Complete(fallback) && ContextOk(c)
    ensures (forall mask: nat | mask < Pow2(|KeysOf(group)|) :: MaskValid(c, group, fallback, mask))
       <==> (forall present: set<Key> :: ValidWith(c, group, fallback, present))
  {
    if forall mask: nat | mask < Pow2(|KeysOf(group)|) :: MaskValid(c, group, fallback, mask) {
      forall present: set<Key> ensures ValidWith(c, group, fallback, present) {
        MaskForSet(c, group, fallback, present);
      }
    }
  }

  /** No group has an invalid projection. */
  ghost predicate Safe(c: Context, fallback: Values)
    requires Complete(fallback) && ContextOk(c)
  {
    forall group: Group, present: set<Key> :: ValidWith(c, group, fallback, present)
  }

  /** Projections valid before stay valid. */
  ghost predicate NoneBroken(c: Context, before: Values, after: Values)
    requires Complete(before) && Complete(after) && ContextOk(c)
  {
    forall group: Group, present: set<Key> | ValidWith(c, group, before, present) :: ValidWith(c, group, after, present)
  }

  ghost predicate SameOff(before: Values, after: Values, key: Key) {
    forall other <- before | other != key :: other in after && after[other] == before[other]
  }

  lemma SameLayers(environment: Values, before: Values, after: Values, key: Key, group: Group, present: set<Key>)
    requires Complete(before) && SameOff(before, after, key) && GroupOf(key) != Some(group)
    ensures forall other <- KeysOf(group) ::
      && other in Layered(before, environment, present) && other in Layered(after, environment, present)
      && Layered(before, environment, present)[other] == Layered(after, environment, present)[other]
  {
    KeysOfMembers(group);
    forall other <- KeysOf(group) ensures TypedAt(before, other) && other != key {
    }
  }

  /** A change of one setting leaves the projections of every other group alone. */
  lemma OtherGroups(c: Context, before: Values, after: Values, key: Key, group: Group, present: set<Key>)
    requires Complete(before) && Complete(after) && ContextOk(c) && SameOff(before, after, key)
    requires GroupOf(key) != Some(group)
    ensures ValidWith(c, group, before, present) == ValidWith(c, group, after, present)
  {
    hide Layered, KeysOf, GroupOk, TypedOn, Complete;
    LayeredComplete(c, before, present);
    LayeredComplete(c, after, present);
    SameLayers(c.environment, before, after, key, group, present);
    GroupOkLocal(c, group, Layered(before, c.environment, present), Layered(after, c.environment, present));
  }

  /** No mask of the changed setting's group is newly invalid. */
  ghost predicate NoNewInvalid(c: Context, before: Values, after: Values, group: Group)
    requires Complete(before) && Complete(after) && ContextOk(c)
  {
    forall mask: nat | mask < Pow2(|KeysOf(group)|) && !MaskValid(c, group, after, mask) ::
        !MaskValid(c, group, before, mask)
  }

  /** Comparing the masks of the changed setting's group is comparing every subset of the
      environment under every group. */
  lemma OneGroupIsEnough(c: Context, before: Values, after: Values, key: Key)
    requires Complete(before) && Complete(after) && ContextOk(c) && SameOff(before, after, key)
    ensures NoneBroken(c, before, after) <==>
        (GroupOf(key).Some? ==> NoNewInvalid(c, before, after, GroupOf(key).value))
  {
    if GroupOf(key).Some? ==> NoNewInvalid(c, before, after, GroupOf(key).value) {
      forall group: Group, present: set<Key> | ValidWith(c, group, before, present)
        ensures ValidWith(c, group, after, present)
      {
        if GroupOf(key) == Some(group) {
          MaskForSet(c, group, before, present);
          MaskForSet(c, group, after, present);
        } else {
          OtherGroups(c, before, after, key, group, present);
        }
      }
    }
  }

  ghost predicate Bounded(values: Values)
    requires Complete(values)
  {
    forall key: Key :: TypedAt(values, key) && InBounds(key, values[key])
  }

  /** With only the variables in `present` left, every check but the email rule passes. */
  ghost predicate Removable(c: Context, fallback: Values, present: set<Key>)
    requires Complete(fallback) && ContextOk(c)
  {
    LayeredComplete(c, fallback, present);
    ChecksOk(c, Layered(fallback, c.environment, present))
  }

  /** What the projections are for: with the present policy accepted, they are all valid exactly
      when removing any environment variables leaves every check but the email rule satisfied. */
  lemma SafeIsRemovable(c: Context, fallback: Values)
    requires Complete(fallback) && Bounded(fallback) && ContextOk(c)
    requires Complete(Effective(c, fallback)) && ChecksOk(c, Effective(c, fallback))
    ensures Safe(c, fallback) <==> forall present: set<Key> :: Removable(c, fallback, present)
  {
    hide GroupOk, ChecksOk, Layered, CountsOk, TypedOn, Complete, Bounded, Effective;
    forall present: set<Key>
      ensures Removable(c, fallback, present) <==> forall group: Group :: ValidWith(c, group, fallback, present)
    {
      LayeredComplete(c, fallback, present);
      var v := Layered(fallback, c.environment, present);
      RemovalKeepsCounts(c, fallback, present);
      GroupsMakeChecks(c, v);
      forall group: Group ensures ValidWith(c, group, fallback, present) == GroupOk(c, group, v) {
      }
    }
    if forall present: set<Key> :: Removable(c, fallback, present) {
      forall group: Group, present: set<Key> ensures ValidWith(c, group, fallback, present) {
        assert Removable(c, fallback, present);
      }
    }
    if Safe(c, fallback) {
      forall present: set<Key> ensures Removable(c, fallback, present) {
        assert forall group: Group :: ValidWith(c, group, fallback, present);
      }
    }
  }

  lemma RemovalKeepsCounts(c: Context, fallback: Values, present: set<Key>)
    requires Complete(fallback) && Bounded(fallback) && ContextOk(c)
    requires Complete(Effective(c, fallback)) && ChecksOk(c, Effective(c, fallback))
    ensures Complete(Layered(fallback, c.environment, present))
    ensures CountsOk(Layered(fallback, c.environment, present))
  {
    LayeredComplete(c, fallback, present);
    CompleteAt(Layered(fallback, c.environment, present));
    CompleteAt(Effective(c, fallback));
    CompleteAt(fallback);
    assert InBounds(MaxAttempts, fallback[MaxAttempts]) && InBounds(MaxResends, fallback[MaxResends]);
    assert InBounds(MinimumResendInterval, fallback[MinimumResendInterval]);
  }

  /** The values one mask gives the group's settings. */
  method MaskValues(c: Context, group: Group, fallback: Values, mask: nat) returns (values: Values)
    requires Complete(fallback) && ContextOk(c)
    ensures forall key <- KeysOf(group) ::
      && key in values && key in fallback
      && values[key] == Layered(fallback, c.environment, Present(KeysOf(group), mask))[key]
  {
    var keys := KeysOf(group);
    DistinctKeys(group);
    ghost var present := Present(keys, mask);
    values := map[];
    var index := 0;
    while index < |keys|
      invariant 0 <= index <= |keys|
      invariant forall i | 0 <= i < index ::
        keys[i] in values && keys[i] in fallback &&
        values[keys[i]] == Layered(fallback, c.environment, present)[keys[i]]
    {
      var candidate := keys[index];
      assert TypedAt(fallback, candidate);
      assert Bit(mask, index) <==> candidate in present;
      var value := fallback[candidate];
      if Bit(mask, index) && candidate in c.environment {
        value := c.environment[candidate];
      }
      values := values[candidate := value];
      index := index + 1;
    }
  }

  method MaskInvalid(c: Context, group: Group, fallback: Values, mask: nat) returns (bad: bool)
    requires Complete(fallback) && ContextOk(c)
    ensures bad == !MaskValid(c, group, fallback, mask)
  {
    var values := MaskValues(c, group, fallback, mask);
    SameValues(c, group, fallback, Present(KeysOf(group), mask), values);
    bad := !GroupOk(c, group, values);
  }

  /** environmentRemovalProjectionErrors: entry `mask` tells whether that projection is invalid. */
  method ProjectionErrors(c: Context, key: Key, fallback: Values) returns (invalid: seq<bool>)
    requires Complete(fallback) && ContextOk(c)
    ensures GroupOf(key).None? ==> invalid == []
    ensures GroupOf(key).Some? ==> |invalid| == Pow2(|KeysOf(GroupOf(key).value)|)
    ensures GroupOf(key).Some? ==>
      forall mask | 0 <= mask < |invalid| :: invalid[mask] == !MaskValid(c, GroupOf(key).value, fallback, mask)
  {
    if GroupOf(key).None? {
      return [];
    }
    var group := GroupOf(key).value;
    var keys := KeysOf(group);
    hide KeysOf, MaskValid, ContextOk, Complete, GroupOf;
    invalid := [];
    while |invalid| < Pow2(|keys|)
      invariant |invalid| <= Pow2(|keys|)
      invariant forall mask | 0 <= mask < |invalid| :: invalid[mask] == !MaskValid(c, group, fallback, mask)
    {
      var bad := MaskInvalid(c, group, fallback, |invalid|);
      invalid := invalid + [bad];
    }
  }

  lemma SameValues(c: Context, group: Group, fallback: Values, present: set<Key>, values: Values)
    requires Complete(fallback) && ContextOk(c)
    requires forall key <- KeysOf(group) ::
      key in values && key in fallback && values[key] == Layered(fallback, c.environment, present)[key]
    ensures TypedOn(values, group) && GroupOk(c, group, values) == ValidWith(c, group, fallback, present)
  {
    LayeredComplete(c, fallback, present);
    hide Layered, KeysOf, GroupOk, TypedOn;
    forall key <- KeysOf(group) ensures TypedAt(values, key) {
      assert TypedAt(Layered(fallback, c.environment, present), key);
    }
    TypedOnKeys(values, group);
    GroupOkLocal(c, group, values, Layered(fallback, c.environment, present));
  }
}
