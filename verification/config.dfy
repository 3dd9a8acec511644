/**
 * The start-up check of the configuration file (`validate_config`).
 *
 * Three phases run in order and the first one that finds an offending key
 * fails with every key it found:
 *   1. a required key is absent;
 *   2. a value is falsy and not a bool (so `false` is accepted, `""`, `[]`,
 *      `0`, `0.0`, `{}` and null are not);
 *   3. a value's exact type differs from the type required for its key; a key
 *      that is not required has no required type, so it always fails here.
 */
module ConfigValidation {
  import opened Wrappers
  import opened Python

  /** One key/value pair of the configuration object. */
  datatype Entry = Entry(key: string, value: Value)

  /** The configuration as `json.load` returns it: a dict, in the order of its keys. */
  type Config = seq<Entry>

  /** The required keys with their required types, in the order they are checked. */
  const RequiredKeys: seq<(string, PyType)> := [
    ("bot_username", StrType),
    ("client_id", StrType),
    ("client_secret", StrType),
    ("oauth_token", StrType),
    ("channels", ListType),
    ("wait_time", IntType),
    ("verbose", BoolType)
  ]

  /**
   * The exception `validate_config` raises. Each phase logs its own message
   * per key and raises with one error per offending key, in order.
   */
  datatype ConfigError =
    | KeysMissing(keys: seq<string>)
    | ValuesEmpty(keys: seq<string>)
    | TypesMismatched(keys: seq<string>)

  /** No key occurs twice, as in every object `json.load` returns. */
  predicate DistinctKeys(config: Config)
  {
    forall i, j | 0 <= i < j < |config| :: config[i].key != config[j].key
  }

  /** `k in config`. */
  predicate HasKey(config: Config, k: string)
  {
    exists i | 0 <= i < |config| :: config[i].key == k
  }

  /** k is one of the required keys. */
  predicate IsRequired(k: string)
  {
    exists j | 0 <= j < |RequiredKeys| :: RequiredKeys[j].0 == k
  }

  /** `required_keys.get(k)`: the type required for k, None for any other key. */
  function LookupType(table: seq<(string, PyType)>, k: string): (t: Option<PyType>)
    ensures t.Some? <==> exists j | 0 <= j < |table| :: table[j].0 == k
  {
    if table == [] then None
    else if table[0].0 == k then Some(table[0].1)
    else
      var t := LookupType(table[1..], k);
      assert forall j | 1 <= j < |table| :: table[j] == table[1..][j - 1];
      t
  }

  function RequiredType(k: string): Option<PyType>
  {
    LookupType(RequiredKeys, k)
  }

  /** The names in table (in order) that config lacks. */
  function AbsentKeys(table: seq<(string, PyType)>, config: Config): seq<string>
  {
    if table == [] then []
    else (if HasKey(config, table[0].0) then [] else [table[0].0]) + AbsentKeys(table[1..], config)
  }

  /** Phase 1's list, `[k for k in required_keys if k not in config]`. */
  function MissingKeys(config: Config): seq<string>
  {
    AbsentKeys(RequiredKeys, config)
  }

  /** The keys of the entries that satisfy p, in the config's order. */
  function KeysWhere(config: Config, p: Entry -> bool): seq<string>
  {
    if config == [] then []
    else (if p(config[0]) then [config[0].key] else []) + KeysWhere(config[1..], p)
  }

  /** `not v and type(v) is not bool`. */
  predicate IsEmptyValue(e: Entry)
  {
    !Truthy(e.value) && TypeOf(e.value) != BoolType
  }

  /** `required_keys.get(k) is not type(v)`. */
  predicate HasWrongType(e: Entry)
  {
    RequiredType(e.key) != Some(TypeOf(e.value))
  }

  /** Phase 2's list of keys. */
  function EmptyValueKeys(config: Config): seq<string>
  {
    KeysWhere(config, IsEmptyValue)
  }

  /** Phase 3's list of keys. */
  function WrongTypeKeys(config: Config): seq<string>
  {
    KeysWhere(config, HasWrongType)
  }

  /** What `validate_config` returns or raises on a configuration. */
  function Validate(config: Config): (r: Result<bool, ConfigError>)
    ensures r.Success? ==> r.value
    ensures r.Failure? ==> r.error.keys != []
  {
    var missing := MissingKeys(config);
    if |missing| != 0 then Failure(KeysMissing(missing))
    else
      var empty := EmptyValueKeys(config);
      if |empty| != 0 then Failure(ValuesEmpty(empty))
      else
        var wrong := WrongTypeKeys(config);
        if |wrong| != 0 then Failure(TypesMismatched(wrong))
        else Success(true)
  }

  /** A key is reported missing exactly when it is listed in table and config lacks it. */
  lemma {:induction false} AbsentKeysMembers(table: seq<(string, PyType)>, config: Config, k: string)
    ensures k in AbsentKeys(table, config) <==>
              (exists j | 0 <= j < |table| :: table[j].0 == k) && !HasKey(config, k)
  {
    if table != [] {
      AbsentKeysMembers(table[1..], config, k);
      assert forall j | 1 <= j < |table| :: table[j] == table[1..][j - 1];
    }
  }

  /** A key is listed exactly when some entry with that key satisfies p. */
  lemma {:induction false} KeysWhereMembers(config: Config, p: Entry -> bool, k: string)
    ensures k in KeysWhere(config, p) <==>
              exists i | 0 <= i < |config| :: config[i].key == k && p(config[i])
  {
    if config != [] {
      KeysWhereMembers(config[1..], p, k);
      assert forall i | 1 <= i < |config| :: config[i] == config[1..][i - 1];
    }
  }

  /** The list of keys is empty exactly when no entry satisfies p. */
  lemma KeysWhereEmpty(config: Config, p: Entry -> bool)
    ensures KeysWhere(config, p) == [] <==> forall i | 0 <= i < |config| :: !p(config[i])
  {
    if KeysWhere(config, p) != [] {
      KeysWhereMembers(config, p, KeysWhere(config, p)[0]);
    } else {
      forall i | 0 <= i < |config|
        ensures !p(config[i])
      {
        KeysWhereMembers(config, p, config[i].key);
      }
    }
  }

  /** Every required key is present. */
  predicate AllRequiredPresent(config: Config)
  {
    forall j | 0 <= j < |RequiredKeys| :: HasKey(config, RequiredKeys[j].0)
  }

  /** No value is falsy, except a bool. */
  predicate NoEmptyValue(config: Config)
  {
    forall i | 0 <= i < |config| :: Truthy(config[i].value) || config[i].value.Bool?
  }

  /** Every value has exactly the type required for its key. */
  predicate AllTypesExact(config: Config)
  {
    forall i | 0 <= i < |config| :: RequiredType(config[i].key) == Some(TypeOf(config[i].value))
  }

  /** Phase 1 passes exactly when every required key is present. */
  lemma MissingKeysEmpty(config: Config)
    ensures MissingKeys(config) == [] <==> AllRequiredPresent(config)
  {
    if MissingKeys(config) != [] {
      AbsentKeysMembers(RequiredKeys, config, MissingKeys(config)[0]);
    } else {
      forall j | 0 <= j < |RequiredKeys|
        ensures HasKey(config, RequiredKeys[j].0)
      {
        AbsentKeysMembers(RequiredKeys, config, RequiredKeys[j].0);
      }
    }
  }

  /** Phase 2 passes exactly when no value is falsy unless it is a bool. */
  lemma EmptyValueKeysEmpty(config: Config)
    ensures EmptyValueKeys(config) == [] <==> NoEmptyValue(config)
  {
    KeysWhereEmpty(config, IsEmptyValue);
    assert forall i | 0 <= i < |config| :: IsEmptyValue(config[i]) <==> !(Truthy(config[i].value) || config[i].value.Bool?);
  }

  /** Phase 3 passes exactly when every value has its key's required type. */
  lemma WrongTypeKeysEmpty(config: Config)
    ensures WrongTypeKeys(config) == [] <==> AllTypesExact(config)
  {
    KeysWhereEmpty(config, HasWrongType);
  }

  /**
   * The configuration is accepted exactly when all required keys are present,
   * no value is falsy unless it is a bool, and every key has exactly its
   * required type (so no other key may appear).
   */
  lemma ValidateAcceptsExactly(config: Config)
    ensures Validate(config).Success? <==>
              AllRequiredPresent(config) && NoEmptyValue(config) && AllTypesExact(config)
    ensures Validate(config).Success? ==> Validate(config).value
  {
    MissingKeysEmpty(config);
    EmptyValueKeysEmpty(config);
    WrongTypeKeysEmpty(config);
  }

  /**
   * A failure comes from the first phase that finds anything, and it lists
   * every offending key of that phase and no other.
   */
  lemma ValidateReportsEveryOffender(config: Config, k: string)
    ensures Validate(config).Failure? && Validate(config).error.KeysMissing? ==>
              (k in Validate(config).error.keys <==> IsRequired(k) && !HasKey(config, k))
    ensures Validate(config).Failure? && Validate(config).error.ValuesEmpty? ==>
              && AllRequiredPresent(config)
              && (k in Validate(config).error.keys <==>
                    exists i | 0 <= i < |config| :: config[i].key == k && IsEmptyValue(config[i]))
    ensures Validate(config).Failure? && Validate(config).error.TypesMismatched? ==>
              && AllRequiredPresent(config)
              && NoEmptyValue(config)
              && (k in Validate(config).error.keys <==>
                    exists i | 0 <= i < |config| :: config[i].key == k && HasWrongType(config[i]))
    ensures Validate(config).Failure? ==> Validate(config).error.keys != []
  {
    AbsentKeysMembers(RequiredKeys, config, k);
    MissingKeysEmpty(config);
    EmptyValueKeysEmpty(config);
    KeysWhereMembers(config, IsEmptyValue, k);
    KeysWhereMembers(config, HasWrongType, k);
  }

  /** Every entry of an accepted configuration is required, non-empty and of its required type. */
  lemma ValidatedEntry(config: Config, i: int)
    requires Validate(config).Success?
    requires 0 <= i < |config|
    ensures RequiredType(config[i].key) == Some(TypeOf(config[i].value))
    ensures Truthy(config[i].value) || config[i].value.Bool?
  {
    ValidateAcceptsExactly(config);
  }

  /**
   * The values an accepted configuration holds: the channel list is a
   * non-empty list, the wait time a non-zero integer, the verbosity flag a
   * boolean, and the four credentials non-empty strings.
   */
  lemma ValidatedValues(config: Config, i: int)
    requires Validate(config).Success?
    requires 0 <= i < |config|
    ensures config[i].key == "channels" ==> config[i].value.List? && config[i].value.items != []
    ensures config[i].key == "wait_time" ==> config[i].value.Int? && config[i].value.i != 0
    ensures config[i].key == "verbose" ==> config[i].value.Bool?
    ensures config[i].key in {"bot_username", "client_id", "client_secret", "oauth_token"} ==>
              config[i].value.Str? && config[i].value.s != ""
    ensures IsRequired(config[i].key)
  {
    ValidatedEntry(config, i);
    RequiredTypeOf(config[i].key, TypeOf(config[i].value));
  }

  /** Reading back the type a known required key maps to. */
  lemma RequiredTypeOf(k: string, t: PyType)
    requires RequiredType(k) == Some(t)
    ensures k == "channels" ==> t == ListType
    ensures k == "wait_time" ==> t == IntType
    ensures k == "verbose" ==> t == BoolType
    ensures k in {"bot_username", "client_id", "client_secret", "oauth_token"} ==> t == StrType
    ensures IsRequired(k)
  {
    if k == "channels" || k == "wait_time" || k == "verbose" || k in {"bot_username", "client_id", "client_secret", "oauth_token"} {
      RequiredTypes();
    }
  }

  /** The type each required key must have, key by key. */
  lemma RequiredTypes()
    ensures RequiredType("bot_username") == Some(StrType)
    ensures RequiredType("client_id") == Some(StrType)
    ensures RequiredType("client_secret") == Some(StrType)
    ensures RequiredType("oauth_token") == Some(StrType)
    ensures RequiredType("channels") == Some(ListType)
    ensures RequiredType("wait_time") == Some(IntType)
    ensures RequiredType("verbose") == Some(BoolType)
  {
    var t := RequiredKeys;
    assert LookupType(t[6..], "verbose") == Some(BoolType);
    assert LookupType(t[5..], "wait_time") == Some(IntType);
    assert LookupType(t[4..], "channels") == Some(ListType);
    assert LookupType(t[3..], "oauth_token") == Some(StrType);
    assert LookupType(t[2..], "client_secret") == Some(StrType);
    assert LookupType(t[1..], "client_id") == Some(StrType);
  }

  /**
   * Each phase's errors list: one error per offending key, in the order the
   * comprehension produced them.
   */
  method CollectErrors(offending: seq<string>) returns (errors: seq<string>)
    ensures errors == offending
  {
    errors := [];
    for n := 0 to |offending|
      invariant errors == offending[..n]
    {
      errors := errors + [offending[n]];
    }
  }

  /** `validate_config`: the three phases, each raising with every key it found. */
  method ValidateConfig(config: Config) returns (r: Result<bool, ConfigError>)
    ensures r == Validate(config)
  {
    var notPresentKeys := MissingKeys(config);
    var errors := CollectErrors(notPresentKeys);
    if |notPresentKeys| != 0 {
      return Failure(KeysMissing(errors));
    }

    var notPresentValues := EmptyValueKeys(config);
    errors := CollectErrors(notPresentValues);
    if |notPresentValues| != 0 {
      return Failure(ValuesEmpty(errors));
    }

    var badTypeValues := WrongTypeKeys(config);
    errors := CollectErrors(badTypeValues);
    if |badTypeValues| != 0 {
      return Failure(TypesMismatched(errors));
    }

    return Success(true);
  }
}
