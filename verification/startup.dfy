/**
 * Start-up order of the bot's module body: the initial `STREAMER_LISTS` is
 * built from `set(config.get("channels"))` before `validate_config()` runs.
 * `StartupAsWritten` keeps that order; `StartupValidatedFirst` validates first,
 * so that every bad configuration is reported by the validator.
 */
module Startup {
  import opened Wrappers
  import opened Python
  import opened ConfigValidation

  /** How start-up ends: a TypeError from `set(...)`, the validator's exception, or a running bot. */
  datatype Outcome = Crashed | Rejected(error: ConfigError) | Started

  /** `config.get(k)`: the value stored under k, None when k is absent. */
  function Get(config: Config, k: string): (v: Option<Value>)
    ensures v.Some? <==> HasKey(config, k)
  {
    if config == [] then None
    else if config[0].key == k then Some(config[0].value)
    else
      var v := Get(config[1..], k);
      assert forall i | 1 <= i < |config| :: config[i] == config[1..][i - 1];
      v
  }

  /** On a configuration without repeated keys, `Get` finds the value stored under each key. */
  lemma {:induction false} GetOfDistinct(config: Config, i: int)
    requires DistinctKeys(config)
    requires 0 <= i < |config|
    ensures Get(config, config[i].key) == Some(config[i].value)
  {
    if i > 0 {
      var rest := config[1..];
      assert DistinctKeys(rest) by {
        assert forall a, b | 0 <= a < b < |rest| :: rest[a] == config[a + 1] && rest[b] == config[b + 1];
      }
      assert config[0].key != config[i].key;
      assert rest[i - 1] == config[i];
      GetOfDistinct(rest, i - 1);
    }
  }

  /** A set element must be hashable; JSON lists and objects are not. */
  predicate Hashable(v: Value)
  {
    !v.List? && !v.Dict?
  }

  /**
   * `set(x)` raises TypeError: x is None (absent or null) or another
   * non-iterable, or it yields an unhashable element. A string gives its
   * characters and a dict its keys, which never fails.
   */
  predicate SetConversionFails(x: Option<Value>)
  {
    match x
    case None => true
    case Some(v) =>
      match v
      case Null => true
      case Bool(_) => true
      case Int(_) => true
      case Float(_) => true
      case Str(_) => false
      case Dict(_) => false
      case List(items) => exists i | 0 <= i < |items| :: !Hashable(items[i])
  }

  /** Start-up as the module runs it: the channel set is built, then the configuration is validated. */
  function StartupAsWritten(config: Config): (o: Outcome)
    ensures o != StartupValidatedFirst(config) ==> o == Crashed && Validate(config).Failure?
  {
    if SetConversionFails(Get(config, "channels")) then Crashed
    else
      match Validate(config)
      case Failure(e) => Rejected(e)
      case Success(_) => Started
  }

  /**
   * Start-up with validation first: every configuration the validator rejects
   * is reported with the validator's own error, and the bot only starts on an
   * accepted configuration, whose channel value is a non-empty list.
   */
  function StartupValidatedFirst(config: Config): (o: Outcome)
    ensures Validate(config).Failure? ==> o == Rejected(Validate(config).error)
    ensures o == Started ==> Validate(config).Success?
    ensures o == Started ==> Get(config, "channels").Some? && Get(config, "channels").value.List?
    ensures o == Crashed ==> Validate(config).Success?
  {
    match Validate(config)
    case Failure(e) => Rejected(e)
    case Success(_) =>
      var channels := Get(config, "channels");
      ChannelsOfValidConfig(config);
      if SetConversionFails(channels) then Crashed else Started
  }

  /** In an accepted configuration `config.get("channels")` is a non-empty list. */
  lemma ChannelsOfValidConfig(config: Config)
    requires Validate(config).Success?
    ensures Get(config, "channels").Some?
    ensures Get(config, "channels").value.List? && Get(config, "channels").value.items != []
  {
    ValidateAcceptsExactly(config);
    assert RequiredKeys[4].0 == "channels";
    assert HasKey(config, "channels");
    GetFindsEntry(config, "channels");
    var i :| 0 <= i < |config| && config[i].key == "channels" && config[i].value == Get(config, "channels").value;
    ValidatedValues(config, i);
  }

  /** The value `Get` finds is that of an entry with the key. */
  lemma {:induction false} GetFindsEntry(config: Config, k: string)
    requires HasKey(config, k)
    ensures exists i | 0 <= i < |config| :: config[i].key == k && config[i].value == Get(config, k).value
  {
    if config[0].key != k {
      assert HasKey(config[1..], k) by {
        var i :| 0 <= i < |config| && config[i].key == k;
        assert config[1..][i - 1].key == k;
      }
      GetFindsEntry(config[1..], k);
      var i :| 0 <= i < |config| - 1 && config[1..][i].key == k && config[1..][i].value == Get(config[1..], k).value;
      assert config[i + 1] == config[1..][i];
    } else {
      assert config[0].key == k;
    }
  }

  /**
   * As written, a configuration without a `channels` key never reaches the
   * validator: start-up dies with a TypeError, although the validator would
   * have reported the key as missing. Validating first reports it.
   */
  lemma AsWrittenCrashesWithoutChannels(config: Config)
    requires !HasKey(config, "channels")
    ensures StartupAsWritten(config) == Crashed
    ensures Validate(config).Failure? && Validate(config).error.KeysMissing?
    ensures StartupValidatedFirst(config).Rejected?
    ensures "channels" in StartupValidatedFirst(config).error.keys
  {
    assert RequiredKeys[4].0 == "channels";
    AbsentKeysMembers(RequiredKeys, config, "channels");
  }

  /** A configuration with everything but the channel list. */
  const ConfigWithoutChannels: Config := [
    Entry("bot_username", Str("bot")),
    Entry("client_id", Str("id")),
    Entry("client_secret", Str("secret")),
    Entry("oauth_token", Str("token")),
    Entry("wait_time", Int(60)),
    Entry("verbose", Bool(false))
  ]

  /** The concrete case: the validator would report exactly `channels`, but the bot crashes first. */
  lemma MissingChannelsExample()
    ensures StartupAsWritten(ConfigWithoutChannels) == Crashed
    ensures StartupValidatedFirst(ConfigWithoutChannels) == Rejected(KeysMissing(["channels"]))
  {
    AsWrittenCrashesWithoutChannels(ConfigWithoutChannels);
    OnlyChannelsMissing();
  }

  /** Phase 1 of the validator finds exactly one missing key in the example. */
  lemma OnlyChannelsMissing()
    ensures MissingKeys(ConfigWithoutChannels) == ["channels"]
  {
    var c := ConfigWithoutChannels;
    ExampleKeys();
    var t := RequiredKeys;
    assert AbsentKeys(t[6..], c) == [];
    assert AbsentKeys(t[5..], c) == [];
    assert AbsentKeys(t[4..], c) == ["channels"];
    assert AbsentKeys(t[3..], c) == ["channels"];
    assert AbsentKeys(t[2..], c) == ["channels"];
    assert AbsentKeys(t[1..], c) == ["channels"];
  }

  /** The example holds every required key but `channels`. */
  lemma ExampleKeys()
    ensures !HasKey(ConfigWithoutChannels, "channels")
    ensures HasKey(ConfigWithoutChannels, "bot_username")
    ensures HasKey(ConfigWithoutChannels, "client_id")
    ensures HasKey(ConfigWithoutChannels, "client_secret")
    ensures HasKey(ConfigWithoutChannels, "oauth_token")
    ensures HasKey(ConfigWithoutChannels, "wait_time")
    ensures HasKey(ConfigWithoutChannels, "verbose")
  {
    var c := ConfigWithoutChannels;
    assert c[0].key == "bot_username";
    assert c[1].key == "client_id";
    assert c[2].key == "client_secret";
    assert c[3].key == "oauth_token";
    assert c[4].key == "wait_time";
    assert c[5].key == "verbose";
  }
}
