/**
 * Loading the configuration: the schema defaults, overridden key by key
 * from the environment, a missing secret token forced to the empty
 * string, then the schema check that throws with the joined messages.
 */
module Config {
  import opened Wrappers
  import opened Strings
  import JsValues

  /** A configuration value: a schema default is a number, an environment value is a string. */
  datatype Setting = Number(n: real) | Text(s: string)

  /** The schema's properties. */
  datatype Key = Port | Ttl | Max | MaxItemSize | SecretToken

  /** The property names, which are also the environment variables read. */
  function Name(k: Key): string {
    match k
    case Port => "PORT"
    case Ttl => "GEOJSON2PNG_TTL"
    case Max => "GEOJSON2PNG_MAX"
    case MaxItemSize => "GEOJSON2PNG_MAX_ITEM_SIZE"
    case SecretToken => "GEOJSON2PNG_SECRET_TOKEN"
  }

  type Env = map<string, string>
  type Settings = map<Key, Setting>

  /** The schema's properties in declaration order; `Object.keys` visits them in this order. */
  const KEYS: seq<Key> := [Port, Ttl, Max, MaxItemSize, SecretToken]

  /** Every property is in the list. */
  lemma AllKeys()
    ensures forall k :: k in KEYS
  {
    forall k ensures k in KEYS {
      match k
      case Port => assert KEYS[0] == k;
      case Ttl => assert KEYS[1] == k;
      case Max => assert KEYS[2] == k;
      case MaxItemSize => assert KEYS[3] == k;
      case SecretToken => assert KEYS[4] == k;
    }
  }

  const MIN_TOKEN_LENGTH: nat := 5

  const NUMBER_MESSAGE: string := "Expected number"
  const TOKEN_MESSAGE: string := "Expected string length greater or equal to 5"

  /** The created value of a schema property; the token, which has no default, starts as `created`. */
  function Initial(k: Key, created: string): Setting {
    match k
    case Port => Number(8080.0)
    case Ttl => Number(1000.0 * 60.0 * 10.0)
    case Max => Number(100.0)
    case MaxItemSize => Number(3000000.0)
    case SecretToken => Text(created)
  }

  /** `process.env[key]` is truthy: set, and a truthy string, that is, not empty. */
  predicate Truthy(env: Env, k: Key) {
    Name(k) in env && JsValues.Truthy(JsValues.JString(env[Name(k)]))
  }

  /** What the overlay leaves under one schema key. */
  function Overlaid(env: Env, k: Key, created: string): Setting {
    if Truthy(env, k) then Text(env[Name(k)])
    else if k == SecretToken then Text("")
    else Initial(k, created)
  }

  /** The configuration after the overlay: every schema key, each resolved on its own. */
  function Overlay(env: Env, created: string): (c: Settings)
    ensures forall k :: k in c
  {
    AllKeys();
    map k: Key | k in KEYS :: Overlaid(env, k, created)
  }

  /** `Value.Create`: every property at its default, the token at `created`. */
  function Create(created: string): (c: Settings)
    ensures forall k :: k in c && c[k] == Initial(k, created)
  {
    AllKeys();
    map k: Key | k in KEYS :: Initial(k, created)
  }

  /** A configuration that holds the overlaid value under every key is the overlay. */
  lemma IsOverlay(config: Settings, env: Env, created: string)
    requires forall k :: k in config && config[k] == Overlaid(env, k, created)
    ensures config == Overlay(env, created)
  {
  }

  /** The place of a property in `KEYS`. */
  function Position(k: Key): (i: nat)
    ensures i < |KEYS| && KEYS[i] == k
  {
    match k
    case Port => 0
    case Ttl => 1
    case Max => 2
    case MaxItemSize => 3
    case SecretToken => 4
  }

  /** The properties in `KEYS` are distinct: each sits at its own position. */
  lemma PositionsOfKeys()
    ensures forall j :: 0 <= j < |KEYS| ==> Position(KEYS[j]) == j
  {
  }

  /** `Value.Create` followed by the `forEach` over `Object.keys(Config)`. */
  method ApplyEnvironment(env: Env, created: string) returns (config: Settings)
    ensures config == Overlay(env, created)
  {
    config := Create(created);
    PositionsOfKeys();
    for i := 0 to |KEYS|
      invariant forall k :: k in config
      invariant forall j :: 0 <= j < i ==> config[KEYS[j]] == Overlaid(env, KEYS[j], created)
      invariant forall j :: i <= j < |KEYS| ==> config[KEYS[j]] == Initial(KEYS[j], created)
    {
      var key := KEYS[i];
      var name := Name(key);
      if name in env && env[name] != "" {
        config := config[key := Text(env[name])];
      } else if key == SecretToken {
        config := config[key := Text("")];
      }
    }
    forall k ensures config[k] == Overlaid(env, k, created) {
      assert KEYS[Position(k)] == k;
    }
    IsOverlay(config, env, created);
  }

  /** The schema's complaint about one property, if any. */
  function Problem(k: Key, v: Setting, numberAccepts: string -> bool): (m: Option<string>)
    ensures m.Some? ==> m.value == NUMBER_MESSAGE || m.value == TOKEN_MESSAGE
  {
    if k == SecretToken then
      match v
      case Text(s) => if Utf16Length(s) < MIN_TOKEN_LENGTH then Some(TOKEN_MESSAGE) else None
      case Number(_) => Some(TOKEN_MESSAGE)
    else
      match v
      case Number(_) => None
      case Text(s) => if numberAccepts(s) then None else Some(NUMBER_MESSAGE)
  }

  /** `Value.Errors`: the complaints about the given properties, in schema order. */
  function Messages(config: Settings, keys: seq<Key>, numberAccepts: string -> bool): (ms: seq<string>)
    requires forall k :: k in keys ==> k in config
    ensures |ms| <= |keys|
    ensures forall i :: 0 <= i < |ms| ==> ms[i] == NUMBER_MESSAGE || ms[i] == TOKEN_MESSAGE
    ensures ms == [] <==> forall k :: k in keys ==> Problem(k, config[k], numberAccepts).None?
  {
    if keys == [] then []
    else
      var rest := Messages(config, keys[1..], numberAccepts);
      assert forall k :: k in keys[1..] ==> k in keys;
      match Problem(keys[0], config[keys[0]], numberAccepts)
      case Some(m) => [m] + rest
      case None => rest
  }

  /**
   * Loading the configuration: the overlay, then `Value.Check`, which fails
   * exactly when `Value.Errors` has something to say; the thrown message
   * is those messages joined by newlines.
   */
  method LoadConfig(env: Env, created: string, numberAccepts: string -> bool) returns (r: Result<Settings, string>)
    ensures r.Ok? ==> r.value == Overlay(env, created)
    ensures r.Ok? <==> Messages(Overlay(env, created), KEYS, numberAccepts) == []
    ensures r.Err? ==> r.error == Join(Messages(Overlay(env, created), KEYS, numberAccepts), '\n')
  {
    var config := ApplyEnvironment(env, created);
    var errors := Messages(config, KEYS, numberAccepts);
    if errors != [] {
      return Err(Join(errors, '\n'));
    }
    r := Ok(config);
  }

  // ---------------------------------------------------------------- properties of loading

  /** With nothing set, the numbers keep their defaults and the token is the empty string. */
  lemma EmptyEnvironment(created: string)
    ensures var c := Overlay(map[], created);
      && c[Port] == Number(8080.0)
      && c[Ttl] == Number(600000.0)
      && c[Max] == Number(100.0)
      && c[MaxItemSize] == Number(3000000.0)
      && c[SecretToken] == Text("")
  {
  }

  /** With the numbers at their defaults and a short token, the token's message is the only one. */
  lemma OnlyTokenComplaint(c: Settings, numberAccepts: string -> bool)
    requires forall k :: k in c
    requires c[Port].Number? && c[Ttl].Number? && c[Max].Number? && c[MaxItemSize].Number?
    requires c[SecretToken].Text? && Utf16Length(c[SecretToken].s) < MIN_TOKEN_LENGTH
    ensures Messages(c, KEYS, numberAccepts) == [TOKEN_MESSAGE]
  {
    assert Messages(c, [], numberAccepts) == [];
    assert Messages(c, [SecretToken], numberAccepts) == [TOKEN_MESSAGE] by {
      assert [SecretToken][1..] == [];
    }
    assert Messages(c, [MaxItemSize, SecretToken], numberAccepts) == [TOKEN_MESSAGE] by {
      assert [MaxItemSize, SecretToken][1..] == [SecretToken];
    }
    assert Messages(c, [Max, MaxItemSize, SecretToken], numberAccepts) == [TOKEN_MESSAGE] by {
      assert [Max, MaxItemSize, SecretToken][1..] == [MaxItemSize, SecretToken];
    }
    assert Messages(c, [Ttl, Max, MaxItemSize, SecretToken], numberAccepts) == [TOKEN_MESSAGE] by {
      assert [Ttl, Max, MaxItemSize, SecretToken][1..] == [Max, MaxItemSize, SecretToken];
    }
    assert KEYS[1..] == [Ttl, Max, MaxItemSize, SecretToken];
  }

  /** Loading with nothing set fails, with the token's message alone. */
  lemma EmptyEnvironmentFails(created: string, numberAccepts: string -> bool)
    ensures Messages(Overlay(map[], created), KEYS, numberAccepts) == [TOKEN_MESSAGE]
  {
    EmptyEnvironment(created);
    OnlyTokenComplaint(Overlay(map[], created), numberAccepts);
  }

  /** Only the schema's variables are read: environments that agree on them load the same configuration. */
  lemma OnlySchemaVariables(env: Env, other: Env, created: string)
    requires forall k :: Name(k) in env <==> Name(k) in other
    requires forall k :: Name(k) in env ==> env[Name(k)] == other[Name(k)]
    ensures Overlay(env, created) == Overlay(other, created)
  {
  }

  /** The check passes exactly when the token has at least 5 UTF-16 code units and every overridden number is accepted. */
  lemma CheckPassesIff(env: Env, created: string, numberAccepts: string -> bool)
    ensures Messages(Overlay(env, created), KEYS, numberAccepts) == [] <==>
      && Utf16Length(Overlay(env, created)[SecretToken].s) >= MIN_TOKEN_LENGTH
      && forall k :: k != SecretToken && Truthy(env, k) ==> numberAccepts(env[Name(k)])
  {
    var c := Overlay(env, created);
    AllKeys();
    forall k ensures Problem(k, c[k], numberAccepts).None? <==>
      if k == SecretToken then Utf16Length(c[k].s) >= MIN_TOKEN_LENGTH else (Truthy(env, k) ==> numberAccepts(env[Name(k)]))
    {
      assert c[k] == Overlaid(env, k, created);
    }
  }

  /** A token that is missing, empty or shorter than 5 UTF-16 code units makes loading throw. */
  lemma ShortTokenFails(env: Env, created: string, numberAccepts: string -> bool)
    requires !Truthy(env, SecretToken) || Utf16Length(env[Name(SecretToken)]) < MIN_TOKEN_LENGTH
    ensures Messages(Overlay(env, created), KEYS, numberAccepts) != []
  {
    CheckPassesIff(env, created, numberAccepts);
  }

  /**
   * `minLength` counts UTF-16 code units: three characters outside the Basic
   * Multilingual Plane are six units, so such a token passes.
   */
  lemma AstralTokenAccepted(numberAccepts: string -> bool)
    ensures Utf16Length("\U{1F98A}\U{1F98A}\U{1F98A}") == 6
    ensures Problem(SecretToken, Text("\U{1F98A}\U{1F98A}\U{1F98A}"), numberAccepts).None?
  {
    var fox := "\U{1F98A}\U{1F98A}\U{1F98A}";
    assert fox[1..][1..][1..] == [];
  }

  /** With only such a token set, loading succeeds. */
  lemma AstralTokenLoads(created: string, numberAccepts: string -> bool)
    ensures Messages(Overlay(map[Name(SecretToken) := "\U{1F98A}\U{1F98A}\U{1F98A}"], created), KEYS, numberAccepts) == []
  {
    var env := map[Name(SecretToken) := "\U{1F98A}\U{1F98A}\U{1F98A}"];
    AstralTokenAccepted(numberAccepts);
    forall k | k != SecretToken ensures !Truthy(env, k) {
      assert |Name(k)| != |Name(SecretToken)|;
    }
    CheckPassesIff(env, created, numberAccepts);
  }

  /** Neither message contains a newline. */
  lemma MessagesOneLine()
    ensures '\n' !in NUMBER_MESSAGE && '\n' !in TOKEN_MESSAGE
  {
  }

  /** The thrown message splits back, at its newlines, into the individual messages. */
  lemma MessageSplits(env: Env, created: string, numberAccepts: string -> bool)
    requires Messages(Overlay(env, created), KEYS, numberAccepts) != []
    ensures Split(Join(Messages(Overlay(env, created), KEYS, numberAccepts), '\n'), '\n')
         == Messages(Overlay(env, created), KEYS, numberAccepts)
  {
    var ms := Messages(Overlay(env, created), KEYS, numberAccepts);
    MessagesOneLine();
    SplitJoin(ms, '\n');
  }
}
