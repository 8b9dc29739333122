/** Typed configuration over the string-valued configuration table
    (backend/config_manager.py): defaults come from Settings, stored strings
    override them and are cast back per key. */
module ConfigManager {
  import opened Common
  import opened Text
  import opened Settings
  import opened Schemas
  import Crud

  /** Python's str() of a scalar; floats go through the given str(). */
  function StrOf(v: Scalar, ft: FloatText): string {
    match v
    case Flag(b) => if b then "True" else "False"
    case Whole(i) => IntToString(i)
    case Decimal(x) => ft.show(x)
    case Str(s) => s
  }

  /** `_to_bool`: a bool is returned unchanged; anything else is read the way
      the environment switch is read (settings `_to_bool` with a value). */
  function ToBool(v: Scalar, ft: FloatText): (r: bool)
    ensures v.Flag? ==> r == v.b
    ensures !v.Flag? ==> r == EnvToBool(Some(StrOf(v, ft)), false)
  {
    if v.Flag? then v.b else IsTruthyText(StrOf(v, ft))
  }

  /** `_serialize`: bools as "true"/"false", everything else by str(). */
  function Serialize(v: Scalar, ft: FloatText): (r: string)
    ensures v.Flag? ==> r == (if v.b then "true" else "false")
    ensures v.Whole? ==> r == IntToString(v.i)
    ensures v.Str? ==> r == v.s
  {
    if v.Flag? then (if v.b then "true" else "false") else StrOf(v, ft)
  }

  /** A serialised bool reads back as the same bool. */
  lemma {:induction false} SerializeBoolRoundTrip(b: bool, ft: FloatText)
    ensures ToBool(Str(Serialize(Flag(b), ft)), ft) == b
  {
    if b {
      SerializedTrueIsTruthy();
    } else {
      SerializedFalseIsNotTruthy();
    }
  }

  /** Python's str() of True is not "true", but it still reads back as true:
      `_to_bool` accepts both spellings. */
  lemma PythonTrueIsTruthy(ft: FloatText)
    ensures ToBool(Str(StrOf(Flag(true), ft)), ft)
  {
    assert NoSpace("True");
    assert Strip("True") == "True";
    assert Lower("True") == "true";
  }

  /** The cast CONFIG_CASTERS applies to a stored string. */
  datatype Caster = AsFloat | AsInt | AsBool

  /** CONFIG_CASTERS: float, int, and `_to_bool` twice. */
  function CasterFor(k: ConfigKey): Caster {
    match k
    case KeyOverspeed => AsFloat
    case KeyPollInterval => AsInt
    case _ => AsBool
  }

  /** Applying a caster to stored text; float() and int() raise (None) on
      malformed text, the bool reader never fails. */
  function Cast(c: Caster, text: string, ft: FloatText): (r: Option<Scalar>)
    ensures c == AsFloat ==> (r.Some? <==> ft.parse(text).Some?)
    ensures c == AsFloat && r.Some? ==> r.value == Decimal(ft.parse(text).value)
    ensures c == AsInt ==> (r.Some? <==> ParseInt(text).Some?)
    ensures c == AsInt && r.Some? ==> r.value == Whole(ParseInt(text).value)
    ensures c == AsBool ==> r == Some(Flag(ToBool(Str(text), ft)))
  {
    match c
    case AsFloat => (match ft.parse(text) case Some(x) => Some(Decimal(x)) case None => None)
    case AsInt => (match ParseInt(text) case Some(n) => Some(Whole(n)) case None => None)
    case AsBool => Some(Flag(ToBool(Str(text), ft)))
  }

  /** The value of `settings.config_defaults | crud.get_config_map(db)` at a
      key: the stored text when there is a row, the default otherwise. */
  function RawValue(s: Settings, stored: map<string, string>, k: ConfigKey): Scalar {
    if KeyName(k) in stored then Str(stored[KeyName(k)]) else DefaultOf(s, k)
  }

  /** The typed value get_config computes for one key: stored text is cast,
      a default is taken as it is; None where the cast raises. */
  function TypedValue(s: Settings, stored: map<string, string>, k: ConfigKey, ft: FloatText): Option<Scalar> {
    TypeOne(RawValue(s, stored, k), k, ft)
  }

  /** One step of get_config's loop: a string is cast by the key's caster,
      any other value is kept. */
  function TypeOne(value: Scalar, k: ConfigKey, ft: FloatText): Option<Scalar> {
    match value
    case Str(text) => Cast(CasterFor(k), text, ft)
    case v => Some(v)
  }

  lemma AllKeysListed()
    ensures forall k :: k in ConfigKeyOrder
  {
    forall k ensures k in ConfigKeyOrder {
      match k
      case KeyOverspeed => assert ConfigKeyOrder[0] == k;
      case KeyPollInterval => assert ConfigKeyOrder[1] == k;
      case KeyThingspeak => assert ConfigKeyOrder[2] == k;
      case KeyAutoSms => assert ConfigKeyOrder[3] == k;
    }
  }

  /** `ConfigResponse(**typed)` given the four typed values in field order:
      a failed cast (None) or a value of the wrong type makes it fail. */
  function Assemble(o: Option<Scalar>, p: Option<Scalar>, t: Option<Scalar>, a: Option<Scalar>): Option<ConfigResponse> {
    match (o, p, t, a)
    case (Some(Decimal(x)), Some(Whole(n)), Some(Flag(b1)), Some(Flag(b2))) => Some(ConfigResponse(x, n, b1, b2))
    case _ => None
  }

  /** The answer of get_config for that stored table; None where it raises. */
  function ConfigOf(s: Settings, stored: map<string, string>, ft: FloatText): Option<ConfigResponse> {
    Assemble(TypedValue(s, stored, KeyOverspeed, ft), TypedValue(s, stored, KeyPollInterval, ft),
             TypedValue(s, stored, KeyThingspeak, ft), TypedValue(s, stored, KeyAutoSms, ft))
  }

  /** What a configuration read answers: each key's stored text cast to the
      key's type where there is a row, the default otherwise; a stored number
      that does not parse makes the read fail. */
  lemma ConfigOfReadsBack(s: Settings, stored: map<string, string>, ft: FloatText)
    ensures var o, p, t, a := KeyName(KeyOverspeed), KeyName(KeyPollInterval), KeyName(KeyThingspeak), KeyName(KeyAutoSms);
      var r := ConfigOf(s, stored, ft);
      && (r.Some? <==>
            (o in stored ==> ft.parse(stored[o]).Some?) &&
            (p in stored ==> ParseInt(stored[p]).Some?))
      && (r.Some? ==> r.value == ConfigResponse(
            if o in stored then ft.parse(stored[o]).value else s.overspeedDefault,
            if p in stored then ParseInt(stored[p]).value else s.pollIntervalDefault,
            if t in stored then IsTruthyText(stored[t]) else ThingspeakEnabled(s),
            a in stored && IsTruthyText(stored[a])))
  {
    TypedNumbers(s, stored, ft);
    TypedFlags(s, stored, ft);
  }

  /** The two numeric keys: cast when stored, the default otherwise. */
  lemma TypedNumbers(s: Settings, stored: map<string, string>, ft: FloatText)
    ensures var o, p := KeyName(KeyOverspeed), KeyName(KeyPollInterval);
      && TypedValue(s, stored, KeyOverspeed, ft) ==
           (if o in stored then Cast(AsFloat, stored[o], ft) else Some(Decimal(s.overspeedDefault)))
      && TypedValue(s, stored, KeyPollInterval, ft) ==
           (if p in stored then Cast(AsInt, stored[p], ft) else Some(Whole(s.pollIntervalDefault)))
  {
  }

  /** The two switches: read as truthy text when stored, the default
      otherwise. */
  lemma TypedFlags(s: Settings, stored: map<string, string>, ft: FloatText)
    ensures var t, a := KeyName(KeyThingspeak), KeyName(KeyAutoSms);
      && TypedValue(s, stored, KeyThingspeak, ft) ==
           Some(Flag(if t in stored then IsTruthyText(stored[t]) else ThingspeakEnabled(s)))
      && TypedValue(s, stored, KeyAutoSms, ft) == Some(Flag(a in stored && IsTruthyText(stored[a])))
  {
  }

  /** `get_config`: cast every CONFIG_CASTERS key in order, then build the
      response; the typed values are keyed by their configuration key. */
  method GetConfig(store: Crud.Store, s: Settings, ft: FloatText) returns (r: Option<ConfigResponse>)
    ensures r == ConfigOf(s, store.config, ft)
  {
    var stored := store.config;
    var typed: map<ConfigKey, Scalar> := map[];
    var i := 0;
    while i < |ConfigKeyOrder|
      invariant 0 <= i <= |ConfigKeyOrder|
      invariant forall k :: k in ConfigKeyOrder[..i] ==> k in typed
      invariant forall k :: k in typed ==> TypedValue(s, stored, k, ft) == Some(typed[k])
    {
      var key := ConfigKeyOrder[i];
      var v := TypeOne(RawValue(s, stored, key), key, ft);
      if v.None? {
        return None;
      }
      typed := typed[key := v.value];
      assert ConfigKeyOrder[..i + 1] == ConfigKeyOrder[..i] + [key];
      i := i + 1;
    }
    AllKeysListed();
    assert ConfigKeyOrder[..i] == ConfigKeyOrder;
    r := Assemble(Some(typed[KeyOverspeed]), Some(typed[KeyPollInterval]),
                  Some(typed[KeyThingspeak]), Some(typed[KeyAutoSms]));
  }

  predicate IsKeyName(name: string) {
    exists k :: KeyName(k) == name
  }

  /** The rows ensure_defaults collects from the first keys of the defaults
      dictionary: each one without a row, with its default serialised. */
  function MissingAmong(keys: seq<ConfigKey>, s: Settings, existing: map<string, string>, ft: FloatText): map<string, string>
    decreases |keys|
  {
    if keys == [] then map[]
    else
      var m := MissingAmong(keys[..|keys| - 1], s, existing, ft);
      var k := keys[|keys| - 1];
      if KeyName(k) in existing then m else m[KeyName(k) := Serialize(DefaultOf(s, k), ft)]
  }

  function MissingDefaults(s: Settings, existing: map<string, string>, ft: FloatText): map<string, string> {
    MissingAmong(ConfigKeyOrder, s, existing, ft)
  }

  lemma {:induction false} MissingAmongRows(keys: seq<ConfigKey>, s: Settings, existing: map<string, string>, ft: FloatText)
    ensures var m := MissingAmong(keys, s, existing, ft);
      && (forall name :: name in m ==> name !in existing && IsKeyName(name))
      && (forall k :: k in keys && KeyName(k) !in existing ==>
            KeyName(k) in m && m[KeyName(k)] == Serialize(DefaultOf(s, k), ft))
    decreases |keys|
  {
    if keys != [] {
      var front := keys[..|keys| - 1];
      var last := keys[|keys| - 1];
      MissingAmongRows(front, s, existing, ft);
      KeyNamesDistinct();
      assert keys == front + [last];
      var m := MissingAmong(keys, s, existing, ft);
      forall name | name in m ensures name !in existing && IsKeyName(name) {
        if name == KeyName(last) {
          assert KeyName(last) == name;
        }
      }
    }
  }

  /** `ensure_defaults`: collect the missing rows, write them if there are
      any. */
  method EnsureDefaults(store: Crud.Store, s: Settings, ft: FloatText)
    modifies store`config
    ensures store.config == old(store.config) + MissingDefaults(s, old(store.config), ft)
  {
    var existing := store.config;
    var missing := CollectMissing(ConfigKeyOrder, s, existing, ft);
    if missing != map[] {
      var _ := store.UpsertConfigValues(missing);
    } else {
      assert existing + missing == existing;
    }
  }

  /** The loop of ensure_defaults over the keys of the defaults dictionary. */
  method CollectMissing(keys: seq<ConfigKey>, s: Settings, existing: map<string, string>, ft: FloatText)
    returns (missing: map<string, string>)
    ensures missing == MissingAmong(keys, s, existing, ft)
  {
    missing := map[];
    var i := 0;
    while i < |keys|
      invariant 0 <= i <= |keys|
      invariant missing == MissingAmong(keys[..i], s, existing, ft)
    {
      var key := keys[i];
      if KeyName(key) !in existing {
        missing := missing[KeyName(key) := Serialize(DefaultOf(s, key), ft)];
      }
      assert keys[..i + 1][..i] == keys[..i];
      i := i + 1;
    }
    assert keys[..i] == keys;
  }

  /** After ensure_defaults every configuration key has a row; rows that
      existed keep their value and the new ones hold the defaults. */
  lemma {:induction false} EnsureDefaultsEffect(s: Settings, existing: map<string, string>, ft: FloatText)
    ensures var after := existing + MissingDefaults(s, existing, ft);
      && (forall k :: KeyName(k) in after)
      && (forall name :: name in after ==> name in existing || IsKeyName(name))
      && (forall name :: name in existing ==> after[name] == existing[name])
      && (forall k :: KeyName(k) !in existing ==> after[KeyName(k)] == Serialize(DefaultOf(s, k), ft))
  {
    MissingAmongRows(ConfigKeyOrder, s, existing, ft);
    AllKeysListed();
  }

  /** Running ensure_defaults a second time writes nothing. */
  lemma {:induction false} EnsureDefaultsIdempotent(s: Settings, existing: map<string, string>, ft: FloatText)
    ensures MissingDefaults(s, existing + MissingDefaults(s, existing, ft), ft) == map[]
  {
    var after := existing + MissingDefaults(s, existing, ft);
    EnsureDefaultsEffect(s, existing, ft);
    MissingAmongRows(ConfigKeyOrder, s, after, ft);
  }

  /** The rows update_config writes: one per field the payload provides. */
  function Updates(p: ConfigUpdate, ft: FloatText): (r: map<string, string>)
    ensures KeyName(KeyOverspeed) in r <==> p.overspeedThreshold.Some?
    ensures KeyName(KeyPollInterval) in r <==> p.pollIntervalSeconds.Some?
    ensures KeyName(KeyThingspeak) in r <==> p.thingspeakEnabled.Some?
    ensures KeyName(KeyAutoSms) in r <==> p.autoSmsEnabled.Some?
    ensures p == EmptyConfigUpdate ==> r == map[]
  {
    KeyNamesDistinct();
    var u1 := PutIf(map[], p.overspeedThreshold.Some?, KeyOverspeed,
                    if p.overspeedThreshold.Some? then Serialize(Decimal(p.overspeedThreshold.value), ft) else "");
    var u2 := PutIf(u1, p.pollIntervalSeconds.Some?, KeyPollInterval,
                    if p.pollIntervalSeconds.Some? then Serialize(Whole(p.pollIntervalSeconds.value), ft) else "");
    var u3 := PutIf(u2, p.thingspeakEnabled.Some?, KeyThingspeak,
                    if p.thingspeakEnabled.Some? then Serialize(Flag(p.thingspeakEnabled.value), ft) else "");
    var r := PutIf(u3, p.autoSmsEnabled.Some?, KeyAutoSms,
                   if p.autoSmsEnabled.Some? then Serialize(Flag(p.autoSmsEnabled.value), ft) else "");
    var o, q, th, au := KeyName(KeyOverspeed), KeyName(KeyPollInterval), KeyName(KeyThingspeak), KeyName(KeyAutoSms);
    assert o != q && o != th && o != au && q != th && q != au && th != au;
    r
  }

  /** update_config writes rows of configuration keys only. */
  lemma UpdatesOnlyKeys(p: ConfigUpdate, ft: FloatText)
    ensures forall name :: name in Updates(p, ft) ==> IsKeyName(name)
  {
    var o, q, th, au := KeyName(KeyOverspeed), KeyName(KeyPollInterval), KeyName(KeyThingspeak), KeyName(KeyAutoSms);
    assert Updates(p, ft).Keys <= {o, q, th, au};
  }

  /** The row for key, added when the payload provides its field. */
  function PutIf(u: map<string, string>, provided: bool, key: ConfigKey, value: string): (r: map<string, string>)
    ensures r.Keys == if provided then u.Keys + {KeyName(key)} else u.Keys
    ensures provided ==> r[KeyName(key)] == value
    ensures forall name :: name in u && name != KeyName(key) ==> r[name] == u[name]
  {
    if provided then u[KeyName(key) := value] else u
  }

  /** The text written for each provided field. */
  lemma UpdatesWritten(p: ConfigUpdate, ft: FloatText)
    ensures p.overspeedThreshold.Some? ==> Updates(p, ft)[KeyName(KeyOverspeed)] == ft.show(p.overspeedThreshold.value)
    ensures p.pollIntervalSeconds.Some? ==> Updates(p, ft)[KeyName(KeyPollInterval)] == IntToString(p.pollIntervalSeconds.value)
    ensures p.thingspeakEnabled.Some? ==> Updates(p, ft)[KeyName(KeyThingspeak)] == Serialize(Flag(p.thingspeakEnabled.value), ft)
    ensures p.autoSmsEnabled.Some? ==> Updates(p, ft)[KeyName(KeyAutoSms)] == Serialize(Flag(p.autoSmsEnabled.value), ft)
  {
    KeyNamesDistinct();
  }

  /** `update_config`: write the provided fields (no write at all when none
      is), then read the configuration back. */
  method UpdateConfig(store: Crud.Store, s: Settings, p: ConfigUpdate, ft: FloatText) returns (r: Option<ConfigResponse>)
    modifies store`config
    ensures store.config == old(store.config) + Updates(p, ft)
    ensures Updates(p, ft) == map[] ==> store.config == old(store.config)
    ensures r == ConfigOf(s, store.config, ft)
  {
    var updates := Updates(p, ft);
    if updates != map[] {
      var _ := store.UpsertConfigValues(updates);
    } else {
      assert store.config + updates == store.config;
    }
    r := GetConfig(store, s, ft);
  }

  /** After an update each provided field reads back as written and every
      other field as before. Floats are assumed to survive str() and float(),
      which the parameters do not promise by themselves. */
  lemma {:induction false} UpdateReadsBack(s: Settings, stored: map<string, string>, p: ConfigUpdate, ft: FloatText)
    requires ConfigOf(s, stored, ft).Some?
    requires p.overspeedThreshold.Some? ==>
      ft.parse(ft.show(p.overspeedThreshold.value)) == Some(p.overspeedThreshold.value)
    ensures var before := ConfigOf(s, stored, ft).value;
      ConfigOf(s, stored + Updates(p, ft), ft) == Some(ConfigResponse(
        p.overspeedThreshold.GetOr(before.overspeedThreshold),
        p.pollIntervalSeconds.GetOr(before.pollIntervalSeconds),
        p.thingspeakEnabled.GetOr(before.thingspeakEnabled),
        p.autoSmsEnabled.GetOr(before.autoSmsEnabled)))
  {
    ConfigOfReadsBack(s, stored, ft);
    ConfigOfReadsBack(s, stored + Updates(p, ft), ft);
    UpdatesWritten(p, ft);
    if p.thingspeakEnabled.Some? {
      SerializeBoolRoundTrip(p.thingspeakEnabled.value, ft);
    }
    if p.autoSmsEnabled.Some? {
      SerializeBoolRoundTrip(p.autoSmsEnabled.value, ft);
    }
    if p.pollIntervalSeconds.Some? {
      ParseIntRoundTrip(p.pollIntervalSeconds.value);
    }
  }

  /** Applying the same payload twice leaves the same table as applying it
      once. */
  lemma UpdateIdempotent(stored: map<string, string>, p: ConfigUpdate, ft: FloatText)
    ensures stored + Updates(p, ft) + Updates(p, ft) == stored + Updates(p, ft)
  {
  }

  /** With nothing stored, the read answers the settings' defaults, with
      auto-SMS off. */
  lemma DefaultsReadBack(s: Settings, ft: FloatText)
    ensures ConfigOf(s, map[], ft) ==
      Some(ConfigResponse(s.overspeedDefault, s.pollIntervalDefault, ThingspeakEnabled(s), false))
  {
  }
}
