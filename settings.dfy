/**
 * The local settings helpers of src/memora/settings.py: reading the settings file, resolving a
 * value from the environment, the settings file and a default, the suggested user name, and
 * masking a secret for display. Python's `None` is `JNull` here, so an absent environment
 * variable, an absent settings key and a JSON null in the file all read the same.
 */
module Settings {
  import opened Wrappers
  import opened Text
  import opened Json
  import opened Retrieval

  const UnknownUser: string := "unknown-user"

  // ---------------------------------------------------------------- the settings file

  /**
   * `load_settings`: the object in the settings file (None: the file does not exist); an empty
   * map when the file is missing, does not parse, or holds JSON that is not an object.
   */
  function LoadSettings(file: Option<string>, decode: string -> Option<JsonValue>): map<string, JsonValue> {
    if file.None? then map[]
    else match decode(file.value)
      case Some(JObject(fields)) => fields
      case _ => map[]
  }

  /** `save_settings`: the text written; `dumps` is `json.dumps(..., ensure_ascii=False, indent=2)`. */
  function SaveSettings(payload: map<string, JsonValue>, dumps: JsonValue -> string): string {
    dumps(JObject(payload))
  }

  /** Every failure to read the file yields no settings; a readable object is returned as it is. */
  lemma LoadSettingsFallback(file: Option<string>, decode: string -> Option<JsonValue>)
    ensures var r := LoadSettings(file, decode);
      && (file.None? ==> r == map[])
      && (file.Some? && decode(file.value).None? ==> r == map[])
      && (file.Some? && decode(file.value).Some? && !decode(file.value).value.JObject? ==> r == map[])
      && (r != map[] ==> file.Some? && decode(file.value) == Some(JObject(r)))
  {
  }

  /** Saving then loading gives the saved settings back, when `decode` undoes `dumps`. */
  lemma SaveThenLoad(payload: map<string, JsonValue>, dumps: JsonValue -> string, decode: string -> Option<JsonValue>)
    requires decode(dumps(JObject(payload))) == Some(JObject(payload))
    ensures LoadSettings(Some(SaveSettings(payload, dumps)), decode) == payload
  {
  }

  // ---------------------------------------------------------------- resolution

  /** A candidate `resolve_value` accepts: not None, and not blank once rendered with `str`. */
  predicate Usable(v: JsonValue, render: JsonValue -> string) {
    v != JNull && !Blank(PyStr(v, render))
  }

  /** `resolve_value`: the first usable candidate, stripped; None when there is none. */
  function ResolveValue(values: seq<JsonValue>, render: JsonValue -> string): Option<string> {
    if values == [] then None
    else if values[0] == JNull then ResolveValue(values[1..], render)
    else
      var text := Strip(PyStr(values[0], render));
      if text != "" then Some(text) else ResolveValue(values[1..], render)
  }

  /** One step of `resolve_value`: a usable first candidate is the answer, any other is skipped. */
  lemma ResolveValueStep(values: seq<JsonValue>, render: JsonValue -> string)
    requires values != []
    ensures ResolveValue(values, render)
         == if Usable(values[0], render) then Some(Strip(PyStr(values[0], render))) else ResolveValue(values[1..], render)
  {
    StripEmptyIffBlank(PyStr(values[0], render));
  }

  /** `values[i]` is usable and no earlier candidate is. */
  predicate FirstUsable(values: seq<JsonValue>, i: int, render: JsonValue -> string) {
    0 <= i < |values| && Usable(values[i], render) && forall j | 0 <= j < i :: !Usable(values[j], render)
  }

  /**
   * `resolve_value` finds nothing exactly when no candidate is usable; otherwise it returns the
   * first usable candidate, stripped.
   */
  lemma {:induction false} ResolveValueFirst(values: seq<JsonValue>, render: JsonValue -> string)
    ensures var r := ResolveValue(values, render);
      && (r.None? <==> forall i | 0 <= i < |values| :: !Usable(values[i], render))
      && (r.Some? ==> exists i :: FirstUsable(values, i, render) && r.value == Strip(PyStr(values[i], render)))
  {
    if values != [] {
      ResolveValueStep(values, render);
      ResolveValueFirst(values[1..], render);
      var r := ResolveValue(values, render);
      if Usable(values[0], render) {
        assert FirstUsable(values, 0, render);
      } else if r.Some? {
        var i :| FirstUsable(values[1..], i, render) && r.value == Strip(PyStr(values[1..][i], render));
        assert forall j | 0 < j < i + 1 :: values[j] == values[1..][j - 1];
        assert FirstUsable(values, i + 1, render);
      } else {
        assert forall i | 1 <= i < |values| :: values[i] == values[1..][i - 1];
      }
    }
  }

  /** What `resolve_value` returns is non-empty and has no whitespace at either end. */
  lemma ResolveValueClean(values: seq<JsonValue>, render: JsonValue -> string)
    ensures var r := ResolveValue(values, render);
      r.Some? ==> r.value != "" && Strip(r.value) == r.value
  {
    ResolveValueFirst(values, render);
    var r := ResolveValue(values, render);
    if r.Some? {
      var i :| FirstUsable(values, i, render) && r.value == Strip(PyStr(values[i], render));
      StripEmptyIffBlank(PyStr(values[i], render));
      StripIdempotent(PyStr(values[i], render));
    }
  }

  /** `resolve_value` on three candidates, spelled out. */
  lemma ResolveThree(a: JsonValue, b: JsonValue, c: JsonValue, render: JsonValue -> string)
    ensures ResolveValue([a, b, c], render)
         == if Usable(a, render) then Some(Strip(PyStr(a, render)))
            else if Usable(b, render) then Some(Strip(PyStr(b, render)))
            else if Usable(c, render) then Some(Strip(PyStr(c, render)))
            else None
  {
    var values := [a, b, c];
    assert values[1..] == [b, c];
    assert values[1..][1..] == [c];
    assert values[1..][1..][1..] == [];
    ResolveValueStep(values, render);
    ResolveValueStep(values[1..], render);
    ResolveValueStep(values[1..][1..], render);
  }

  /** `os.environ.get(key)`. */
  function EnvValue(env: map<string, string>, key: string): JsonValue {
    if key in env then JString(env[key]) else JNull
  }

  /** `settings.get(key)`. */
  function SettingValue(settings: map<string, JsonValue>, key: string): JsonValue {
    if key in settings then settings[key] else JNull
  }

  /** `resolve_setting`: the environment variable, then the settings file key, then the default. */
  function ResolveSetting(env: map<string, string>, file: Option<string>, envKey: string, settingsKey: string, default: Option<string>,
                          decode: string -> Option<JsonValue>, render: JsonValue -> string): Option<string> {
    var settings := LoadSettings(file, decode);
    ResolveValue([EnvValue(env, envKey), SettingValue(settings, settingsKey), if default.None? then JNull else JString(default.value)], render)
  }

  /**
   * A set, non-blank environment variable wins; failing that, a usable value in the settings
   * file; failing that, a non-blank default; otherwise nothing. Whichever wins is stripped.
   */
  lemma ResolveSettingPrecedence(env: map<string, string>, file: Option<string>, envKey: string, settingsKey: string, default: Option<string>,
                                 decode: string -> Option<JsonValue>, render: JsonValue -> string)
    ensures var r := ResolveSetting(env, file, envKey, settingsKey, default, decode, render);
      var settings := LoadSettings(file, decode);
      && (envKey in env && !Blank(env[envKey]) ==> r == Some(Strip(env[envKey])))
      && (!(envKey in env && !Blank(env[envKey])) && settingsKey in settings && Usable(settings[settingsKey], render) ==>
            r == Some(Strip(PyStr(settings[settingsKey], render))))
      && (!(envKey in env && !Blank(env[envKey])) && !(settingsKey in settings && Usable(settings[settingsKey], render)) ==>
            r == (if default.Some? && !Blank(default.value) then Some(Strip(default.value)) else None))
  {
    var settings := LoadSettings(file, decode);
    ResolveThree(EnvValue(env, envKey), SettingValue(settings, settingsKey), if default.None? then JNull else JString(default.value), render);
  }

  /** `_git_config`: the stripped output of a successful `git config --get`, None when empty. */
  function GitConfig(code: int, stdout: string): Option<string> {
    if code != 0 then None
    else
      var value := Strip(stdout);
      if value == "" then None else Some(value)
  }

  /** `suggested_user_name`: git's user.name, then `$USER`, then "unknown-user". */
  function SuggestedUserName(gitName: Option<string>, user: Option<string>, render: JsonValue -> string): string {
    var candidates := [
      if gitName.None? then JNull else JString(gitName.value),
      if user.None? then JNull else JString(user.value),
      JString(UnknownUser)];
    ResolveValue(candidates, render).GetOr(UnknownUser)
  }

  /**
   * The suggested user name is never empty and never padded with whitespace: git's name when it
   * is non-blank, else `$USER` when non-blank, else "unknown-user".
   */
  lemma SuggestedUserNameFacts(gitName: Option<string>, user: Option<string>, render: JsonValue -> string)
    ensures var r := SuggestedUserName(gitName, user, render);
      && r != "" && Strip(r) == r
      && r == (if gitName.Some? && !Blank(gitName.value) then Strip(gitName.value)
               else if user.Some? && !Blank(user.value) then Strip(user.value)
               else UnknownUser)
  {
    var a := if gitName.None? then JNull else JString(gitName.value);
    var b := if user.None? then JNull else JString(user.value);
    var c := JString(UnknownUser);
    OptionalCandidate(gitName, render);
    OptionalCandidate(user, render);
    UnknownUserClean(render);
    ResolveThree(a, b, c, render);
    ResolveValueClean([a, b, c], render);
  }

  /** An optional string as a candidate: usable exactly when present and not blank. */
  lemma OptionalCandidate(o: Option<string>, render: JsonValue -> string)
    ensures var v := if o.None? then JNull else JString(o.value);
      && (Usable(v, render) <==> o.Some? && !Blank(o.value))
      && (o.Some? ==> PyStr(v, render) == o.value)
  {
  }

  /** The fallback name is usable and already stripped. */
  lemma UnknownUserClean(render: JsonValue -> string)
    ensures Usable(JString(UnknownUser), render) && Strip(UnknownUser) == UnknownUser
  {
    assert UnknownUser[0] == 'u' && UnknownUser[|UnknownUser| - 1] == 'r';
    StripUnpadded(UnknownUser);
  }

  // ---------------------------------------------------------------- mask_secret

  /** `mask_secret` as written: stars, then `value[-keep:]`. */
  function MaskSecret(value: Option<string>, keep: int): string {
    if value.None? || value.value == "" then ""
    else if |value.value| <= keep then Repeat('*', |value.value|)
    else Repeat('*', |value.value| - keep) + PyDrop(value.value, -keep)
  }

  /**
   * For `keep >= 1` it masks as intended: None and "" give "", a value no longer than `keep`
   * becomes stars of the same length, and a longer one keeps its last `keep` characters behind
   * stars, with the length unchanged.
   */
  lemma MaskSecretPositiveKeep(value: Option<string>, keep: int)
    requires keep >= 1
    ensures var r := MaskSecret(value, keep);
      && (value.None? || value == Some("") ==> r == "")
      && (value.Some? ==> |r| == |value.value|)
      && (value.Some? && |value.value| <= keep ==> forall i | 0 <= i < |r| :: r[i] == '*')
      && (value.Some? && |value.value| > keep ==>
            && (forall i | 0 <= i < |r| - keep :: r[i] == '*')
            && r[|r| - keep..] == value.value[|value.value| - keep..])
  {
    if value.Some? && |value.value| > keep {
      var v := value.value;
      assert PyDrop(v, -keep) == v[|v| - keep..];
      var r := MaskSecret(value, keep);
      assert r == Repeat('*', |v| - keep) + v[|v| - keep..];
      assert r[|r| - keep..] == v[|v| - keep..];
    }
  }

  /** With `keep == 0`, `value[-0:]` is the whole value: the secret is shown in full after the stars. */
  lemma MaskSecretZeroKeepShowsSecret(v: string)
    requires v != ""
    ensures MaskSecret(Some(v), 0) == Repeat('*', |v|) + v
    ensures |MaskSecret(Some(v), 0)| == 2 * |v|
  {
    assert PyDrop(v, -0) == v;
  }

  /** A concrete case: the three-character secret "abc" masked with `keep=0`. */
  lemma MaskSecretZeroKeepExample()
    ensures MaskSecret(Some("abc"), 0) == "***abc"
  {
    MaskSecretZeroKeepShowsSecret("abc");
    assert Repeat('*', 3) == "***";
  }

  /**
   * A negative `keep` never takes the `len(value) <= keep` branch: the stars number
   * `len(value) - keep`, more than the value's length, and `value[-keep:]` drops only the first
   * `-keep` characters, so all but those are shown.
   */
  lemma MaskSecretNegativeKeep(v: string, keep: int)
    requires v != "" && keep < 0
    ensures var r := MaskSecret(Some(v), keep);
      var dropped := if -keep > |v| then |v| else -keep;
      && r == Repeat('*', |v| - keep) + v[dropped..]
      && |r| > |v|
      && (-keep < |v| ==> EndsWith(r, v[dropped..]) && |v| - dropped > 0)
  {
    var dropped := if -keep > |v| then |v| else -keep;
    assert PyDrop(v, -keep) == v[dropped..];
    var r := MaskSecret(Some(v), keep);
    assert r[|r| - (|v| - dropped)..] == v[dropped..];
  }

  /** A concrete case: "abc" masked with `keep=-1` shows its last two characters. */
  lemma MaskSecretNegativeKeepExample()
    ensures MaskSecret(Some("abc"), -1) == "****bc"
  {
    MaskSecretNegativeKeep("abc", -1);
    assert Repeat('*', 4) == "****";
    assert "abc"[1..] == "bc";
  }

  /** `mask_secret` as evidently intended: never more than `max(keep, 0)` characters shown. */
  function MaskSecretCorrected(value: Option<string>, keep: int): (r: string)
    ensures value.None? || value == Some("") ==> r == ""
    ensures value.Some? ==> |r| == |value.value|
    ensures value.Some? ==>
      var shown := if keep < 0 then 0 else if keep > |value.value| then |value.value| else keep;
      && (forall i | 0 <= i < |r| - shown :: r[i] == '*')
      && (|value.value| > keep ==> r[|r| - shown..] == value.value[|value.value| - shown..])
  {
    if value.None? || value.value == "" then ""
    else
      var v := value.value;
      var k := if keep < 0 then 0 else keep;
      if |v| <= k then Repeat('*', |v|)
      else Repeat('*', |v| - k) + v[|v| - k..]
  }

  /** The corrected masking agrees with the source whenever `keep` is positive, the default 4 included. */
  lemma MaskSecretCorrectedAgrees(value: Option<string>, keep: int)
    requires keep >= 1
    ensures MaskSecretCorrected(value, keep) == MaskSecret(value, keep)
  {
    if value.Some? && |value.value| > keep {
      assert PyDrop(value.value, -keep) == value.value[|value.value| - keep..];
    }
  }
}
