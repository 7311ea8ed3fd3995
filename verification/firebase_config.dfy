/** Loading and validating the store's connection settings, with the
    environment abstracted into six optional values. */
module FirebaseConfig {
  import opened TodoTypes
  import opened Text

  /** The six environment values, each possibly unset. */
  datatype Env = Env(
    apiKey: Option<string>,
    authDomain: Option<string>,
    projectId: Option<string>,
    storageBucket: Option<string>,
    messagingSenderId: Option<string>,
    appId: Option<string>)

  datatype Config = Config(
    apiKey: string,
    authDomain: string,
    projectId: string,
    storageBucket: string,
    messagingSenderId: string,
    appId: string)

  /** The configuration keys, in declaration order. */
  const Keys: seq<string> :=
    ["apiKey", "authDomain", "projectId", "storageBucket", "messagingSenderId", "appId"]

  /** The environment variable each key is read from. */
  const VariableNames: seq<string> := [
    "REACT_APP_FIREBASE_API_KEY", "REACT_APP_FIREBASE_AUTH_DOMAIN", "REACT_APP_FIREBASE_PROJECT_ID",
    "REACT_APP_FIREBASE_STORAGE_BUCKET", "REACT_APP_FIREBASE_MESSAGING_SENDER_ID",
    "REACT_APP_FIREBASE_APP_ID"]

  function Values(env: Env): (v: seq<Option<string>>)
    ensures |v| == |Keys| == |VariableNames|
  {
    [env.apiKey, env.authDomain, env.projectId, env.storageBucket, env.messagingSenderId, env.appId]
  }

  function Fields(c: Config): (v: seq<string>)
    ensures |v| == |Keys|
  {
    [c.apiKey, c.authDomain, c.projectId, c.storageBucket, c.messagingSenderId, c.appId]
  }

  /** A value counts as set when it is defined and not empty. */
  predicate Present(v: Option<string>) {
    v.Some? && v.value != ""
  }

  /** The positions of the values that are not set, from `lo` on, in
      increasing order. */
  function MissingIndicesFrom(values: seq<Option<string>>, lo: nat): (ix: seq<nat>)
    requires lo <= |values|
    ensures |ix| <= |values| - lo
    ensures forall k :: 0 <= k < |ix| ==> lo <= ix[k] < |values| && !Present(values[ix[k]])
    ensures forall k, l :: 0 <= k < l < |ix| ==> ix[k] < ix[l]
    ensures forall i :: lo <= i < |values| && !Present(values[i]) ==> i in ix
    decreases |values| - lo
  {
    if lo == |values| then []
    else (if Present(values[lo]) then [] else [lo]) + MissingIndicesFrom(values, lo + 1)
  }

  function MissingIndices(values: seq<Option<string>>): (ix: seq<nat>)
    ensures ix == [] <==> forall i :: 0 <= i < |values| ==> Present(values[i])
  {
    var ix := MissingIndicesFrom(values, 0);
    assert ix != [] ==> !Present(values[ix[0]]);
    ix
  }

  /** The filter-then-map of the loader from position `lo` on: the name of
      every value that is not set. */
  function MissingFromAt(values: seq<Option<string>>, names: seq<string>, lo: nat): (r: seq<string>)
    requires |values| == |names| && lo <= |values|
    ensures |r| == |MissingIndicesFrom(values, lo)|
    ensures forall k :: 0 <= k < |r| ==> r[k] == names[MissingIndicesFrom(values, lo)[k]]
    decreases |values| - lo
  {
    if lo == |values| then []
    else (if Present(values[lo]) then [] else [names[lo]]) + MissingFromAt(values, names, lo + 1)
  }

  /** The names of the values that are not set: one name per unset value, in
      key order, and no other. */
  function MissingFrom(values: seq<Option<string>>, names: seq<string>): (r: seq<string>)
    requires |values| == |names|
    ensures |r| == |MissingIndices(values)| <= |names|
    ensures forall k :: 0 <= k < |r| ==> r[k] == names[MissingIndices(values)[k]]
    ensures forall i :: 0 <= i < |values| && !Present(values[i]) ==> names[i] in r
    ensures r == [] <==> forall i :: 0 <= i < |values| ==> Present(values[i])
  {
    var r := MissingFromAt(values, names, 0);
    var ix := MissingIndices(values);
    forall i | 0 <= i < |values| && !Present(values[i]) ensures names[i] in r {
      var k :| 0 <= k < |ix| && ix[k] == i;
      assert r[k] == names[i];
    }
    r
  }

  /** The name the loader reports for a missing key:
      `REACT_APP_FIREBASE_` followed by the key in capitals. */
  function ReportedName(key: string): (r: string)
    ensures |r| == 19 + |key|
    ensures r[..19] == "REACT_APP_FIREBASE_"
    ensures forall k :: 0 <= k < |key| ==> r[19 + k] == UpperChar(key[k])
  {
    "REACT_APP_FIREBASE_" + ToUpper(key)
  }

  function ReportedNames(): (r: seq<string>)
    ensures |r| == |Keys|
    ensures forall i :: 0 <= i < |Keys| ==> r[i] == ReportedName(Keys[i])
  {
    seq(|Keys|, i requires 0 <= i < |Keys| => ReportedName(Keys[i]))
  }

  /** The names of the missing values as the loader reports them. */
  function MissingNamesAsWritten(env: Env): (r: seq<string>)
    ensures |r| == |MissingIndices(Values(env))|
    ensures forall k :: 0 <= k < |r| ==> r[k] == ReportedName(Keys[MissingIndices(Values(env))[k]])
    ensures r == [] <==> forall i :: 0 <= i < |Keys| ==> Present(Values(env)[i])
  {
    MissingFrom(Values(env), ReportedNames())
  }

  /** Every variable name has an underscore after the common prefix. */
  lemma VariableHasUnderscore(j: int) returns (u: int)
    requires 0 <= j < |VariableNames|
    ensures 19 <= u < |VariableNames[j]| && VariableNames[j][u] == '_'
  {
    if j == 0 { u := 22; }
    else if j == 1 { u := 23; }
    else if j == 2 { u := 26; }
    else if j == 3 { u := 26; }
    else if j == 4 { u := 28; }
    else { u := 22; }
  }

  /** No key contains an underscore. */
  lemma KeyHasNoUnderscore(i: int, k: int)
    requires 0 <= i < |Keys| && 0 <= k < |Keys[i]|
    ensures Keys[i][k] != '_'
  {
    if i == 0 { assert Keys[0] == "apiKey"; }
    else if i == 1 { assert Keys[1] == "authDomain"; }
    else if i == 2 { assert Keys[2] == "projectId"; }
    else if i == 3 { assert Keys[3] == "storageBucket"; }
    else if i == 4 { assert Keys[4] == "messagingSenderId"; }
    else { assert Keys[5] == "appId"; }
  }

  /** The reported name of a key is none of the six variables read: every
      variable has an underscore after the prefix, where an upper-cased key
      has none. */
  lemma ReportedNameIsNoVariable(i: int, j: int)
    requires 0 <= i < |Keys| && 0 <= j < |VariableNames|
    ensures ReportedName(Keys[i]) != VariableNames[j]
  {
    var u := VariableHasUnderscore(j);
    if u < |ReportedName(Keys[i])| {
      forall k | 0 <= k < |Keys[i]| ensures Keys[i][k] != '_' {
        KeyHasNoUnderscore(i, k);
      }
      ReportedNameHasNoUnderscore(Keys[i], u);
    }
  }

  /** After the prefix, the reported name of a key without underscores has
      none: upper-casing introduces no underscore. */
  lemma ReportedNameHasNoUnderscore(key: string, p: int)
    requires forall k :: 0 <= k < |key| ==> key[k] != '_'
    requires 19 <= p < |ReportedName(key)|
    ensures ReportedName(key)[p] != '_'
  {
    assert ReportedName(key)[19 + (p - 19)] == UpperChar(key[p - 19]);
  }

  /** No name the loader reports is a variable it reads, so every report of
      a missing value points the user at the wrong variable. */
  lemma MissingNamesAsWrittenNameNoVariable(env: Env)
    ensures MissingNamesAsWritten(env) == [] <==> forall i :: 0 <= i < |Keys| ==> Present(Values(env)[i])
    ensures forall k :: 0 <= k < |MissingNamesAsWritten(env)| ==> MissingNamesAsWritten(env)[k] !in VariableNames
  {
    var r := MissingNamesAsWritten(env);
    forall k | 0 <= k < |r| ensures r[k] !in VariableNames {
      var i := MissingIndices(Values(env))[k];
      forall j | 0 <= j < |VariableNames| ensures r[k] != VariableNames[j] {
        ReportedNameIsNoVariable(i, j);
      }
    }
  }

  /** The names of the missing values, reported as the variables they are
      read from. */
  function MissingNames(env: Env): (r: seq<string>)
    ensures r == [] <==> forall i :: 0 <= i < |Keys| ==> Present(Values(env)[i])
    ensures |r| == |MissingIndices(Values(env))|
    ensures forall k :: 0 <= k < |r| ==> r[k] == VariableNames[MissingIndices(Values(env))[k]]
    ensures forall i :: 0 <= i < |Keys| && !Present(Values(env)[i]) ==> VariableNames[i] in r
    ensures forall k :: 0 <= k < |r| ==> r[k] in VariableNames
  {
    MissingFrom(Values(env), VariableNames)
  }

  datatype LoadError = MissingVariables(names: seq<string>) | DemoProject

  datatype LoadResult = Loaded(config: Config) | Failed(error: LoadError)

  /** `loadFirebaseConfig`: fails naming every unset value when any is unset,
      under the name the loader builds from the key; otherwise fails when the
      project id mentions "demo"; otherwise yields the six values. */
  function Load(env: Env): (r: LoadResult)
    ensures r.Failed? && r.error.MissingVariables? <==> exists i :: 0 <= i < |Keys| && !Present(Values(env)[i])
    ensures r.Failed? && r.error.MissingVariables? ==> r.error.names == MissingNamesAsWritten(env) && r.error.names != []
    ensures r.Failed? && r.error.DemoProject? <==>
      (forall i :: 0 <= i < |Keys| ==> Present(Values(env)[i]))
      && env.projectId.Some? && Contains(env.projectId.value, "demo")
    ensures r.Loaded? ==> forall i :: 0 <= i < |Keys| ==> Values(env)[i] == Some(Fields(r.config)[i])
    ensures r.Loaded? ==> forall i :: 0 <= i < |Keys| ==> Fields(r.config)[i] != ""
    ensures r.Loaded? ==> !Contains(r.config.projectId, "demo")
  {
    var missing := MissingNamesAsWritten(env);
    if missing != [] then Failed(MissingVariables(missing)) else LoadComplete(env)
  }

  /** The loader with the missing values reported as the variables they are
      read from; everything else as in `Load`. */
  function LoadCorrected(env: Env): (r: LoadResult)
    ensures r.Failed? && r.error.MissingVariables? <==> exists i :: 0 <= i < |Keys| && !Present(Values(env)[i])
    ensures r.Failed? && r.error.MissingVariables? ==> r.error.names == MissingNames(env) && r.error.names != []
    ensures r.Failed? && r.error.MissingVariables? ==> forall k :: 0 <= k < |r.error.names| ==> r.error.names[k] in VariableNames
    ensures r.Failed? && r.error.DemoProject? <==>
      (forall i :: 0 <= i < |Keys| ==> Present(Values(env)[i]))
      && env.projectId.Some? && Contains(env.projectId.value, "demo")
    ensures r.Loaded? ==> forall i :: 0 <= i < |Keys| ==> Values(env)[i] == Some(Fields(r.config)[i])
    ensures r.Loaded? ==> forall i :: 0 <= i < |Keys| ==> Fields(r.config)[i] != ""
    ensures r.Loaded? ==> !Contains(r.config.projectId, "demo")
  {
    var missing := MissingNames(env);
    if missing != [] then Failed(MissingVariables(missing)) else LoadComplete(env)
  }

  /** The two loaders fail on the same environments and report the same
      number of missing values, in the same order of keys; the loader as
      written names none of the variables it reads, the corrected one names
      exactly them. */
  lemma LoadNamesWrongVariables(env: Env)
    ensures Load(env).Loaded? <==> LoadCorrected(env).Loaded?
    ensures Load(env).Loaded? ==> Load(env) == LoadCorrected(env)
    ensures Load(env).Failed? ==> Load(env).error.MissingVariables? == LoadCorrected(env).error.MissingVariables?
    ensures Load(env).Failed? && Load(env).error.MissingVariables? ==>
      var wrong := Load(env).error.names;
      var right := LoadCorrected(env).error.names;
      && |wrong| == |right|
      && (forall k :: 0 <= k < |wrong| ==> wrong[k] !in VariableNames)
      && (forall k :: 0 <= k < |right| ==> right[k] in VariableNames)
  {
    MissingNamesAsWrittenNameNoVariable(env);
  }

  /** The loader once every value is set: only the demo-project guard can
      still refuse. */
  function LoadComplete(env: Env): (r: LoadResult)
    requires forall i :: 0 <= i < |Keys| ==> Present(Values(env)[i])
    ensures env.projectId.Some?
    ensures r.Failed? <==> Contains(env.projectId.value, "demo")
    ensures r.Failed? ==> r.error.DemoProject?
    ensures r.Loaded? ==> forall i :: 0 <= i < |Keys| ==> Values(env)[i] == Some(Fields(r.config)[i])
    ensures r.Loaded? ==> forall i :: 0 <= i < |Keys| ==> Fields(r.config)[i] != ""
  {
    var values := Values(env);
    assert Present(values[0]) && Present(values[1]) && Present(values[2]);
    assert Present(values[3]) && Present(values[4]) && Present(values[5]);
    DemoProjectContainsDemo();
    var config := Config(env.apiKey.value, env.authDomain.value, env.projectId.value,
                         env.storageBucket.value, env.messagingSenderId.value, env.appId.value);
    if config.projectId == "demo-project" || Contains(config.projectId, "demo") then Failed(DemoProject)
    else Loaded(config)
  }

  /** The environment with only the API key unset. */
  const ApiKeyUnset := Env(None, Some("d"), Some("p"), Some("s"), Some("m"), Some("a"))

  lemma ApiKeyUnsetMissingIndices()
    ensures MissingIndices(Values(ApiKeyUnset)) == [0]
  {
    var values := Values(ApiKeyUnset);
    assert MissingIndicesFrom(values, 6) == [];
    assert MissingIndicesFrom(values, 5) == [];
    assert MissingIndicesFrom(values, 4) == [];
    assert MissingIndicesFrom(values, 3) == [];
    assert MissingIndicesFrom(values, 2) == [];
    assert MissingIndicesFrom(values, 1) == [];
    assert MissingIndicesFrom(values, 0) == [0];
  }

  lemma ApiKeyReportedName()
    ensures ReportedName(Keys[0]) == "REACT_APP_FIREBASE_APIKEY"
  {
    assert Keys[0] == "apiKey";
    assert ToUpper("apiKey") == "APIKEY";
  }

  /** With only the API key unset, the loader asks for `REACT_APP_FIREBASE_APIKEY`,
      which is not the `REACT_APP_FIREBASE_API_KEY` it reads; the corrected
      loader names the variable read. */
  lemma MissingApiKeyReportedWrongly()
    ensures Load(ApiKeyUnset) == Failed(MissingVariables(["REACT_APP_FIREBASE_APIKEY"]))
    ensures LoadCorrected(ApiKeyUnset) == Failed(MissingVariables(["REACT_APP_FIREBASE_API_KEY"]))
    ensures "REACT_APP_FIREBASE_APIKEY" !in VariableNames
  {
    var values := Values(ApiKeyUnset);
    ApiKeyUnsetMissingIndices();
    ApiKeyReportedName();
    assert !Present(values[0]);
    var wrong := MissingNamesAsWritten(ApiKeyUnset);
    assert wrong == ["REACT_APP_FIREBASE_APIKEY"] by {
      assert |wrong| == 1 && wrong[0] == ReportedName(Keys[0]);
    }
    var right := MissingNames(ApiKeyUnset);
    assert right == ["REACT_APP_FIREBASE_API_KEY"] by {
      assert |right| == 1 && right[0] == VariableNames[0];
    }
    forall j | 0 <= j < |VariableNames| ensures "REACT_APP_FIREBASE_APIKEY" != VariableNames[j] {
      ReportedNameIsNoVariable(0, j);
    }
  }

  /** The explicit comparison with "demo-project" is subsumed by the "demo"
      substring test. */
  lemma DemoProjectContainsDemo()
    ensures Contains("demo-project", "demo")
  {
    assert SliceAt("demo-project", 0, "demo");
  }

  /** The masking used when logging a value: values longer than 10 characters
      keep their first 6 and last 4 characters around "...", shorter ones are
      shown as they are. */
  function Mask(v: string): (r: string)
    ensures |v| > 10 ==> |r| == 13 && r[..6] == v[..6] && r[6..9] == "..." && r[9..] == v[|v| - 4..]
    ensures |v| > 10 ==> |r| < |v| + 3
    ensures |v| <= 10 ==> r == v
  {
    if |v| > 10 then v[..6] + "..." + v[|v| - 4..] else v
  }

  /** Masking a masked value changes nothing. */
  lemma MaskIdempotent(v: string)
    ensures Mask(Mask(v)) == Mask(v)
  {
  }

  /** Two long values are logged alike exactly when they share their first 6
      and last 4 characters: nothing in between shows. */
  lemma MaskShowsOnlyEnds(v: string, w: string)
    requires |v| > 10 && |w| > 10
    ensures Mask(v) == Mask(w) <==> v[..6] == w[..6] && v[|v| - 4..] == w[|w| - 4..]
  {
  }

  /** The characters a project id may consist of: `[a-z0-9-]`. */
  predicate ProjectIdChar(c: char) {
    ('a' <= c <= 'z') || ('0' <= c <= '9') || c == '-'
  }

  /** The required-field loop: the first blank field stops it. */
  method AllNonBlank(fields: seq<string>) returns (ok: bool)
    ensures ok <==> forall i :: 0 <= i < |fields| ==> !IsBlank(fields[i])
  {
    var i := 0;
    while i < |fields|
      invariant 0 <= i <= |fields|
      invariant forall j :: 0 <= j < i ==> !IsBlank(fields[j])
    {
      if fields[i] == "" || IsBlank(fields[i]) {
        return false;
      }
      i := i + 1;
    }
    return true;
  }

  /** `/^[a-z0-9-]+$/.test(id)`. */
  method MatchesProjectIdPattern(id: string) returns (ok: bool)
    ensures ok <==> |id| > 0 && forall k :: 0 <= k < |id| ==> ProjectIdChar(id[k])
  {
    if |id| == 0 {
      return false;
    }
    var k := 0;
    while k < |id|
      invariant 0 <= k <= |id|
      invariant forall j :: 0 <= j < k ==> ProjectIdChar(id[j])
    {
      if !ProjectIdChar(id[k]) {
        return false;
      }
      k := k + 1;
    }
    return true;
  }

  /** `validateFirebaseConfig`: every field must be non-blank, and the project
      id must be made of lower-case letters, digits and hyphens only. */
  method Validate(c: Config) returns (ok: bool)
    ensures ok <==>
      && (forall i :: 0 <= i < |Keys| ==> !IsBlank(Fields(c)[i]))
      && |c.projectId| > 0
      && (forall k :: 0 <= k < |c.projectId| ==> ProjectIdChar(c.projectId[k]))
  {
    ok := AllNonBlank(Fields(c));
    if ok {
      ok := MatchesProjectIdPattern(c.projectId);
    }
  }

  /** Loading and validating are separate gates: a loaded configuration whose
      project id has an upper-case letter is still refused by validation. */
  lemma LoadedButInvalid()
    ensures var env := Env(Some("k"), Some("d"), Some("Prod"), Some("s"), Some("m"), Some("a"));
      var r := Load(env);
      && r.Loaded?
      && |r.config.projectId| > 0
      && !ProjectIdChar(r.config.projectId[0])
  {
    var env := Env(Some("k"), Some("d"), Some("Prod"), Some("s"), Some("m"), Some("a"));
    assert !Contains("Prod", "demo") by {
      forall i | 0 <= i <= 0 ensures !SliceAt("Prod", i, "demo") {
        assert "Prod"[0] != "demo"[0];
      }
    }
    var values := Values(env);
    assert Present(values[0]) && Present(values[1]) && Present(values[2]);
    assert Present(values[3]) && Present(values[4]) && Present(values[5]);
    assert Load(env).Loaded?;
    assert Values(env)[2] == Some(Fields(Load(env).config)[2]);
  }
}
