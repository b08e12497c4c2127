/** src/components/lib/app-params.js: where the app's launch parameters
    come from. A parameter is looked up in the URL's query, then in a
    default, then in browser storage, and what is found is written back to
    storage. Storage and the query are maps from key to string; the query
    and the environment's variables are inputs. */
module AppParams {
  import opened Wrappers
  import opened Json
  import opened Text

  // ---------------------------------------------------------------------------
  // Storage keys

  /** `str.replace(/([A-Z])/g, '_$1')`. */
  function MarkCapitals(s: string): (r: string)
    ensures |r| == |s| + Capitals(s)
  {
    if s == [] then []
    else (if IsUpperAscii(s[0]) then ['_', s[0]] else [s[0]]) + MarkCapitals(s[1..])
  }

  function Capitals(s: string): nat {
    if s == [] then 0 else (if IsUpperAscii(s[0]) then 1 else 0) + Capitals(s[1..])
  }

  /** `toSnakeCase(str)`, one character at a time: a capital becomes '_'
      and its lower-case letter, anything else is lower-cased (which leaves
      it as it is). ToSnakeCaseIsReplaceThenLower shows this is the
      replacement followed by `toLowerCase()`. */
  function ToSnakeCase(s: string): string {
    SnakeFrom(s, 0)
  }

  function SnakeFrom(s: string, i: nat): string
    requires i <= |s|
    decreases |s| - i
  {
    if i == |s| then [] else SnakePiece(s[i]) + SnakeFrom(s, i + 1)
  }

  function SnakePiece(c: char): string {
    if IsUpperAscii(c) then ['_', LowerChar(c)] else [c]
  }

  /** The storage key of a parameter. */
  function StorageKey(name: string): string {
    "base44_" + ToSnakeCase(name)
  }

  lemma {:induction false} MarkCapitalsLower(s: string)
    ensures Lower(MarkCapitals(s)) ==
      if s == [] then []
      else SnakePiece(s[0]) + Lower(MarkCapitals(s[1..]))
  {
    if s != [] {
      var head := if IsUpperAscii(s[0]) then ['_', s[0]] else [s[0]];
      LowerAppend(head, MarkCapitals(s[1..]));
    }
  }

  lemma {:induction false} LowerAppend(a: string, b: string)
    ensures Lower(a + b) == Lower(a) + Lower(b)
  {
    if a == [] {
      assert a + b == b;
    } else {
      assert (a + b)[1..] == a[1..] + b;
      LowerAppend(a[1..], b);
    }
  }

  lemma {:induction false} SnakeFromIsReplaceThenLower(s: string, i: nat)
    requires i <= |s|
    ensures SnakeFrom(s, i) == Lower(MarkCapitals(s[i..]))
    decreases |s| - i
  {
    if i < |s| {
      SnakeFromIsReplaceThenLower(s, i + 1);
      MarkCapitalsLower(s[i..]);
      assert s[i..][1..] == s[i + 1..];
    }
  }

  /** The key is the name with every capital marked by '_' and then lower-cased. */
  lemma ToSnakeCaseIsReplaceThenLower(s: string)
    ensures ToSnakeCase(s) == Lower(MarkCapitals(s))
  {
    SnakeFromIsReplaceThenLower(s, 0);
    assert s[0..] == s;
  }

  /** One step of the snake-case form. */
  lemma SnakeStep(s: string)
    requires s != []
    ensures ToSnakeCase(s) == SnakePiece(s[0]) + ToSnakeCase(s[1..])
  {
    ToSnakeCaseIsReplaceThenLower(s);
    ToSnakeCaseIsReplaceThenLower(s[1..]);
    MarkCapitalsLower(s);
  }

  /** The snake-case name has no capitals and is one character longer for each capital. */
  lemma SnakeCaseShape(s: string)
    ensures forall i :: 0 <= i < |ToSnakeCase(s)| ==> !IsUpperAscii(ToSnakeCase(s)[i])
    ensures |ToSnakeCase(s)| == |s| + Capitals(s)
  {
    ToSnakeCaseIsReplaceThenLower(s);
  }

  /** Reading a snake-case name back: "_x" becomes "X". */
  function FromSnakeCase(s: string): string
    decreases |s|
  {
    if s == [] then []
    else if |s| >= 2 && s[0] == '_' then [UpperChar(s[1])] + FromSnakeCase(s[2..])
    else [s[0]] + FromSnakeCase(s[1..])
  }

  function UpperChar(c: char): char {
    if 'a' <= c <= 'z' then (c as int - 'a' as int + 'A' as int) as char else c
  }

  /** A name without '_' is recovered from its snake-case form: a capital
      comes back from its "_x" mark and nothing else contains '_'. */
  lemma {:induction false} SnakeCaseRoundTrip(s: string)
    requires forall i :: 0 <= i < |s| ==> s[i] != '_'
    ensures FromSnakeCase(ToSnakeCase(s)) == s
  {
    if s != [] {
      SnakeStep(s);
      SnakeCaseRoundTrip(s[1..]);
      var rest := ToSnakeCase(s[1..]);
      if IsUpperAscii(s[0]) {
        var t := ['_', LowerChar(s[0])] + rest;
        assert t[0] == '_' && t[1] == LowerChar(s[0]) && t[2..] == rest;
        assert UpperChar(LowerChar(s[0])) == s[0];
      } else {
        var t := [s[0]] + rest;
        assert t[0] == s[0] && t[1..] == rest;
      }
      assert s == [s[0]] + s[1..];
    }
  }

  lemma {:induction false} NoCapitalsUnchanged(s: string)
    requires forall i :: 0 <= i < |s| ==> !IsUpperAscii(s[i])
    ensures ToSnakeCase(s) == s
  {
    if s != [] {
      SnakeStep(s);
      NoCapitalsUnchanged(s[1..]);
      assert s == [s[0]] + s[1..];
    }
  }

  /** Names already in snake case keep their spelling: "access_token" is
      stored under "base44_access_token". */
  lemma SnakeNamesKeepSpelling(name: string)
    requires forall i :: 0 <= i < |name| ==> !IsUpperAscii(name[i])
    ensures StorageKey(name) == "base44_" + name
  {
    NoCapitalsUnchanged(name);
  }

  /** The names `getAppParams` looks up, all already in snake case. */
  predicate ParamName(n: string) {
    n == "clear_access_token" || n == "app_id" || n == "access_token" ||
    n == "from_url" || n == "functions_version" || n == "app_base_url"
  }

  /** Each looked-up parameter is stored under "base44_" and its own name. */
  lemma ParamKeyOf(n: string)
    requires ParamName(n)
    ensures StorageKey(n) == "base44_" + n
  {
    assert forall i :: 0 <= i < |n| ==> !IsUpperAscii(n[i]);
    SnakeNamesKeepSpelling(n);
  }

  // ---------------------------------------------------------------------------
  // The local-development switch

  /** `String(VITE_LOCAL_DEV_MODE ?? 'true').toLowerCase() === 'true'`. */
  function LocalDevModeFlag(env: Option<Value>): bool {
    Lower(if env.None? || env == Some(Null) then "true" else ToText(env)) == "true"
  }

  /** The switch is on when the variable is unset or reads 'true' in any case. */
  lemma LocalDevModeDefaults()
    ensures LocalDevModeFlag(None)
    ensures LocalDevModeFlag(Some(Null))
    ensures LocalDevModeFlag(Some(Str("TRUE")))
  {
    assert Lower("TRUE") == "true";
  }

  /** The boolean `true` is spelled 'true' and also switches it on. */
  lemma LocalDevModeFromBoolean()
    ensures LocalDevModeFlag(Some(Bool(true)))
  {
  }

  /** Any other spelling switches it off. */
  lemma LocalDevModeOff()
    ensures !LocalDevModeFlag(Some(Str("false")))
    ensures !LocalDevModeFlag(Some(Str("")))
  {
    assert Lower("false") != "true";
  }

  // ---------------------------------------------------------------------------
  // Parameter lookup

  type Storage = map<string, string>
  type Query = map<string, string>

  /** A string that is truthy. */
  predicate Given(v: Option<string>) {
    v.Some? && v.value != ""
  }

  function Lookup(m: map<string, string>, k: string): Option<string> {
    if k in m then Some(m[k]) else None
  }

  /** The value `getAppParamValue` returns outside node and local-development mode. */
  function Resolve(query: Query, storage: Storage, name: string, defaultValue: Option<string>): Option<string> {
    var fromUrl := Lookup(query, name);
    var stored := Lookup(storage, StorageKey(name));
    if Given(fromUrl) then fromUrl
    else if Given(defaultValue) then defaultValue
    else if Given(stored) then stored
    else None
  }

  /** Storage after the lookup: a URL value or a truthy default is stored under the key. */
  function StorageAfter(query: Query, storage: Storage, name: string, defaultValue: Option<string>): Storage {
    var fromUrl := Lookup(query, name);
    if Given(fromUrl) then storage[StorageKey(name) := fromUrl.value]
    else if Given(defaultValue) then storage[StorageKey(name) := defaultValue.value]
    else storage
  }

  /** The precedence: URL, then default, then storage, then nothing. */
  lemma ResolvePrecedence(query: Query, storage: Storage, name: string, defaultValue: Option<string>)
    ensures name in query && query[name] != "" ==> Resolve(query, storage, name, defaultValue) == Some(query[name])
    ensures !(name in query && query[name] != "") && Given(defaultValue) ==>
      Resolve(query, storage, name, defaultValue) == defaultValue
    ensures !(name in query && query[name] != "") && !Given(defaultValue) ==>
      Resolve(query, storage, name, defaultValue) ==
        (if StorageKey(name) in storage && storage[StorageKey(name)] != "" then Some(storage[StorageKey(name)]) else None)
  {
  }

  /** Only the parameter's own key is written, and afterwards storage holds
      the value returned whenever one was found. */
  lemma StorageAfterFrame(query: Query, storage: Storage, name: string, defaultValue: Option<string>)
    ensures forall k :: k != StorageKey(name) ==> Lookup(StorageAfter(query, storage, name, defaultValue), k) == Lookup(storage, k)
    ensures Given(Resolve(query, storage, name, defaultValue)) ==>
      Lookup(StorageAfter(query, storage, name, defaultValue), StorageKey(name)) == Resolve(query, storage, name, defaultValue)
  {
  }

  /** Looking a parameter up again gives the same value and writes nothing new. */
  lemma ResolveStable(query: Query, storage: Storage, name: string, defaultValue: Option<string>)
    ensures var s1 := StorageAfter(query, storage, name, defaultValue);
      Resolve(query, s1, name, defaultValue) == Resolve(query, storage, name, defaultValue) &&
      StorageAfter(query, s1, name, defaultValue) == s1
  {
  }

  /** Storage once the `clear_access_token` parameter has been looked up and,
      when it is 'true', the stored token removed. */
  function AfterClear(query: Query, storage: Storage): Storage {
    ClearStep(query, storage, "clear_access_token")
  }

  function ClearStep(query: Query, storage: Storage, clear: string): Storage {
    var s1 := StorageAfter(query, storage, clear, None);
    if Resolve(query, storage, clear, None) == Some("true") then s1 - {"base44_access_token", "token"} else s1
  }

  datatype Params = Params(
    localDevMode: bool, appId: Option<string>, token: Option<string>,
    fromUrl: Option<string>, functionsVersion: Option<string>, appBaseUrl: Option<string>)

  /** The build-time variables `getAppParams` offers as defaults. */
  datatype EnvDefaults = EnvDefaults(appId: Option<string>, functionsVersion: Option<string>, appBaseUrl: Option<string>)

  /** What a browser load outside local-development mode yields: the five
      parameters, each resolved against the storage the previous lookups
      left behind, and the storage after the last lookup. The token is read
      from the full query; the three later parameters see the query without it. */
  datatype Loaded = Loaded(params: Params, storage: Storage)

  function BrowserLoad(query: Query, storage: Storage, env: EnvDefaults, href: string): Loaded {
    LoadNamed(query, AfterClear(query, storage), env, href,
      "app_id", "access_token", "from_url", "functions_version", "app_base_url")
  }

  /** The five lookups of a load, from the storage left by the clearing step,
      with the parameter names as arguments. */
  function LoadNamed(query: Query, s2: Storage, env: EnvDefaults, href: string,
                     appId: string, token: string, fromUrl: string, version: string, baseUrl: string): Loaded
  {
    var s3 := StorageAfter(query, s2, appId, env.appId);
    var s4 := StorageAfter(query, s3, token, None);
    var q := query - {token};
    var s5 := StorageAfter(q, s4, fromUrl, Some(href));
    var s6 := StorageAfter(q, s5, version, env.functionsVersion);
    Loaded(
      Params(false,
        Resolve(query, s2, appId, env.appId),
        Resolve(query, s3, token, None),
        Resolve(q, s4, fromUrl, Some(href)),
        Resolve(q, s5, version, env.functionsVersion),
        Resolve(q, s6, baseUrl, env.appBaseUrl)),
      StorageAfter(q, s6, baseUrl, env.appBaseUrl))
  }

  /** The browser (or node) environment: storage and the URL's query change;
      whether this is node and whether local-development mode is on are fixed. */
  class AppEnvironment {
    var storage: Storage
    var query: Query
    const isNode: bool
    const localDevMode: bool

    constructor(storage0: Storage, query0: Query, isNode: bool, localDevMode: bool)
      ensures storage == storage0 && query == query0
      ensures this.isNode == isNode && this.localDevMode == localDevMode
    {
      storage := storage0;
      query := query0;
      this.isNode := isNode;
      this.localDevMode := localDevMode;
    }

    /** `getAppParamValue(paramName, { defaultValue, removeFromUrl })`. */
    method GetAppParamValue(name: string, defaultValue: Option<string>, removeFromUrl: bool) returns (r: Option<string>)
      modifies this
      ensures isNode || localDevMode ==> r == defaultValue && storage == old(storage) && query == old(query)
      ensures !(isNode || localDevMode) ==>
        r == Resolve(old(query), old(storage), name, defaultValue) &&
        storage == StorageAfter(old(query), old(storage), name, defaultValue) &&
        query == (if removeFromUrl then old(query) - {name} else old(query))
    {
      if isNode {
        return defaultValue;
      }
      if localDevMode {
        return defaultValue;
      }
      var key := StorageKey(name);
      var searchParam := Lookup(query, name);
      if removeFromUrl {
        query := query - {name};
      }
      if Given(searchParam) {
        storage := storage[key := searchParam.value];
        return searchParam;
      }
      if Given(defaultValue) {
        storage := storage[key := defaultValue.value];
        return defaultValue;
      }
      var storedValue := Lookup(storage, key);
      if Given(storedValue) {
        return storedValue;
      }
      return None;
    }

    /** `getAppParams()`; `href` is the page's address (the empty string
        under node). */
    method GetAppParams(env: EnvDefaults, href: string) returns (p: Params)
      modifies this
      ensures localDevMode ==> p == Params(true, None, None, Some(if isNode then "" else href), None, None)
      ensures localDevMode || isNode ==> storage == old(storage) && query == old(query)
      ensures !localDevMode && isNode ==>
        p == Params(false, env.appId, None, Some(""), env.functionsVersion, env.appBaseUrl)
      ensures !localDevMode && !isNode ==>
        var s2 := AfterClear(old(query), old(storage));
        p.localDevMode == false &&
        p.appId == Resolve(old(query), s2, "app_id", env.appId) &&
        p.token == Resolve(old(query), StorageAfter(old(query), s2, "app_id", env.appId), "access_token", None) &&
        query == old(query) - {"access_token"} &&
        p == BrowserLoad(old(query), old(storage), env, href).params &&
        storage == BrowserLoad(old(query), old(storage), env, href).storage
      // the remaining parameters are read from the URL once the token has been taken out of it
      ensures !localDevMode && !isNode ==>
        (Given(Lookup(query, "from_url")) ==> p.fromUrl == Lookup(query, "from_url")) &&
        (!Given(Lookup(query, "from_url")) && href != "" ==> p.fromUrl == Some(href)) &&
        (Given(Lookup(query, "functions_version")) ==> p.functionsVersion == Lookup(query, "functions_version")) &&
        (!Given(Lookup(query, "functions_version")) && Given(env.functionsVersion) ==> p.functionsVersion == env.functionsVersion) &&
        (Given(Lookup(query, "app_base_url")) ==> p.appBaseUrl == Lookup(query, "app_base_url")) &&
        (!Given(Lookup(query, "app_base_url")) && Given(env.appBaseUrl) ==> p.appBaseUrl == env.appBaseUrl)
    {
      if localDevMode {
        return Params(true, None, None, Some(if isNode then "" else href), None, None);
      }
      var clear := GetAppParamValue("clear_access_token", None, false);
      if clear == Some("true") {
        storage := storage - {"base44_access_token", "token"};
      }
      var appId := GetAppParamValue("app_id", env.appId, false);
      var token := GetAppParamValue("access_token", None, true);
      var fromUrl := GetAppParamValue("from_url", Some(if isNode then "" else href), false);
      var functionsVersion := GetAppParamValue("functions_version", env.functionsVersion, false);
      var appBaseUrl := GetAppParamValue("app_base_url", env.appBaseUrl, false);
      p := Params(false, appId, token, fromUrl, functionsVersion, appBaseUrl);
    }
  }

  /** Keys of distinct looked-up parameters differ. */
  predicate DistinctKeys(appId: string, token: string, fromUrl: string, version: string, baseUrl: string) {
    var ks := [StorageKey(appId), StorageKey(token), StorageKey(fromUrl), StorageKey(version), StorageKey(baseUrl)];
    forall i, j :: 0 <= i < j < |ks| ==> ks[i] != ks[j]
  }

  lemma LoadNamedRemembers(query: Query, s2: Storage, env: EnvDefaults, href: string,
                           appId: string, token: string, fromUrl: string, version: string, baseUrl: string)
    requires DistinctKeys(appId, token, fromUrl, version, baseUrl)
    ensures var l := LoadNamed(query, s2, env, href, appId, token, fromUrl, version, baseUrl);
      (Given(l.params.appId) ==> Lookup(l.storage, StorageKey(appId)) == l.params.appId) &&
      (Given(l.params.token) ==> Lookup(l.storage, StorageKey(token)) == l.params.token) &&
      (Given(l.params.fromUrl) ==> Lookup(l.storage, StorageKey(fromUrl)) == l.params.fromUrl) &&
      (Given(l.params.functionsVersion) ==> Lookup(l.storage, StorageKey(version)) == l.params.functionsVersion) &&
      (Given(l.params.appBaseUrl) ==> Lookup(l.storage, StorageKey(baseUrl)) == l.params.appBaseUrl)
  {
    var ks := [StorageKey(appId), StorageKey(token), StorageKey(fromUrl), StorageKey(version), StorageKey(baseUrl)];
    assert ks[0] != ks[1] && ks[0] != ks[2] && ks[0] != ks[3] && ks[0] != ks[4];
    assert ks[1] != ks[2] && ks[1] != ks[3] && ks[1] != ks[4];
    assert ks[2] != ks[3] && ks[2] != ks[4] && ks[3] != ks[4];
    var s3 := StorageAfter(query, s2, appId, env.appId);
    var s4 := StorageAfter(query, s3, token, None);
    var q := query - {token};
    var s5 := StorageAfter(q, s4, fromUrl, Some(href));
    var s6 := StorageAfter(q, s5, version, env.functionsVersion);
    StorageAfterFrame(query, s2, appId, env.appId);
    StorageAfterFrame(query, s3, token, None);
    StorageAfterFrame(q, s4, fromUrl, Some(href));
    StorageAfterFrame(q, s5, version, env.functionsVersion);
    StorageAfterFrame(q, s6, baseUrl, env.appBaseUrl);
  }

  lemma StandardKeysDistinct(appId: string, token: string, fromUrl: string, version: string, baseUrl: string)
    requires appId == "app_id" && token == "access_token" && fromUrl == "from_url"
    requires version == "functions_version" && baseUrl == "app_base_url"
    ensures DistinctKeys(appId, token, fromUrl, version, baseUrl)
  {
    ParamKeyOf(appId);
    ParamKeyOf(token);
    ParamKeyOf(fromUrl);
    ParamKeyOf(version);
    ParamKeyOf(baseUrl);
    var ks := [StorageKey(appId), StorageKey(token), StorageKey(fromUrl), StorageKey(version), StorageKey(baseUrl)];
    assert |ks[0]| == 13 && |ks[1]| == 19 && |ks[2]| == 15 && |ks[3]| == 24 && |ks[4]| == 19;
    assert ks[1][8] == 'c' && ks[4][8] == 'p';
  }

  /** After a load, storage remembers every parameter that came out non-null,
      each under its own key: the later lookups write only their own keys. */
  lemma LoadRemembersParams(query: Query, storage: Storage, env: EnvDefaults, href: string)
    ensures var l := BrowserLoad(query, storage, env, href);
      (Given(l.params.appId) ==> Lookup(l.storage, StorageKey("app_id")) == l.params.appId) &&
      (Given(l.params.token) ==> Lookup(l.storage, StorageKey("access_token")) == l.params.token) &&
      (Given(l.params.fromUrl) ==> Lookup(l.storage, StorageKey("from_url")) == l.params.fromUrl) &&
      (Given(l.params.functionsVersion) ==> Lookup(l.storage, StorageKey("functions_version")) == l.params.functionsVersion) &&
      (Given(l.params.appBaseUrl) ==> Lookup(l.storage, StorageKey("app_base_url")) == l.params.appBaseUrl)
  {
    StandardKeysDistinct("app_id", "access_token", "from_url", "functions_version", "app_base_url");
    LoadNamedRemembers(query, AfterClear(query, storage), env, href,
      "app_id", "access_token", "from_url", "functions_version", "app_base_url");
  }

  /** The stored value of a parameter when it is truthy, otherwise null. */
  function Fallback(storage: Storage, name: string): Option<string> {
    var stored := Lookup(storage, StorageKey(name));
    if Given(stored) then stored else None
  }

  lemma LoadNamedFallsBack(query: Query, s2: Storage, env: EnvDefaults, href: string,
                           appId: string, token: string, fromUrl: string, version: string, baseUrl: string)
    requires DistinctKeys(appId, token, fromUrl, version, baseUrl)
    ensures var l := LoadNamed(query, s2, env, href, appId, token, fromUrl, version, baseUrl);
      (!Given(Lookup(query, fromUrl)) && href == "" ==>
        l.params.fromUrl == Fallback(s2, fromUrl)) &&
      (!Given(Lookup(query, version)) && !Given(env.functionsVersion) ==>
        l.params.functionsVersion == Fallback(s2, version)) &&
      (!Given(Lookup(query, baseUrl)) && !Given(env.appBaseUrl) ==>
        l.params.appBaseUrl == Fallback(s2, baseUrl))
  {
    var ks := [StorageKey(appId), StorageKey(token), StorageKey(fromUrl), StorageKey(version), StorageKey(baseUrl)];
    assert ks[0] != ks[2] && ks[0] != ks[3] && ks[0] != ks[4];
    assert ks[1] != ks[2] && ks[1] != ks[3] && ks[1] != ks[4];
    assert ks[2] != ks[3] && ks[2] != ks[4] && ks[3] != ks[4];
    var s3 := StorageAfter(query, s2, appId, env.appId);
    var s4 := StorageAfter(query, s3, token, None);
    var q := query - {token};
    var s5 := StorageAfter(q, s4, fromUrl, Some(href));
    StorageAfterFrame(query, s2, appId, env.appId);
    StorageAfterFrame(query, s3, token, None);
    StorageAfterFrame(q, s4, fromUrl, Some(href));
    StorageAfterFrame(q, s5, version, env.functionsVersion);
  }

  /** The clearing step touches only the stored token, the legacy `token`
      key and its own key. */
  lemma AfterClearKeeps(query: Query, storage: Storage, n: string)
    requires n == "from_url" || n == "functions_version" || n == "app_base_url"
    ensures Lookup(AfterClear(query, storage), StorageKey(n)) == Lookup(storage, StorageKey(n))
  {
    LaterKeysUntouched(n, "clear_access_token");
    AfterClearKeepsKey(query, storage, StorageKey(n));
  }

  lemma LaterKeysUntouched(n: string, clear: string)
    requires n == "from_url" || n == "functions_version" || n == "app_base_url"
    requires clear == "clear_access_token"
    ensures StorageKey(n) != StorageKey(clear)
    ensures StorageKey(n) != "token" && StorageKey(n) != "base44_access_token"
  {
    ParamKeyOf(n);
    ParamKeyOf(clear);
    var k := StorageKey(n);
    assert |StorageKey(clear)| == 25;
    assert |k| == 15 || |k| == 24 || k[8] == 'p';
  }

  lemma AfterClearKeepsKey(query: Query, storage: Storage, k: string)
    requires k != StorageKey("clear_access_token") && k != "token" && k != "base44_access_token"
    ensures Lookup(AfterClear(query, storage), k) == Lookup(storage, k)
  {
    ClearStepKeeps(query, storage, "clear_access_token", k);
  }

  lemma ClearStepKeeps(query: Query, storage: Storage, c: string, k: string)
    requires k != StorageKey(c) && k != "token" && k != "base44_access_token"
    ensures Lookup(ClearStep(query, storage, c), k) == Lookup(storage, k)
  {
    StorageAfterFrame(query, storage, c, None);
  }

  /** With nothing in the URL and no default, a parameter falls back to the
      value stored by an earlier load (`storage.getItem`), or to null. */
  lemma LoadFallsBackToStorage(query: Query, storage: Storage, env: EnvDefaults, href: string)
    ensures var l := BrowserLoad(query, storage, env, href);
      (!Given(Lookup(query, "from_url")) && href == "" ==>
        l.params.fromUrl == Fallback(storage, "from_url")) &&
      (!Given(Lookup(query, "functions_version")) && !Given(env.functionsVersion) ==>
        l.params.functionsVersion == Fallback(storage, "functions_version")) &&
      (!Given(Lookup(query, "app_base_url")) && !Given(env.appBaseUrl) ==>
        l.params.appBaseUrl == Fallback(storage, "app_base_url"))
  {
    StandardFallsBack(query, storage, env, href,
      "app_id", "access_token", "from_url", "functions_version", "app_base_url");
  }

  lemma StandardFallsBack(query: Query, storage: Storage, env: EnvDefaults, href: string,
                          appId: string, token: string, fromUrl: string, version: string, baseUrl: string)
    requires appId == "app_id" && token == "access_token" && fromUrl == "from_url"
    requires version == "functions_version" && baseUrl == "app_base_url"
    ensures var l := LoadNamed(query, AfterClear(query, storage), env, href, appId, token, fromUrl, version, baseUrl);
      (!Given(Lookup(query, fromUrl)) && href == "" ==> l.params.fromUrl == Fallback(storage, fromUrl)) &&
      (!Given(Lookup(query, version)) && !Given(env.functionsVersion) ==>
        l.params.functionsVersion == Fallback(storage, version)) &&
      (!Given(Lookup(query, baseUrl)) && !Given(env.appBaseUrl) ==> l.params.appBaseUrl == Fallback(storage, baseUrl))
  {
    StandardKeysDistinct(appId, token, fromUrl, version, baseUrl);
    LoadNamedFallsBack(query, AfterClear(query, storage), env, href, appId, token, fromUrl, version, baseUrl);
    AfterClearKeeps(query, storage, fromUrl);
    AfterClearKeeps(query, storage, version);
    AfterClearKeeps(query, storage, baseUrl);
  }

  /** Clearing the token: with `clear_access_token=true` and no `access_token`
      in the URL, the token comes out empty whatever storage held. */
  lemma ClearAccessTokenEmptiesToken(query: Query, storage: Storage, appIdEnv: Option<string>)
    requires Lookup(query, "clear_access_token") == Some("true")
    requires !Given(Lookup(query, "access_token"))
    ensures Resolve(query, StorageAfter(query, AfterClear(query, storage), "app_id", appIdEnv), "access_token", None) == None
  {
    ClearedTokenStaysGone(query, AfterClear(query, storage), appIdEnv, "access_token", "app_id");
  }

  lemma ClearedTokenStaysGone(query: Query, s2: Storage, appIdEnv: Option<string>, tokenName: string, appIdName: string)
    requires tokenName == "access_token" && appIdName == "app_id"
    requires "base44_access_token" !in s2
    requires !Given(Lookup(query, tokenName))
    ensures Resolve(query, StorageAfter(query, s2, appIdName, appIdEnv), tokenName, None) == None
  {
    ParamKeyOf(tokenName);
    ParamKeyOf(appIdName);
    assert "base44_" + tokenName == "base44_access_token";
  }

  /** The clearing request is itself stored, so once it has appeared in a
      URL, later loads without it keep clearing the stored token. */
  lemma ClearRequestIsRemembered(query: Query, storage: Storage, later: Query)
    requires Lookup(query, "clear_access_token") == Some("true")
    requires "clear_access_token" !in later
    ensures Resolve(later, StorageAfter(query, storage, "clear_access_token", None), "clear_access_token", None) == Some("true")
  {
  }
}
