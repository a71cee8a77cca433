/**
 * The command that builds a Go asset (deployments/infra/lib/goasset/internal/buildcmd/buildcmd.go): its
 * arguments, and its environment, in which the last setting of a variable wins.
 */
module BuildEnv {
  import opened Wrappers
  import opened Sequences
  import opened Text

  // ---- Environment entries ---------------------------------------------------------------------------

  /** strings.SplitN(s, sep, 2): what stands before the first separator, and what after it. */
  function Cut(s: string, sep: char): (r: (string, Option<string>))
    ensures sep !in r.0
    ensures r.1.Some? ==> s == r.0 + [sep] + r.1.value
    ensures r.1.None? ==> s == r.0
  {
    if s == "" then ("", None)
    else if s[0] == sep then ("", Some(s[1..]))
    else
      var rest := Cut(s[1..], sep);
      ([s[0]] + rest.0, rest.1)
  }

  lemma {:induction false} CutOf(before: string, sep: char, after: string)
    requires sep !in before
    ensures Cut(before + [sep] + after, sep) == (before, Some(after))
  {
    var whole := before + [sep] + after;
    if before == "" {
      assert whole[1..] == after;
    } else {
      assert whole[1..] == before[1..] + [sep] + after;
      CutOf(before[1..], sep, after);
      assert [before[0]] + before[1..] == before;
    }
  }

  function KeyOf(entry: string): string {
    Cut(entry, '=').0
  }

  function ValueOf(entry: string): string {
    var value := Cut(entry, '=').1;
    if value.Some? then value.value else ""
  }

  function Entry(key: string, value: string): string {
    key + "=" + value
  }

  lemma EntryParts(key: string, value: string)
    requires '=' !in key
    ensures KeyOf(Entry(key, value)) == key && ValueOf(Entry(key, value)) == value
  {
    CutOf(key, '=', value);
  }

  // ---- filterEnv ----------------------------------------------------------------------------------------

  /** The non-empty keys in the order of their first occurrence. */
  function Keys(env: seq<string>): seq<string> {
    if env == [] then []
    else
      var n := |env| - 1;
      var before := Keys(env[..n]);
      var key := KeyOf(env[n]);
      if key == "" || key in before then before else before + [key]
  }

  /** The value that each key was given last. */
  function Values(env: seq<string>): map<string, string> {
    if env == [] then map[]
    else
      var n := |env| - 1;
      var key := KeyOf(env[n]);
      if key == "" then Values(env[..n]) else Values(env[..n])[key := ValueOf(env[n])]
  }

  /** Reading a Go map: the empty string for a key that is not there. */
  function Lookup(values: map<string, string>, key: string): string {
    if key in values then values[key] else ""
  }

  function Listed(keys: seq<string>, values: map<string, string>): (env: seq<string>)
    ensures |env| == |keys| && forall i :: 0 <= i < |keys| ==> env[i] == Entry(keys[i], Lookup(values, keys[i]))
  {
    seq(|keys|, i requires 0 <= i < |keys| => Entry(keys[i], Lookup(values, keys[i])))
  }

  function Filtered(env: seq<string>): seq<string> {
    Listed(Keys(env), Values(env))
  }

  method FilterEnv(env: seq<string>) returns (out: seq<string>)
    ensures out == Filtered(env)
  {
    hide KeyOf, ValueOf, Entry;
    var envMap: map<string, string> := map[];
    var keysInOrder: seq<string> := [];
    for i := 0 to |env|
      invariant keysInOrder == Keys(env[..i]) && envMap == Values(env[..i])
    {
      assert env[..i + 1][..i] == env[..i];
      var key := KeyOf(env[i]);
      if key == "" {
        continue;
      }
      KeysAreSet(env[..i]);
      if key !in envMap {
        keysInOrder := keysInOrder + [key];
      }
      envMap := envMap[key := ValueOf(env[i])];
    }
    assert env[..|env|] == env;
    out := Render(keysInOrder, envMap);
  }

  /** The loop that writes the entries back in the order of their keys. */
  method Render(keysInOrder: seq<string>, envMap: map<string, string>) returns (out: seq<string>)
    ensures out == Listed(keysInOrder, envMap)
  {
    hide Entry, Lookup;
    out := [];
    for i := 0 to |keysInOrder|
      invariant |out| == i && forall k :: 0 <= k < i ==> out[k] == Entry(keysInOrder[k], Lookup(envMap, keysInOrder[k]))
    {
      out := out + [Entry(keysInOrder[i], Lookup(envMap, keysInOrder[i]))];
    }
  }

  // ---- What filtering keeps ----------------------------------------------------------------------------

  /** The keys of the list are those of the map, and none is empty or holds '='. */
  lemma {:induction false} KeysAreSet(env: seq<string>)
    ensures forall k :: k in Values(env) <==> k in Keys(env)
    ensures forall k :: k in Keys(env) ==> k != "" && '=' !in k
  {
    hide ValueOf, Cut;
    if env != [] {
      KeysAreSet(env[..|env| - 1]);
    }
  }

  lemma {:induction false} KeysAreUnique(env: seq<string>)
    ensures NoDup(Keys(env))
  {
    if env != [] {
      KeysAreUnique(env[..|env| - 1]);
    }
  }

  lemma OneMoreEntry(env: seq<string>, entry: string)
    ensures var key := KeyOf(entry);
            && Keys(env + [entry]) == (if key == "" || key in Keys(env) then Keys(env) else Keys(env) + [key])
            && Values(env + [entry]) == (if key == "" then Values(env) else Values(env)[key := ValueOf(entry)])
  {
    hide KeyOf, ValueOf;
    assert (env + [entry])[..|env|] == env;
  }

  lemma OneMoreKey(keys: seq<string>, values: map<string, string>, n: nat)
    requires n < |keys| && NoDup(keys)
    ensures keys[..n + 1] == keys[..n] + [keys[n]] && keys[n] !in keys[..n]
    ensures Listed(keys[..n + 1], values) == Listed(keys[..n], values) + [Entry(keys[n], Lookup(values, keys[n]))]
  {
    hide Entry, Lookup;
  }

  /** The map restricted to these keys. */
  ghost predicate IsRestriction(part: map<string, string>, keys: seq<string>, values: map<string, string>) {
    forall k :: (k in part <==> k in keys) && (k in part ==> part[k] == Lookup(values, k))
  }

  lemma OneMoreValue(part: map<string, string>, keys: seq<string>, values: map<string, string>, key: string)
    requires IsRestriction(part, keys, values)
    ensures IsRestriction(part[key := Lookup(values, key)], keys + [key], values)
  {
    hide Lookup;
  }

  /** A listing of distinct keys has these keys, with the values listed for them. */
  lemma {:induction false} PartsOfListed(keys: seq<string>, values: map<string, string>, n: nat)
    requires NoDup(keys) && n <= |keys| && forall i :: 0 <= i < |keys| ==> keys[i] != "" && '=' !in keys[i]
    ensures Keys(Listed(keys[..n], values)) == keys[..n]
    ensures IsRestriction(Values(Listed(keys[..n], values)), keys[..n], values)
  {
    hide KeyOf, ValueOf, Entry, Lookup, Keys, Values, Listed, NoDup, IsRestriction;
    if n > 0 {
      var key := keys[n - 1];
      var value := Lookup(values, key);
      PartsOfListed(keys, values, n - 1);
      OneMoreKey(keys, values, n - 1);
      EntryParts(key, value);
      OneMoreEntry(Listed(keys[..n - 1], values), Entry(key, value));
      OneMoreValue(Values(Listed(keys[..n - 1], values)), keys[..n - 1], values, key);
    } else {
      NothingListed(keys, values);
    }
  }

  lemma NothingListed(keys: seq<string>, values: map<string, string>)
    ensures Keys(Listed(keys[..0], values)) == keys[..0]
    ensures IsRestriction(Values(Listed(keys[..0], values)), keys[..0], values)
  {
    assert keys[..0] == [] && Listed([], values) == [];
  }

  /** Filtering keeps the keys, their order and their values. */
  lemma FilteringKeepsSettings(env: seq<string>)
    ensures Keys(Filtered(env)) == Keys(env) && Values(Filtered(env)) == Values(env)
    ensures |Filtered(env)| == |Keys(env)| && forall i :: 0 <= i < |Keys(env)| ==> KeyOf(Filtered(env)[i]) == Keys(env)[i]
  {
    hide KeyOf, ValueOf, Entry, Keys, Values, NoDup;
    var keys := Keys(env);
    KeysAreUnique(env);
    KeysAreSet(env);
    assert forall i :: 0 <= i < |keys| ==> keys[i] in keys;
    PartsOfListed(keys, Values(env), |keys|);
    assert keys[..|keys|] == keys;
    assert Values(Filtered(env)) == Values(env);
    forall i | 0 <= i < |keys| ensures KeyOf(Filtered(env)[i]) == keys[i] {
      EntryParts(keys[i], Lookup(Values(env), keys[i]));
    }
  }

  /** Filtering twice is filtering once, and no key occurs twice afterwards. */
  lemma FilteringIsIdempotent(env: seq<string>)
    ensures Filtered(Filtered(env)) == Filtered(env)
    ensures forall i, j :: 0 <= i < j < |Filtered(env)| ==> KeyOf(Filtered(env)[i]) != KeyOf(Filtered(env)[j])
    ensures forall i :: 0 <= i < |Filtered(env)| ==> KeyOf(Filtered(env)[i]) != ""
  {
    hide KeyOf;
    FilteringKeepsSettings(env);
    KeysAreUnique(env);
    KeysAreSet(env);
    assert forall i :: 0 <= i < |Keys(env)| ==> Keys(env)[i] in Keys(env);
  }

  lemma LastEntry(a: seq<string>, b: seq<string>)
    requires b != []
    ensures var n := |b| - 1; b[..n] + [b[n]] == b && (a + b[..n]) + [b[n]] == a + b
  {
  }

  /** Appending an entry to b appends it to a + b. */
  lemma OneMoreInBoth(a: seq<string>, init: seq<string>, last: string)
    requires Keys(a + init) == Keys(a) + Filter((k: string) => k !in Keys(a), Keys(init))
    requires Values(a + init) == Values(a) + Values(init)
    ensures Keys((a + init) + [last]) == Keys(a) + Filter((k: string) => k !in Keys(a), Keys(init + [last]))
    ensures Values((a + init) + [last]) == Values(a) + Values(init + [last])
  {
    hide KeyOf, ValueOf, Keys, Values, Filter;
    var p := (k: string) => k !in Keys(a);
    var key := KeyOf(last);
    OneMoreEntry(init, last);
    OneMoreEntry(a + init, last);
    FilterConcat(p, Keys(init), [key]);
    FilterSingle(p, key);
    assert key in Keys(a + init) <==> key in Keys(a) || key in Keys(init);
  }

  lemma {:induction false} PartsOfConcat(a: seq<string>, b: seq<string>)
    ensures Keys(a + b) == Keys(a) + Filter((k: string) => k !in Keys(a), Keys(b))
    ensures Values(a + b) == Values(a) + Values(b)
  {
    if b == [] {
      assert a + b == a;
    } else {
      hide KeyOf, ValueOf, Keys, Values, Filter;
      var init, last := b[..|b| - 1], b[|b| - 1];
      PartsOfConcat(a, init);
      OneMoreInBoth(a, init, last);
      LastEntry(a, b);
    }
  }

  /** Filtering parts first does not change the result. */
  lemma FilteringParts(a: seq<string>, b: seq<string>)
    ensures Filtered(a + b) == Filtered(Filtered(a) + Filtered(b))
  {
    FilteringKeepsSettings(a);
    FilteringKeepsSettings(b);
    hide Keys, Values, Filtered;
    PartsOfConcat(a, b);
    PartsOfConcat(Filtered(a), Filtered(b));
    SameSettings(a + b, Filtered(a) + Filtered(b));
  }

  lemma SameSettings(a: seq<string>, b: seq<string>)
    requires Keys(a) == Keys(b) && Values(a) == Values(b)
    ensures Filtered(a) == Filtered(b)
  {
  }

  // ---- Build -------------------------------------------------------------------------------------------------

  datatype Options = Options(
    outPath: string,
    isTest: bool,
    extraEnv: seq<string>,
    platform: string,
    buildFlags: seq<string>,
    goProxy: string)

  /** The process's surroundings: its platform, environment and module cache, and the source's paths. */
  datatype Host = Host(
    goos: string, goarch: string, environ: seq<string>, goModCache: string,
    srcIsDir: bool, srcPath: string, srcBase: string, srcParent: string)

  datatype Command = Command(args: seq<string>, env: seq<string>, dir: string)

  datatype BuildError = InvalidPlatform

  predicate ContainsPrefix(items: seq<string>, prefix: string) {
    exists s :: s in items && HasPrefix(s, prefix)
  }

  /** The target platform: the option if it has the form os/arch, the host's if it is empty. */
  function Target(host: Host, opt: Options): Result<(string, string), BuildError> {
    if opt.platform == "" then Ok((host.goos, host.goarch))
    else
      var parts := Cut(opt.platform, '/');
      if parts.1.None? then Err(InvalidPlatform) else Ok((parts.0, parts.1.value))
  }

  /** Whether the host's module cache is passed on explicitly. */
  predicate PassesModCache(host: Host, opt: Options) {
    host.goModCache != "" && !ContainsPrefix(opt.extraEnv, "GOMODCACHE=")
  }

  predicate DisablesCgo(opt: Options) {
    "CGO_ENABLED=1" !in opt.extraEnv && "CGO_ENABLED=1" !in opt.buildFlags
  }

  /** The entries that the build adds on its own. */
  function OwnEntries(host: Host, opt: Options, target: (string, string)): seq<string> {
    [Entry("GOOS", target.0)]
    + [Entry("GOARCH", target.1)]
    + (if DisablesCgo(opt) then ["CGO_ENABLED=0"] else [])
    + (if opt.goProxy != "" then [Entry("GOPROXY", opt.goProxy)] else [])
    + (if PassesModCache(host, opt) then [Entry("GOMODCACHE", host.goModCache)] else [])
  }

  /** The environment before filtering. */
  function Assembled(host: Host, opt: Options, target: (string, string)): seq<string> {
    host.environ + OwnEntries(host, opt, target) + opt.extraEnv
  }

  function Arguments(host: Host, opt: Options): seq<string> {
    (if opt.isTest then ["test", "-c"] else ["build"])
    + ["-trimpath"]
    + (if !opt.isTest && !ContainsPrefix(opt.buildFlags, "-buildvcs=") then ["-buildvcs=false"] else [])
    + opt.buildFlags
    + ["-o", opt.outPath, if opt.isTest || host.srcIsDir then "." else host.srcBase]
  }

  method Build(host: Host, opt: Options) returns (r: Result<Command, BuildError>)
    ensures match Target(host, opt)
            case Err(e) => r == Err(e)
            case Ok(target) =>
              r == Ok(Command(Arguments(host, opt), Filtered(Assembled(host, opt, target)),
                              if host.srcIsDir then host.srcPath else host.srcParent))
  {
    hide Filtered, Cut, Entry;
    var goos, goarch := host.goos, host.goarch;
    if opt.platform != "" {
      var parts := Cut(opt.platform, '/');
      if parts.1.None? {
        return Err(InvalidPlatform);
      }
      goos, goarch := parts.0, parts.1.value;
    }
    var defaultBuildFlags := ["-trimpath"];
    if !opt.isTest {
      if !ContainsPrefix(opt.buildFlags, "-buildvcs=") {
        defaultBuildFlags := defaultBuildFlags + ["-buildvcs=false"];
      }
    }
    var buildArgs, buildTarget;
    if opt.isTest {
      buildArgs, buildTarget := ["test", "-c"], ".";
    } else {
      buildArgs, buildTarget := ["build"], if host.srcIsDir then "." else host.srcBase;
    }
    var args := buildArgs + defaultBuildFlags + opt.buildFlags + ["-o", opt.outPath] + [buildTarget];
    assert args == Arguments(host, opt);
    var env := host.environ + [Entry("GOOS", goos)] + [Entry("GOARCH", goarch)];
    if "CGO_ENABLED=1" !in opt.extraEnv && "CGO_ENABLED=1" !in opt.buildFlags {
      env := env + ["CGO_ENABLED=0"];
    }
    if opt.goProxy != "" {
      env := env + [Entry("GOPROXY", opt.goProxy)];
    }
    if host.goModCache != "" && !ContainsPrefix(opt.extraEnv, "GOMODCACHE=") {
      env := env + [Entry("GOMODCACHE", host.goModCache)];
    }
    env := env + opt.extraEnv;
    assert env == host.environ + OwnEntries(host, opt, (goos, goarch)) + opt.extraEnv;
    env := FilterEnv(env);
    r := Ok(Command(args, env, if host.srcIsDir then host.srcPath else host.srcParent));
  }

  // ---- What the build sees -------------------------------------------------------------------------------------

  /** The setting of a variable in an environment: the last one counts. */
  function Setting(env: seq<string>, key: string): Option<string> {
    if env == [] then None
    else if KeyOf(env[|env| - 1]) == key then Some(ValueOf(env[|env| - 1]))
    else Setting(env[..|env| - 1], key)
  }

  lemma {:induction false} SettingIsValue(env: seq<string>, key: string)
    requires key != ""
    ensures Setting(env, key) == if key in Values(env) then Some(Values(env)[key]) else None
  {
    hide KeyOf, ValueOf;
    if env != [] {
      SettingIsValue(env[..|env| - 1], key);
    }
  }

  lemma {:induction false} SettingOfConcat(a: seq<string>, b: seq<string>, key: string)
    ensures Setting(a + b, key) == if Setting(b, key).Some? then Setting(b, key) else Setting(a, key)
  {
    hide KeyOf, ValueOf;
    if b == [] {
      assert a + b == a;
    } else {
      assert (a + b)[..|a + b| - 1] == a + b[..|b| - 1];
      SettingOfConcat(a, b[..|b| - 1], key);
    }
  }

  lemma SettingOfEntry(name: string, value: string, key: string)
    requires '=' !in name
    ensures Setting([Entry(name, value)], key) == if key == name then Some(value) else None
  {
    EntryParts(name, value);
    assert [Entry(name, value)][..0] == [];
  }

  /** Filtering does not change what any variable is set to. */
  lemma FilteringKeepsEverySetting(env: seq<string>, key: string)
    requires key != ""
    ensures Setting(Filtered(env), key) == Setting(env, key)
  {
    hide Filtered, Values, Keys;
    FilteringKeepsSettings(env);
    SettingIsValue(env, key);
    SettingIsValue(Filtered(env), key);
  }

  /** The platform is os/arch as the option names it, cut at its first slash, or the host's. */
  lemma TargetIs(host: Host, opt: Options, os: string, arch: string)
    ensures opt.platform == "" ==> Target(host, opt) == Ok((host.goos, host.goarch))
    ensures opt.platform == os + "/" + arch && '/' !in os ==> Target(host, opt) == Ok((os, arch))
    ensures Target(host, opt) == Err(InvalidPlatform) <==> opt.platform != "" && '/' !in opt.platform
  {
    if opt.platform == os + "/" + arch && '/' !in os {
      CutOf(os, '/', arch);
    }
    var parts := Cut(opt.platform, '/');
    if parts.1.Some? {
      assert opt.platform[|parts.0|] == '/';
    }
  }

  /** Some item starts with the prefix. */
  predicate SomeStartsWith(items: seq<string>, prefix: string) {
    exists s :: s in items && prefix <= s
  }

  /**
   * The arguments: the kind of build, -trimpath, the default about version control, the caller's flags as they are, the
   * output path and at last what is built. A build without test gets the default unless the caller says something about it.
   */
  lemma ArgumentsAre(host: Host, opt: Options)
    ensures var args := Arguments(host, opt);
            var n := |args|;
            var first := if opt.isTest then 3 else 2;
            var flags := args[first..n - 3];
            && n >= first + 3
            && args[..first] == (if opt.isTest then ["test", "-c", "-trimpath"] else ["build", "-trimpath"])
            && args[n - 3] == "-o" && args[n - 2] == opt.outPath
            && args[n - 1] == (if opt.isTest then "." else if host.srcIsDir then "." else host.srcBase)
            && (flags == opt.buildFlags || flags == ["-buildvcs=false"] + opt.buildFlags)
            && (flags == opt.buildFlags <==> opt.isTest || SomeStartsWith(opt.buildFlags, "-buildvcs="))
  {
  }

  /** What the build itself sets, apart from the caller's extra entries. */
  function BuildSetting(host: Host, opt: Options, target: (string, string), key: string): Option<string> {
    if key == "GOOS" then Some(target.0)
    else if key == "GOARCH" then Some(target.1)
    else if key == "CGO_ENABLED" && !("CGO_ENABLED=1" in opt.extraEnv || "CGO_ENABLED=1" in opt.buildFlags) then Some("0")
    else if key == "GOPROXY" && opt.goProxy != "" then Some(opt.goProxy)
    else if key == "GOMODCACHE" && host.goModCache != "" && !SomeStartsWith(opt.extraEnv, "GOMODCACHE=") then Some(host.goModCache)
    else None
  }

  lemma OwnSwitches(host: Host, opt: Options)
    ensures DisablesCgo(opt) <==> !("CGO_ENABLED=1" in opt.extraEnv || "CGO_ENABLED=1" in opt.buildFlags)
    ensures PassesModCache(host, opt) <==> host.goModCache != "" && !SomeStartsWith(opt.extraEnv, "GOMODCACHE=")
  {
  }

  lemma BuildEntries(host: Host, opt: Options, target: (string, string), key: string)
    ensures Setting(OwnEntries(host, opt, target), key) == BuildSetting(host, opt, target, key)
  {
    OwnSwitches(host, opt);
    hide DisablesCgo, PassesModCache, SomeStartsWith;
    var os, arch := [Entry("GOOS", target.0)], [Entry("GOARCH", target.1)];
    var cgo := if DisablesCgo(opt) then ["CGO_ENABLED=0"] else [];
    var proxy := if opt.goProxy != "" then [Entry("GOPROXY", opt.goProxy)] else [];
    var cache := if PassesModCache(host, opt) then [Entry("GOMODCACHE", host.goModCache)] else [];
    SettingOfEntry("GOOS", target.0, key);
    SettingOfEntry("GOARCH", target.1, key);
    assert "CGO_ENABLED=0" == Entry("CGO_ENABLED", "0");
    SettingOfEntry("CGO_ENABLED", "0", key);
    SettingOfEntry("GOPROXY", opt.goProxy, key);
    SettingOfEntry("GOMODCACHE", host.goModCache, key);
    SettingOfConcat(os, arch, key);
    SettingOfConcat(os + arch, cgo, key);
    SettingOfConcat(os + arch + cgo, proxy, key);
    SettingOfConcat(os + arch + cgo + proxy, cache, key);
  }

  /**
   * What a variable is set to in the build: the caller's last extra setting, or else the build's own, or else
   * the host's. So without an extra setting GOOS and GOARCH name the target platform, whatever the host sets.
   */
  lemma BuildSees(host: Host, opt: Options, target: (string, string), key: string)
    requires key != ""
    ensures Setting(Filtered(Assembled(host, opt, target)), key) ==
            if Setting(opt.extraEnv, key).Some? then Setting(opt.extraEnv, key)
            else if BuildSetting(host, opt, target, key).Some? then BuildSetting(host, opt, target, key)
            else Setting(host.environ, key)
  {
    hide Setting, BuildSetting, Filtered, OwnEntries;
    FilteringKeepsEverySetting(Assembled(host, opt, target), key);
    var own := OwnEntries(host, opt, target);
    BuildEntries(host, opt, target, key);
    SettingOfConcat(host.environ, own, key);
    SettingOfConcat(host.environ + own, opt.extraEnv, key);
  }
}
