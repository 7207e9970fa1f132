/**
 * The exporter's orchestration (cmd/dellhw_exporter/dellhw_exporter.go): loading the enabled
 * collectors, the metric cache of `Collect`, the two records `execute` adds after each
 * collector, the log level switch, and how environment variables and legacy flag names map
 * onto flags.
 *
 * Time is an integer count of nanoseconds since the Unix epoch. The collectors run one after
 * the other in a given order; what a collector's `Update` sends and returns during a scrape,
 * and how long it takes, are given to `Collect`.
 */
module Exporter {
  import opened Wrappers
  import opened GoStrings
  import opened Collectors
  import opened FlagUtil

  // ---------------------------------------------------------------------------------------
  // setupLogger

  datatype Level = LevelDebug | LevelInfo | LevelWarn | LevelError

  /** The log level of `setupLogger`: only the exact lower- or upper-case spellings select a level, anything else is info. */
  function LogLevel(s: string): (l: Level)
    ensures l == LevelDebug <==> s == "debug" || s == "DEBUG"
    ensures l == LevelError <==> s == "error" || s == "ERROR"
    ensures l == LevelWarn <==> s == "warning" || s == "WARNING"
    ensures l == LevelInfo <==> s !in ["debug", "DEBUG", "error", "ERROR", "warning", "WARNING"]
  {
    match s
    case "debug" => LevelDebug
    case "DEBUG" => LevelDebug
    case "error" => LevelError
    case "ERROR" => LevelError
    case "warning" => LevelWarn
    case "WARNING" => LevelWarn
    case _ => LevelInfo
  }

  /** Mixed case and the short "warn" fall back to info, as does the default "INFO". */
  lemma LogLevelFallback()
    ensures LogLevel("Debug") == LogLevel("INFO") == LogLevel("warn") == LevelInfo
  {
  }

  // ---------------------------------------------------------------------------------------
  // normalizeFlags and flagNameFromEnvName

  /** The six legacy dotted flag names and the names they now stand for. */
  const LegacyFlags: seq<(string, string)> := [
    ("collectors.print", "collectors-print"),
    ("web.listen-address", "web-listen-address"),
    ("web.telemetry-path", "web-telemetry-path"),
    ("collectors.enabled", "collectors-enabled"),
    ("collectors.omr-report", "collectors-omreport"),
    ("collectors.cmd-timeout", "collectors-cmd-timeout")
  ]

  /** `normalizeFlags`: a legacy name becomes its replacement, every other name stays as it is. */
  function NormalizeFlags(name: string): (r: string)
    ensures r != name <==> (name, r) in LegacyFlags
    ensures forall i :: 0 <= i < |LegacyFlags| && LegacyFlags[i].0 == name ==> r == LegacyFlags[i].1
  {
    match name
    case "collectors.print" => "collectors-print"
    case "web.listen-address" => "web-listen-address"
    case "web.telemetry-path" => "web-telemetry-path"
    case "collectors.enabled" => "collectors-enabled"
    case "collectors.omr-report" => "collectors-omreport"
    case "collectors.cmd-timeout" => "collectors-cmd-timeout"
    case _ => name
  }

  /** Normalizing twice is normalizing once: no replacement is itself a legacy name. */
  lemma NormalizeIdempotent(name: string)
    ensures NormalizeFlags(NormalizeFlags(name)) == NormalizeFlags(name)
  {
  }

  /** Every legacy name has a dot and no replacement has one, so dot-free names are never renamed. */
  lemma NormalizeDotFree(name: string)
    requires '.' !in name
    ensures NormalizeFlags(name) == name
  {
    forall i | 0 <= i < |LegacyFlags| ensures LegacyFlags[i].0 != name {
      assert '.' in LegacyFlags[i].0;
    }
  }

  /** `flagNameFromEnvName`: lower-cased, every `_` turned into `-`. */
  function FlagNameFromEnvName(s: string): (r: string)
    ensures |r| == |s| && '_' !in r
    ensures forall i :: 0 <= i < |r| ==> !('A' <= r[i] <= 'Z')
  {
    MapChar(ToLower(s), '_', '-')
  }

  lemma FlagNameReplace(s: string)
    ensures FlagNameFromEnvName(s) == ReplaceAll(ToLower(s), "_", "-")
  {
    ReplaceAllChar(ToLower(s), '_', '-');
  }

  /** A flag name of lower-case letters, digits and dashes. */
  predicate DashedName(n: string) {
    forall i :: 0 <= i < |n| ==> 'a' <= n[i] <= 'z' || IsDigit(n[i]) || n[i] == '-'
  }

  const EnvPrefix := "DELLHW_EXPORTER_"

  /**
   * The variable `SetFlagsFromEnv` derives for a dashed flag name, with its prefix removed,
   * reads back as that flag name: the two directions of the environment naming agree.
   */
  lemma EnvNameRoundTrip(n: string)
    requires DashedName(n)
    ensures EnvKey("DELLHW_EXPORTER", n)[|EnvPrefix|..] == ToUpper(MapChar(n, '-', '_'))
    ensures FlagNameFromEnvName(ToUpper(MapChar(n, '-', '_'))) == n
  {
    assert MapChar(n, '.', '_') == n by {
      MapCharAbsent(n, '.', '_');
    }
    var u := ToUpper(MapChar(n, '-', '_'));
    forall i | 0 <= i < |n| ensures FlagNameFromEnvName(u)[i] == n[i] {
      if n[i] == '-' {
        assert u[i] == '_';
      } else {
        assert 'a' <= n[i] <= 'z' || IsDigit(n[i]);
      }
    }
  }

  // ---------------------------------------------------------------------------------------
  // parseFlagsAndEnvVars

  /** Where `parseFlagsAndEnvVars` ends: parsing the command line next, a `Set` error, or a panic. */
  datatype EnvOutcome = ParseArgs | SetFailed(err: string) | IndexPanic

  datatype EnvRun = EnvRun(flags: seq<Flag>, outcome: EnvOutcome)

  /** `flags.Lookup`: the first flag registered under the normalized name. */
  function Lookup(flags: seq<Flag>, name: string): (r: Option<nat>)
    ensures r.Some? ==> r.value < |flags| && flags[r.value].name == NormalizeFlags(name)
    ensures r.None? ==> forall i :: 0 <= i < |flags| ==> flags[i].name != NormalizeFlags(name)
  {
    FindName(flags, NormalizeFlags(name), 0)
  }

  function FindName(flags: seq<Flag>, name: string, from: nat): (r: Option<nat>)
    requires from <= |flags|
    ensures r.Some? ==> from <= r.value < |flags| && flags[r.value].name == name
    ensures r.None? ==> forall i :: from <= i < |flags| ==> flags[i].name != name
    decreases |flags| - from
  {
    if from == |flags| then None
    else if flags[from].name == name then Some(from)
    else FindName(flags, name, from + 1)
  }

  /** The flag an environment entry names, when it has the exporter's prefix. */
  function EnvFlagName(key: string): string {
    FlagNameFromEnvName(ReplaceAll(key, EnvPrefix, ""))
  }

  /**
   * The environment loop of `parseFlagsAndEnvVars` over the entries `env`: an entry
   * "DELLHW_EXPORTER_<NAME>=<value>" sets the value of the flag <name> unless no such flag
   * exists or it is already marked changed. The loop runs before `flags.Parse`, so in the
   * program no flag is marked changed yet; the command line takes precedence only because the
   * parse that follows (`ParseArgs`) overwrites the value. A value's `Set` does not mark the
   * flag changed. The first rejected value ends the loop with its error; a prefixed entry with
   * no "=" for a flag that exists panics on `vals[1]`.
   */
  function ApplyEnv(env: seq<string>, flags: seq<Flag>, setter: Setter): EnvRun
    decreases |env|
  {
    if env == [] then EnvRun(flags, ParseArgs)
    else
      var vals := SplitTwo(env[0], "=");
      if !HasPrefix(vals[0], EnvPrefix) then ApplyEnv(env[1..], flags, setter)
      else
        match Lookup(flags, EnvFlagName(vals[0]))
        case None => ApplyEnv(env[1..], flags, setter)
        case Some(i) =>
          if flags[i].changed then ApplyEnv(env[1..], flags, setter)
          else if |vals| < 2 then EnvRun(flags, IndexPanic)
          else
            match setter(flags[i].name, vals[1])
            case Err(e) => EnvRun(flags, SetFailed(e))
            case Ok(v) => ApplyEnv(env[1..], flags[i := flags[i].(value := v)], setter)
  }

  /** `parseFlagsAndEnvVars` up to the command-line parse, on the exporter's flag set. */
  method ParseFlagsAndEnvVars(fs: FlagSet, env: seq<string>, setter: Setter) returns (outcome: EnvOutcome)
    modifies fs
    ensures EnvRun(fs.flags, outcome) == ApplyEnv(env, old(fs.flags), setter)
  {
    ghost var flags0 := fs.flags;
    for k := 0 to |env|
      invariant ApplyEnv(env, flags0, setter) == ApplyEnv(env[k..], fs.flags, setter)
    {
      assert env[k..][0] == env[k] && env[k..][1..] == env[k + 1..];
      var vals := SplitTwo(env[k], "=");
      if !HasPrefix(vals[0], EnvPrefix) {
        continue;
      }
      var flagName := FlagNameFromEnvName(ReplaceAll(vals[0], EnvPrefix, ""));
      var fn := Lookup(fs.flags, flagName);
      if fn.None? || fs.flags[fn.value].changed {
        continue;
      }
      if |vals| < 2 {
        return IndexPanic;
      }
      var res := setter(fs.flags[fn.value].name, vals[1]);
      if res.Err? {
        return SetFailed(res.error);
      }
      fs.flags := fs.flags[fn.value := fs.flags[fn.value].(value := res.value)];
    }
    assert env[|env|..] == [];
    return ParseArgs;
  }

  /** The loop never adds, removes, renames or marks flags, and never touches a flag already marked changed. */
  lemma {:induction false} ApplyEnvKeepsSetFlags(env: seq<string>, flags: seq<Flag>, setter: Setter)
    ensures |ApplyEnv(env, flags, setter).flags| == |flags|
    ensures forall i :: 0 <= i < |flags| ==>
      && ApplyEnv(env, flags, setter).flags[i].name == flags[i].name
      && ApplyEnv(env, flags, setter).flags[i].changed == flags[i].changed
      && (flags[i].changed ==> ApplyEnv(env, flags, setter).flags[i] == flags[i])
    decreases |env|
  {
    if env != [] {
      var vals := SplitTwo(env[0], "=");
      if !HasPrefix(vals[0], EnvPrefix) {
        ApplyEnvKeepsSetFlags(env[1..], flags, setter);
      } else {
        match Lookup(flags, EnvFlagName(vals[0]))
        case None => ApplyEnvKeepsSetFlags(env[1..], flags, setter);
        case Some(i) =>
          if flags[i].changed || |vals| < 2 {
            ApplyEnvKeepsSetFlags(env[1..], flags, setter);
          } else {
            match setter(flags[i].name, vals[1])
            case Err(e) =>
            case Ok(v) => ApplyEnvKeepsSetFlags(env[1..], flags[i := flags[i].(value := v)], setter);
          }
      }
    }
  }

  /** Without any entry carrying the prefix, the flags stay as they are and the command line is parsed. */
  lemma {:induction false} ApplyEnvUnprefixed(env: seq<string>, flags: seq<Flag>, setter: Setter)
    requires forall k :: 0 <= k < |env| ==> !HasPrefix(SplitTwo(env[k], "=")[0], EnvPrefix)
    ensures ApplyEnv(env, flags, setter) == EnvRun(flags, ParseArgs)
    decreases |env|
  {
    if env != [] {
      assert forall k :: 0 <= k < |env[1..]| ==> env[1..][k] == env[k + 1];
      ApplyEnvUnprefixed(env[1..], flags, setter);
    }
  }

  /** The loop stops at the first failure: entries after a rejected value or a panic are never read. */
  lemma {:induction false} ApplyEnvConcat(a: seq<string>, b: seq<string>, flags: seq<Flag>, setter: Setter)
    ensures ApplyEnv(a + b, flags, setter) ==
      if ApplyEnv(a, flags, setter).outcome == ParseArgs then ApplyEnv(b, ApplyEnv(a, flags, setter).flags, setter)
      else ApplyEnv(a, flags, setter)
    decreases |a|
  {
    if a == [] {
      assert a + b == b;
    } else {
      assert (a + b)[0] == a[0] && (a + b)[1..] == a[1..] + b;
      var vals := SplitTwo(a[0], "=");
      if !HasPrefix(vals[0], EnvPrefix) {
        ApplyEnvConcat(a[1..], b, flags, setter);
      } else {
        match Lookup(flags, EnvFlagName(vals[0]))
        case None => ApplyEnvConcat(a[1..], b, flags, setter);
        case Some(i) =>
          if flags[i].changed {
            ApplyEnvConcat(a[1..], b, flags, setter);
          } else if |vals| >= 2 {
            match setter(flags[i].name, vals[1])
            case Err(e) =>
            case Ok(v) => ApplyEnvConcat(a[1..], b, flags[i := flags[i].(value := v)], setter);
          }
      }
    }
  }

  // ---------------------------------------------------------------------------------------
  // loadCollectors

  /** A factory of the registry: builds a collector from the configuration, or fails. */
  type Factory<C> = Config -> Result<C, string>

  /** The error for a name missing from the registry, `%q` quoting it. */
  function NotAvailable(name: string): string {
    "collector \"" + name + "\" not available"
  }

  /** What each registered factory gives for the configuration. */
  function Built<C>(factories: map<string, Factory<C>>, cfg: Config): map<string, Result<C, string>> {
    map n | n in factories :: factories[n](cfg)
  }

  /** `loadCollectors`: builds the listed collectors in order, failing at the first that cannot be built. */
  method LoadCollectors<C>(list: seq<string>, factories: map<string, Factory<C>>, cfg: Config)
      returns (r: Result<map<string, C>, string>)
    ensures r == Load(list, Built(factories, cfg), NotAvailable)
    ensures r.Ok? <==> forall i :: 0 <= i < |list| ==> list[i] in factories && factories[list[i]](cfg).Ok?
    ensures r.Ok? ==> r.value.Keys == (set i | 0 <= i < |list| :: list[i])
  {
    LoadOk(list, Built(factories, cfg), NotAvailable);
    var collectors: map<string, C> := map[];
    for i := 0 to |list|
      invariant Load(list[..i], Built(factories, cfg), NotAvailable) == Ok(collectors)
    {
      assert list[..i + 1][..i] == list[..i];
      var name := list[i];
      if name !in factories {
        assert Load(list[..i + 1], Built(factories, cfg), NotAvailable) == Err(NotAvailable(name));
        LoadPrefixFails(list, i + 1, Built(factories, cfg), NotAvailable);
        return Err(NotAvailable(name));
      }
      var c := factories[name](cfg);
      if c.Err? {
        assert Load(list[..i + 1], Built(factories, cfg), NotAvailable) == Err(c.error);
        LoadPrefixFails(list, i + 1, Built(factories, cfg), NotAvailable);
        return Err(c.error);
      }
      collectors := collectors[name := c.value];
    }
    assert list[..|list|] == list;
    return Ok(collectors);
  }

  // ---------------------------------------------------------------------------------------
  // execute

  /**
   * What reaches the metrics channel: a collector's own metric, or one of the two records
   * `execute` adds: the scrape duration (in nanoseconds) and the success (1 or 0), both
   * labelled with the collector's name.
   */
  datatype Metric =
    | Reported(name: string, value: string, labels: map<string, string>)
    | ScrapeDuration(collector: string, nanos: int)
    | ScrapeSuccess(collector: string, success: int)

  /** One run of a collector's `Update`: the metrics it sends and the error it returns. */
  datatype Update = Update(metrics: seq<Metric>, err: Option<string>)

  /** `execute`: the collector's metrics, then its duration, then 1 if `Update` returned no error and 0 otherwise. */
  function Execute(name: string, u: Update, duration: int): (ms: seq<Metric>)
    ensures |ms| == |u.metrics| + 2 && ms[..|u.metrics|] == u.metrics
    ensures ms[|ms| - 2] == ScrapeDuration(name, duration)
    ensures ms[|ms| - 1] == ScrapeSuccess(name, if u.err.None? then 1 else 0)
  {
    u.metrics + [ScrapeDuration(name, duration), ScrapeSuccess(name, if u.err.None? then 1 else 0)]
  }

  /** The metrics of a scrape that runs the collectors in the order `order`. */
  function Scrape(order: seq<string>, updates: string -> Update, durations: string -> int): seq<Metric> {
    if order == [] then []
    else
      var n := order[|order| - 1];
      Scrape(order[..|order| - 1], updates, durations) + Execute(n, updates(n), durations(n))
  }

  /** The collectors named by the success records among `ms`, in order. */
  function SuccessRecords(ms: seq<Metric>): seq<string> {
    if ms == [] then []
    else SuccessRecords(ms[..|ms| - 1]) + (if ms[|ms| - 1].ScrapeSuccess? then [ms[|ms| - 1].collector] else [])
  }

  lemma {:induction false} SuccessRecordsConcat(a: seq<Metric>, b: seq<Metric>)
    ensures SuccessRecords(a + b) == SuccessRecords(a) + SuccessRecords(b)
    decreases |b|
  {
    if b == [] {
      assert a + b == a;
    } else {
      var n := |b| - 1;
      assert (a + b)[..|a + b| - 1] == a + b[..n];
      SuccessRecordsConcat(a, b[..n]);
    }
  }

  lemma {:induction false} SuccessRecordsReported(ms: seq<Metric>)
    requires forall m :: m in ms ==> m.Reported?
    ensures SuccessRecords(ms) == []
    decreases |ms|
  {
    if ms != [] {
      assert ms[|ms| - 1] in ms;
      assert forall m :: m in ms[..|ms| - 1] ==> m in ms;
      SuccessRecordsReported(ms[..|ms| - 1]);
    }
  }

  /**
   * Each collector adds exactly one success record, after its own metrics: the success
   * records of a scrape name the collectors in the order they ran.
   */
  lemma {:induction false} ScrapeSuccessRecords(order: seq<string>, updates: string -> Update, durations: string -> int)
    requires forall n, m :: m in updates(n).metrics ==> m.Reported?
    ensures SuccessRecords(Scrape(order, updates, durations)) == order
    decreases |order|
  {
    if order != [] {
      var k := |order| - 1;
      var n := order[k];
      var u := updates(n);
      ScrapeSuccessRecords(order[..k], updates, durations);
      SuccessRecordsConcat(Scrape(order[..k], updates, durations), Execute(n, u, durations(n)));
      SuccessRecordsReported(u.metrics);
      assert Execute(n, u, durations(n)) == u.metrics + [ScrapeDuration(n, durations(n))] + [ScrapeSuccess(n, if u.err.None? then 1 else 0)];
      SuccessRecordsConcat(u.metrics + [ScrapeDuration(n, durations(n))], [ScrapeSuccess(n, if u.err.None? then 1 else 0)]);
      SuccessRecordsConcat(u.metrics, [ScrapeDuration(n, durations(n))]);
      assert SuccessRecords([ScrapeDuration(n, durations(n))]) == [];
      assert SuccessRecords([ScrapeSuccess(n, if u.err.None? then 1 else 0)]) == [n];
      assert order == order[..k] + [n];
    }
  }

  // ---------------------------------------------------------------------------------------
  // DellHWCollector

  /** A Go `int64` product or conversion: the integer wrapped into 64-bit two's complement. */
  function Int64(x: int): (r: int)
    ensures MinInt64 <= r <= MaxInt64
    ensures (r - x) % 0x1_0000_0000_0000_0000 == 0
    ensures MinInt64 <= x <= MaxInt64 ==> r == x
  {
    (x - MinInt64) % 0x1_0000_0000_0000_0000 + MinInt64
  }

  const Second := 1_000_000_000

  /** A cache duration whose nanoseconds fit in an `int64` is the given number of seconds. */
  lemma CacheDurationExact(seconds: int)
    requires 0 <= seconds <= MaxInt64 / Second
    ensures Int64(seconds * Second) == seconds * Second
  {
  }

  /** Beyond about 292 years the nanoseconds wrap and the duration turns negative. */
  lemma CacheDurationWraps()
    ensures Int64(9_223_372_037 * Second) < 0
  {
  }

  /** `DellHWCollector`: the loaded collectors and the metric cache. */
  class DellHWCollector<C> {
    var lastCollectTime: int
    var collectors: map<string, C>
    var cachingEnabled: bool
    var cacheDuration: int
    var cache: seq<Metric>

    /** `NewDellHWCollector`: an empty cache, last collected at the epoch, the duration in nanoseconds. */
    constructor (collectors: map<string, C>, cachingEnabled: bool, cacheDurationSeconds: int)
      requires MinInt64 <= cacheDurationSeconds <= MaxInt64
      ensures this.collectors == collectors && this.cachingEnabled == cachingEnabled
      ensures cache == [] && lastCollectTime == 0
      ensures cacheDuration == Int64(cacheDurationSeconds * Second)
    {
      this.cache := [];
      this.lastCollectTime := 0;
      this.collectors := collectors;
      this.cachingEnabled := cachingEnabled;
      this.cacheDuration := Int64(cacheDurationSeconds * Second);
    }

    /** Whether a scrape at `now` is served from the cache: caching is on and the cache has not expired. */
    predicate CacheHit(now: int)
      reads this
    {
      cachingEnabled && now < lastCollectTime + cacheDuration
    }

    /**
     * `Collect` at time `now`. On a cache hit the cached metrics are sent again, in order, and
     * nothing changes. Otherwise every collector runs once, in the order `order`, with the
     * outcome `updates` gives and taking `durations`; their metrics are sent and, with caching
     * on, make up the new cache; the collection time becomes `finish`, the time after the last
     * collector finished.
     */
    method Collect(now: int, order: seq<string>, updates: string -> Update, durations: string -> int, finish: int)
        returns (out: seq<Metric>)
      requires |order| == |collectors| && forall n :: n in order <==> n in collectors
      modifies this
      ensures collectors == old(collectors) && cachingEnabled == old(cachingEnabled) && cacheDuration == old(cacheDuration)
      ensures old(CacheHit(now)) ==> out == old(cache) && cache == old(cache) && lastCollectTime == old(lastCollectTime)
      ensures !old(CacheHit(now)) ==>
        && out == Scrape(order, updates, durations)
        && cache == (if cachingEnabled then out else old(cache))
        && lastCollectTime == finish
    {
      out := [];
      if cachingEnabled {
        var expiry := lastCollectTime + cacheDuration;
        if now < expiry {
          for i := 0 to |cache|
            invariant out == cache[..i]
          {
            out := out + [cache[i]];
          }
          assert cache[..|cache|] == cache;
          return;
        }
        cache := [];
      }
      ghost var cache0 := cache;
      for i := 0 to |order|
        invariant out == Scrape(order[..i], updates, durations)
        invariant cache == (if cachingEnabled then out else cache0)
        invariant collectors == old(collectors) && cachingEnabled == old(cachingEnabled) && cacheDuration == old(cacheDuration)
      {
        assert order[..i + 1][..i] == order[..i];
        var name := order[i];
        var ms := Execute(name, updates(name), durations(name));
        ghost var before := out;
        for j := 0 to |ms|
          invariant out == before + ms[..j]
          invariant cache == (if cachingEnabled then out else cache0)
          invariant collectors == old(collectors) && cachingEnabled == old(cachingEnabled) && cacheDuration == old(cacheDuration)
        {
          out := out + [ms[j]];
          if cachingEnabled {
            cache := cache + [ms[j]];
          }
        }
        assert ms[..|ms|] == ms;
      }
      assert order[..|order|] == order;
      lastCollectTime := finish;
    }
  }
}
