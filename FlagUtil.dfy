/**
 * `SetFlagsFromEnv` (pkg/flagutil/env.go): every flag not already set (one `fs.Visit` reaches,
 * that is, marked changed) takes its value from the environment variable named after it.
 *
 * A flag set is modelled by its flags in the order `VisitAll` visits them. How a flag's value
 * parses its text (a bool, an integer, a string list, ...) belongs to the flag's type, so it
 * is a `Setter` given to the model; the environment is a map from variable names to values.
 */
module FlagUtil {
  import opened Wrappers
  import opened GoStrings

  /** A registered flag: its name, its value as text, and whether it has been set (`Changed`). */
  datatype Flag = Flag(name: string, value: string, changed: bool)

  /**
   * Setting a flag from text: given the flag name and the text, the new value or the error.
   * In `SetFlagsFromEnv` this is pflag's `fs.Set`, whose error already wraps the error of the
   * value's own `Set`; in the exporter's `parseFlagsAndEnvVars` it is the value's `Set` itself.
   */
  type Setter = (string, string) -> Result<string, string>

  /** A pflag `FlagSet`: its flags, in visiting order. */
  class FlagSet {
    var flags: seq<Flag>

    constructor (flags: seq<Flag>)
      ensures this.flags == flags
    {
      this.flags := flags;
    }
  }

  /** Upper-case ASCII letters, digits and `_`: what a derived key consists of for such a name. */
  predicate EnvKeyChar(c: char) {
    'A' <= c <= 'Z' || IsDigit(c) || c == '_'
  }

  /** The variable for flag `name`: `prefix_`, then the name upper-cased, with `.` and `-` turned into `_`. */
  function EnvKey(prefix: string, name: string): (key: string)
    ensures |key| == |prefix| + 1 + |name| && key[..|prefix| + 1] == prefix + "_"
    ensures forall i :: 0 <= i < |name| && ('a' <= name[i] <= 'z' || IsDigit(name[i]) || name[i] in "._-")
                        ==> EnvKeyChar(key[|prefix| + 1 + i])
  {
    prefix + "_" + ToUpper(MapChar(MapChar(name, '.', '_'), '-', '_'))
  }

  /** The key is built with `strings.Replace` of every `.` and every `-`. */
  lemma EnvKeyReplace(prefix: string, name: string)
    ensures EnvKey(prefix, name) == prefix + "_" + ToUpper(ReplaceAll(ReplaceAll(name, ".", "_"), "-", "_"))
  {
    ReplaceAllChar(name, '.', '_');
    ReplaceAllChar(MapChar(name, '.', '_'), '-', '_');
  }

  /** The documented example: prefix PREFIX and flag some-flag read PREFIX_SOME_FLAG. */
  lemma EnvKeyExample()
    ensures EnvKey("PREFIX", "some-flag") == "PREFIX_SOME_FLAG"
  {
    assert MapChar("some-flag", '.', '_') == "some-flag";
    assert MapChar("some-flag", '-', '_') == "some_flag";
    assert ToUpper("some_flag") == "SOME_FLAG";
  }

  /** `os.Getenv`: the value, or "" for a variable that is not set. */
  function Getenv(env: map<string, string>, key: string): string {
    if key in env then env[key] else ""
  }

  /** The names of the flags that are already set, as `fs.Visit` finds them. */
  function Visited(flags: seq<Flag>): set<string> {
    set f | f in flags && f.changed :: f.name
  }

  /** The error `SetFlagsFromEnv` reports for a value the flag rejects. */
  function InvalidValue(val: string, key: string, err: string): string {
    "invalid value \"" + val + "\" for " + key + ": " + err
  }

  /**
   * One flag after the environment pass, and the error it caused: a flag that is already
   * set or whose variable is unset or empty is left alone; otherwise `fs.Set` parses the value
   * and marks the flag changed, or fails and leaves it as it was.
   */
  function FromEnv(f: Flag, visited: set<string>, prefix: string, env: map<string, string>, setter: Setter): (Flag, Option<string>) {
    if f.name in visited then (f, None)
    else
      var key := EnvKey(prefix, f.name);
      var val := Getenv(env, key);
      if val == "" then (f, None)
      else
        match setter(f.name, val)
        case Err(e) => (f, Some(InvalidValue(val, key, e)))
        case Ok(v) => (Flag(f.name, v, true), None)
  }

  /** The error each flag's value caused, in visiting order. */
  function Errors(flags: seq<Flag>, visited: set<string>, prefix: string, env: map<string, string>,
                  setter: Setter): (es: seq<Option<string>>)
    ensures |es| == |flags| && forall i :: 0 <= i < |flags| ==> es[i] == FromEnv(flags[i], visited, prefix, env, setter).1
  {
    seq(|flags|, i requires 0 <= i < |flags| => FromEnv(flags[i], visited, prefix, env, setter).1)
  }

  /** The last error of a sequence of outcomes, as repeated assignments to `err` leave it. */
  function LastError(es: seq<Option<string>>): Option<string> {
    if es == [] then None
    else if es[|es| - 1].Some? then es[|es| - 1]
    else LastError(es[..|es| - 1])
  }

  /**
   * `SetFlagsFromEnv`: sets every flag from its variable, one after the other, keeping only
   * the last error.
   */
  method SetFlagsFromEnv(fs: FlagSet, prefix: string, env: map<string, string>, setter: Setter)
      returns (err: Option<string>)
    modifies fs
    ensures |fs.flags| == |old(fs.flags)|
    ensures forall i :: 0 <= i < |fs.flags| ==>
      fs.flags[i] == FromEnv(old(fs.flags)[i], Visited(old(fs.flags)), prefix, env, setter).0
    ensures err == LastError(Errors(old(fs.flags), Visited(old(fs.flags)), prefix, env, setter))
  {
    var flags0 := fs.flags;
    var alreadySet := Visited(fs.flags);
    ghost var es := Errors(flags0, alreadySet, prefix, env, setter);
    err := None;
    for i := 0 to |flags0|
      invariant |fs.flags| == |flags0|
      invariant forall k :: 0 <= k < i ==> fs.flags[k] == FromEnv(flags0[k], alreadySet, prefix, env, setter).0
      invariant forall k :: i <= k < |flags0| ==> fs.flags[k] == flags0[k]
      invariant err == LastError(es[..i])
    {
      assert es[..i + 1][..i] == es[..i];
      ghost var step := FromEnv(flags0[i], alreadySet, prefix, env, setter);
      assert es[i] == step.1;
      var f := fs.flags[i];
      if f.name !in alreadySet {
        var key := prefix + "_" + ToUpper(MapChar(MapChar(f.name, '.', '_'), '-', '_'));
        assert key == EnvKey(prefix, f.name);
        var val := Getenv(env, key);
        if val != "" {
          match setter(f.name, val)
          case Err(e) =>
            err := Some(InvalidValue(val, key, e));
          case Ok(v) =>
            fs.flags := fs.flags[i := Flag(f.name, v, true)];
        }
      }
      assert fs.flags[i] == step.0;
      assert err == LastError(es[..i + 1]);
    }
    assert es[..|flags0|] == es;
  }

  // ---------------------------------------------------------------------------------------
  // What the pass promises

  /** A flag that was already set keeps its value, whatever the environment holds. */
  lemma AlreadySetUntouched(flags: seq<Flag>, i: nat, prefix: string, env: map<string, string>, setter: Setter)
    requires i < |flags| && flags[i].changed
    ensures FromEnv(flags[i], Visited(flags), prefix, env, setter) == (flags[i], None)
  {
    assert flags[i] in flags;
  }

  /** A flag whose variable is unset or empty is left untouched and raises no error. */
  lemma UnsetUntouched(f: Flag, visited: set<string>, prefix: string, env: map<string, string>, setter: Setter)
    requires Getenv(env, EnvKey(prefix, f.name)) == ""
    ensures FromEnv(f, visited, prefix, env, setter) == (f, None)
  {
  }

  /** A flag not yet set, whose variable holds a value it accepts, takes that value and is marked set. */
  lemma EnvValueApplied(f: Flag, visited: set<string>, prefix: string, env: map<string, string>, setter: Setter)
    requires f.name !in visited
    requires EnvKey(prefix, f.name) in env && env[EnvKey(prefix, f.name)] != ""
    requires setter(f.name, env[EnvKey(prefix, f.name)]).Ok?
    ensures FromEnv(f, visited, prefix, env, setter)
         == (Flag(f.name, setter(f.name, env[EnvKey(prefix, f.name)]).value, true), None)
  {
  }

  /**
   * The returned error is a rejected value's error, and no flag visited after that one had
   * its value rejected; there is no error exactly when no value was rejected.
   */
  lemma {:induction false} LastErrorIsLast(es: seq<Option<string>>)
    ensures LastError(es).None? <==> forall i :: 0 <= i < |es| ==> es[i].None?
    ensures LastError(es).Some? ==>
      exists i :: 0 <= i < |es| && es[i] == LastError(es) && forall j :: i < j < |es| ==> es[j].None?
    decreases |es|
  {
    if es != [] {
      var n := |es| - 1;
      var init := es[..n];
      LastErrorIsLast(init);
      assert forall i :: 0 <= i < n ==> init[i] == es[i];
      if es[n].None? && LastError(init).Some? {
        var i :| 0 <= i < |init| && init[i] == LastError(init) && forall j :: i < j < |init| ==> init[j].None?;
        assert es[i] == LastError(es);
      }
    }
  }
}
