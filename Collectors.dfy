/**
 * Loading collectors from the factory registry (collector/collector.go's `Factories`), as both
 * `loadCollectors` functions do: walk the names in order, stop at the first name that is not
 * registered or whose factory fails, and otherwise key every built collector by its name.
 *
 * A collector is opaque here (a type parameter `C`); `built` holds, for each registered name,
 * what calling its factory gives.
 */
module Collectors {
  import opened Wrappers

  /** `collector.Config`: the interfaces the NIC collector watches. */
  datatype Config = Config(monitoredNics: seq<string>)

  /** The collectors of `names`, or the error of the first name that is missing or fails. */
  function Load<C>(names: seq<string>, built: map<string, Result<C, string>>, missing: string -> string)
    : Result<map<string, C>, string>
  {
    if names == [] then Ok(map[])
    else
      var n := names[|names| - 1];
      var m :- Load(names[..|names| - 1], built, missing);
      if n !in built then Err(missing(n))
      else
        var c :- built[n];
        Ok(m[n := c])
  }

  /** A name that can be loaded: it is registered and its factory succeeds. */
  predicate Loadable<C>(built: map<string, Result<C, string>>, n: string) {
    n in built && built[n].Ok?
  }

  /** Loading succeeds exactly when every name can be loaded, and then yields one collector per distinct name. */
  lemma {:induction false} LoadOk<C>(names: seq<string>, built: map<string, Result<C, string>>, missing: string -> string)
    ensures Load(names, built, missing).Ok? <==> forall i :: 0 <= i < |names| ==> Loadable(built, names[i])
    ensures Load(names, built, missing).Ok? ==>
      && Load(names, built, missing).value.Keys == (set i | 0 <= i < |names| :: names[i])
      && forall n :: n in Load(names, built, missing).value ==> Load(names, built, missing).value[n] == built[n].value
    decreases |names|
  {
    if names != [] {
      var k := |names| - 1;
      var init := names[..k];
      LoadOk(init, built, missing);
      assert forall i :: 0 <= i < k ==> init[i] == names[i];
      if Load(names, built, missing).Ok? {
        assert (set i | 0 <= i < |names| :: names[i]) == (set i | 0 <= i < |init| :: init[i]) + {names[k]};
      }
    }
  }

  /**
   * A failed load reports the first name that cannot be loaded: "missing" when it is not
   * registered, its factory's error otherwise.
   */
  lemma {:induction false} LoadFirstError<C>(names: seq<string>, built: map<string, Result<C, string>>, missing: string -> string)
    ensures Load(names, built, missing).Err? ==>
      exists i :: 0 <= i < |names|
        && !Loadable(built, names[i])
        && (forall j :: 0 <= j < i ==> Loadable(built, names[j]))
        && Load(names, built, missing).error == (if names[i] !in built then missing(names[i]) else built[names[i]].error)
    decreases |names|
  {
    var r := Load(names, built, missing);
    if names != [] && r.Err? {
      var k := |names| - 1;
      var init := names[..k];
      assert forall i :: 0 <= i < k ==> init[i] == names[i];
      if Load(init, built, missing).Err? {
        LoadFirstError(init, built, missing);
        var i :| 0 <= i < |init|
          && !Loadable(built, init[i])
          && (forall j :: 0 <= j < i ==> Loadable(built, init[j]))
          && Load(init, built, missing).error == (if init[i] !in built then missing(init[i]) else built[init[i]].error);
        assert r == Load(init, built, missing);
        assert names[i] == init[i];
      } else {
        LoadOk(init, built, missing);
        assert !Loadable(built, names[k]);
        assert forall j :: 0 <= j < k ==> Loadable(built, names[j]);
      }
    }
  }

  /** Once a prefix of the names fails, the whole list fails with the same error. */
  lemma {:induction false} LoadPrefixFails<C>(names: seq<string>, k: nat, built: map<string, Result<C, string>>,
                                              missing: string -> string)
    requires k <= |names| && Load(names[..k], built, missing).Err?
    ensures Load(names, built, missing) == Load(names[..k], built, missing)
    decreases |names| - k
  {
    if k < |names| {
      assert names[..k + 1][..k] == names[..k];
      LoadPrefixFails(names, k + 1, built, missing);
    } else {
      assert names[..k] == names;
    }
  }
}
