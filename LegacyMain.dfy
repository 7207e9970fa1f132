/**
 * The collector list handling of the earlier entry point (main.go): the enabled collectors
 * are one comma-separated string, `filterAvailableCollectors` keeps the registered names of
 * such a string, and `loadCollectors` builds the collectors of one, calling factories that
 * take no configuration.
 */
module LegacyMain {
  import opened Wrappers
  import opened GoStrings
  import opened Collectors

  /** The collectors enabled when no list is given. */
  const DefaultCollectors := "chassis,fans,memory,processors,ps,ps_amps_sysboard_pwr,storage_battery,storage_enclosure,storage_controller,storage_vdisk,system,temps,volts"

  /** The names among `names` that are registered, in their order. */
  function Available(names: seq<string>, registered: set<string>): (r: seq<string>)
    ensures |r| <= |names|
    ensures forall n :: n in r <==> n in names && n in registered
  {
    if names == [] then []
    else
      var n := names[|names| - 1];
      Available(names[..|names| - 1], registered) + (if n in registered then [n] else [])
  }

  /** What `filterAvailableCollectors` returns: the registered names of the list, comma-joined. */
  function Filtered(collectors: string, registered: set<string>): string {
    Join(Available(Split(collectors, ","), registered), ",")
  }

  /** `filterAvailableCollectors`: drops every name of the comma-separated list that has no factory. */
  method FilterAvailableCollectors(collectors: string, registered: set<string>) returns (r: string)
    ensures r == Filtered(collectors, registered)
  {
    var names := Split(collectors, ",");
    var availableCollectors: seq<string> := [];
    for i := 0 to |names|
      invariant availableCollectors == Available(names[..i], registered)
    {
      assert names[..i + 1][..i] == names[..i];
      if names[i] in registered {
        availableCollectors := availableCollectors + [names[i]];
      }
    }
    assert names[..|names|] == names;
    r := Join(availableCollectors, ",");
  }

  /** A list of registered names only is kept whole. */
  lemma {:induction false} AvailableAll(names: seq<string>, registered: set<string>)
    requires forall n :: n in names ==> n in registered
    ensures Available(names, registered) == names
    decreases |names|
  {
    if names != [] {
      var k := |names| - 1;
      forall n | n in names[..k] ensures n in registered {
        var i :| 0 <= i < k && names[..k][i] == n;
        assert names[i] == n;
      }
      AvailableAll(names[..k], registered);
      assert names[k] in names;
      assert names == names[..k] + [names[k]];
    }
  }

  /** Splitting the result again gives the kept names, unless none was kept. */
  lemma FilteredSplit(collectors: string, registered: set<string>)
    requires forall n :: n in registered ==> ',' !in n
    ensures Available(Split(collectors, ","), registered) != [] ==>
      Split(Filtered(collectors, registered), ",") == Available(Split(collectors, ","), registered)
    ensures Available(Split(collectors, ","), registered) == [] ==> Filtered(collectors, registered) == ""
  {
    var a := Available(Split(collectors, ","), registered);
    if a != [] {
      JoinSplitChar(a, ',');
    }
  }

  /** Filtering a filtered list changes nothing, provided no registered name holds a comma. */
  lemma FilterIdempotent(collectors: string, registered: set<string>)
    requires forall n :: n in registered ==> ',' !in n
    ensures Filtered(Filtered(collectors, registered), registered) == Filtered(collectors, registered)
  {
    var a := Available(Split(collectors, ","), registered);
    FilteredSplit(collectors, registered);
    if a != [] {
      AvailableAll(a, registered);
    } else {
      NoCharNoOccurrence("", ',');
      assert Split("", ",") == [""];
      assert Available([""], registered) == Available([], registered) + (if "" in registered then [""] else []);
    }
  }

  /** With a factory for every name of the default list, filtering that list keeps it as it is. */
  lemma DefaultsKept(registered: set<string>)
    requires forall n :: n in Split(DefaultCollectors, ",") ==> n in registered
    ensures Filtered(DefaultCollectors, registered) == DefaultCollectors
  {
    AvailableAll(Split(DefaultCollectors, ","), registered);
    SplitJoin(DefaultCollectors, ",");
  }

  /** The error for a name without factory, quoted with `'`. */
  function Missing(name: string): string {
    "collector '" + name + "' not available"
  }

  /**
   * `loadCollectors`: builds the collectors of the comma-separated `list` in order; `factories`
   * holds what each registered factory returns.
   */
  method LoadCollectors<C>(list: string, factories: map<string, Result<C, string>>)
      returns (r: Result<map<string, C>, string>)
    ensures r == Load(Split(list, ","), factories, Missing)
  {
    var names := Split(list, ",");
    var collectors: map<string, C> := map[];
    for i := 0 to |names|
      invariant Load(names[..i], factories, Missing) == Ok(collectors)
    {
      assert names[..i + 1][..i] == names[..i];
      var name := names[i];
      if name !in factories {
        LoadPrefixFails(names, i + 1, factories, Missing);
        return Err(Missing(name));
      }
      var c := factories[name];
      if c.Err? {
        LoadPrefixFails(names, i + 1, factories, Missing);
        return Err(c.error);
      }
      collectors := collectors[name := c.value];
    }
    assert names[..|names|] == names;
    return Ok(collectors);
  }

  /** An empty list is not "no collectors": it names the collector "", which does not exist. */
  lemma EmptyListFails<C>(factories: map<string, Result<C, string>>)
    requires "" !in factories
    ensures Load(Split("", ","), factories, Missing) == Err(Missing(""))
  {
    NoCharNoOccurrence("", ',');
    assert Split("", ",") == [""];
  }

  /**
   * Loading a filtered list never fails on a missing name unless nothing was kept: it loads
   * exactly the kept names, or, when there are none, fails on the name "".
   */
  lemma LoadFiltered<C>(list: string, factories: map<string, Result<C, string>>)
    requires forall n :: n in factories ==> ',' !in n
    ensures var kept := Available(Split(list, ","), factories.Keys);
      && (kept != [] ==> Load(Split(Filtered(list, factories.Keys), ","), factories, Missing) == Load(kept, factories, Missing))
      && (kept == [] && "" !in factories ==>
            Load(Split(Filtered(list, factories.Keys), ","), factories, Missing) == Err(Missing("")))
  {
    FilteredSplit(list, factories.Keys);
    if Available(Split(list, ","), factories.Keys) == [] && "" !in factories {
      EmptyListFails(factories);
    }
  }
}
