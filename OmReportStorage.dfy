/**
 * The per-line callbacks of the storage mappers (`StorageBattery`, `StorageController`,
 * `StorageEnclosure`, `StoragePdisk`, `StorageVdisk`).
 *
 * Besides the values slice, these callbacks capture a running controller name: it starts as
 * "N/A", a single-field banner line such as "Controller PERC H730 Mini (Slot Embedded)" replaces
 * it, and every record of a later data row carries it as the `controller_name` label.
 */
module OmReportStorage {
  import opened Wrappers
  import opened GoStrings
  import opened OmReportUtil
  import opened OmReportTypes

  const ControllerNamePrefix := "Controller "
  const EnclosureNamePrefix := "Enclosure(s) on Controller "
  const NoControllerName := "N/A"

  /** What a storage callback captures: the values slice and the running controller name. */
  datatype Scan = Scan(values: seq<Value>, controllerName: string)

  /** A data row of a storage table: three or more fields and not the "ID" header. */
  predicate StorageRow(f: seq<string>) {
    |f| >= 3 && f[0] != "ID"
  }

  /** A single-field line that starts with the banner prefix. */
  predicate IsBanner(prefix: string, f: seq<string>) {
    |f| == 1 && HasPrefix(f[0], prefix)
  }

  /**
   * The callback shape shared by the battery, enclosure, physical disk and virtual disk
   * mappers: a banner renames the controller, any other line appends the records `rows` gives
   * for it under the current name (rows give nothing for lines that are not data rows).
   */
  function BannerStep(prefix: string, rows: (string, seq<string>) -> Option<seq<Value>>): (Scan, seq<string>) -> Step<Scan> {
    (st: Scan, f: seq<string>) =>
      if IsBanner(prefix, f) then Next(st.(controllerName := TrimPrefix(f[0], prefix)))
      else
        match rows(st.controllerName, f)
        case None => Panic
        case Some(vs) => Next(st.(values := st.values + vs))
  }

  // ---------------------------------------------------------------------------------------
  // The reference reading of the controller-name threading.

  /** The name the last banner among `lines` sets, or `n0` when there is none. */
  function LastBanner(prefix: string, lines: seq<seq<string>>, n0: string): string {
    if lines == [] then n0
    else
      var f := lines[|lines| - 1];
      if IsBanner(prefix, f) then TrimPrefix(f[0], prefix)
      else LastBanner(prefix, lines[..|lines| - 1], n0)
  }

  /**
   * The records of a whole report read line by line from the end: each non-banner line gives
   * the records of `rows` under the name of the last banner above it; `None` if a line panics.
   */
  function BannerRecords(prefix: string, rows: (string, seq<string>) -> Option<seq<Value>>,
                         lines: seq<seq<string>>, n0: string): Option<seq<Value>> {
    if lines == [] then Some([])
    else
      var init := lines[..|lines| - 1];
      var f := lines[|lines| - 1];
      var h :- BannerRecords(prefix, rows, init, n0);
      if IsBanner(prefix, f) then Some(h)
      else
        var t :- rows(LastBanner(prefix, init, n0), f);
        Some(h + t)
  }

  /**
   * Running a banner callback over a report yields exactly the reference records, each
   * stamped with the latest banner above its line, and leaves the name of the last banner.
   */
  lemma {:induction false} BannerFeed(prefix: string, rows: (string, seq<string>) -> Option<seq<Value>>,
                                      lines: seq<seq<string>>, acc: seq<Value>, n0: string)
    ensures Feed(lines, Scan(acc, n0), BannerStep(prefix, rows))
         == match BannerRecords(prefix, rows, lines, n0)
            case None => Panic
            case Some(vs) => Next(Scan(acc + vs, LastBanner(prefix, lines, n0)))
    decreases |lines|
  {
    var step := BannerStep(prefix, rows);
    if lines == [] {
      assert acc + [] == acc;
    } else {
      var n := |lines| - 1;
      var init := lines[..n];
      var f := lines[n];
      assert lines == init + [f];
      BannerFeed(prefix, rows, init, acc, n0);
      FeedConcat(init, [f], Scan(acc, n0), step);
      assert [f][1..] == [];
      match BannerRecords(prefix, rows, init, n0)
      case None =>
      case Some(h) =>
        var name := LastBanner(prefix, init, n0);
        assert Feed(lines, Scan(acc, n0), step) == Feed([f], Scan(acc + h, name), step);
        if !IsBanner(prefix, f) {
          match rows(name, f)
          case None =>
          case Some(t) => assert acc + h + t == acc + (h + t);
        }
    }
  }

  /** Without any banner line, every record keeps the initial "N/A" name. */
  lemma {:induction false} NoBannerKeepsName(prefix: string, lines: seq<seq<string>>, n0: string)
    requires forall i :: 0 <= i < |lines| ==> !IsBanner(prefix, lines[i])
    ensures LastBanner(prefix, lines, n0) == n0
    decreases |lines|
  {
    if lines != [] {
      var init := lines[..|lines| - 1];
      assert forall i :: 0 <= i < |init| ==> init[i] == lines[i];
      NoBannerKeepsName(prefix, init, n0);
    }
  }

  /** A banner line fixes the name for everything after it until the next banner. */
  lemma {:induction false} BannerThenRows(prefix: string, a: seq<seq<string>>, b: seq<string>, c: seq<seq<string>>, n0: string)
    requires IsBanner(prefix, b)
    requires forall i :: 0 <= i < |c| ==> !IsBanner(prefix, c[i])
    ensures LastBanner(prefix, a + [b] + c, n0) == TrimPrefix(b[0], prefix)
    decreases |c|
  {
    if c == [] {
      assert a + [b] + c == a + [b];
    } else {
      var c' := c[..|c| - 1];
      assert a + [b] + c == (a + [b] + c') + [c[|c| - 1]];
      assert forall i :: 0 <= i < |c'| ==> c'[i] == c[i];
      BannerThenRows(prefix, a, b, c', n0);
    }
  }

  /**
   * A whole report panics exactly at a line that is not a banner and whose rows panic under the
   * controller name in force at that line.
   */
  lemma {:induction false} BannerRecordsPanics(prefix: string, rows: (string, seq<string>) -> Option<seq<Value>>,
                                               lines: seq<seq<string>>, n0: string)
    ensures BannerRecords(prefix, rows, lines, n0).None? <==>
      exists i :: 0 <= i < |lines| && !IsBanner(prefix, lines[i]) && rows(LastBanner(prefix, lines[..i], n0), lines[i]).None?
    decreases |lines|
  {
    if lines != [] {
      var n := |lines| - 1;
      var init := lines[..n];
      BannerRecordsPanics(prefix, rows, init, n0);
      assert forall i :: 0 <= i < n ==> init[i] == lines[i] && init[..i] == lines[..i];
      if BannerRecords(prefix, rows, lines, n0).None? && BannerRecords(prefix, rows, init, n0).Some? {
        assert !IsBanner(prefix, lines[n]) && rows(LastBanner(prefix, lines[..n], n0), lines[n]).None?;
      }
    }
  }

  /** Every record of a whole report has a property that every record of every row has. */
  lemma {:induction false} BannerRecordsAll(prefix: string, rows: (string, seq<string>) -> Option<seq<Value>>,
                                            lines: seq<seq<string>>, n0: string, p: Value -> bool)
    requires forall name, f, v :: rows(name, f).Some? && v in rows(name, f).value ==> p(v)
    ensures BannerRecords(prefix, rows, lines, n0).Some? ==> forall v :: v in BannerRecords(prefix, rows, lines, n0).value ==> p(v)
    decreases |lines|
  {
    if lines != [] {
      BannerRecordsAll(prefix, rows, lines[..|lines| - 1], n0, p);
    }
  }

  // ---------------------------------------------------------------------------------------
  // StorageBattery and StorageEnclosure

  /** `StorageBattery`: a status record per battery row, labelled with its id and the controller name. */
  function BatteryRows(name: string, f: seq<string>): (r: Option<seq<Value>>)
    ensures r.Some? && |r.value| == (if StorageRow(f) then 1 else 0)
    ensures StorageRow(f) ==> r.value[0] == Value("storage_battery_status", Severity(f[1]),
                                                  map["controller" := MapChar(f[0], ':', '_'), "controller_name" := name])
  {
    if |f| < 3 || f[0] == "ID" then Some([])
    else
      Some([Value("storage_battery_status", Severity(f[1]),
                  map["controller" := MapChar(f[0], ':', '_'), "controller_name" := name])])
  }

  /** `StorageEnclosure`: a status record per enclosure row, labelled with its id and the controller name. */
  function EnclosureRows(name: string, f: seq<string>): (r: Option<seq<Value>>)
    ensures r.Some? && |r.value| == (if StorageRow(f) then 1 else 0)
    ensures StorageRow(f) ==> r.value[0] == Value("storage_enclosure_status", Severity(f[1]),
                                                  map["enclosure" := MapChar(f[0], ':', '_'), "controller_name" := name])
  {
    if |f| < 3 || f[0] == "ID" then Some([])
    else
      Some([Value("storage_enclosure_status", Severity(f[1]),
                  map["enclosure" := MapChar(f[0], ':', '_'), "controller_name" := name])])
  }

  function BatteryStep(): (Scan, seq<string>) -> Step<Scan> {
    BannerStep(ControllerNamePrefix, BatteryRows)
  }

  function EnclosureStep(): (Scan, seq<string>) -> Step<Scan> {
    BannerStep(EnclosureNamePrefix, EnclosureRows)
  }

  // ---------------------------------------------------------------------------------------
  // StoragePdisk

  /** The labels of every record of one physical disk row. */
  function PdiskLabels(cid: string, name: string, f: seq<string>): map<string, string>
    requires |f| >= 1
  {
    map["controller" := cid, "disk" := MapChar(f[0], ':', '_'), "controller_name" := name]
  }

  /** A physical disk row that indexes past its end: `fields[3]`, `fields[9]` to `[15]`, or `[16]` after "Yes". */
  predicate PdiskRowPanics(f: seq<string>) {
    StorageRow(f) && (|f| == 3 || 9 <= |f| <= 15 || (|f| == 16 && f[15] == "Yes"))
  }

  /**
   * `StoragePdisk`'s records for one row: status and state always; failure prediction and
   * write endurance for rows of more than eight fields; encryption when field 15 is "Yes".
   */
  function PdiskRows(cid: string, name: string, f: seq<string>): (r: Option<seq<Value>>)
    ensures r.None? <==> PdiskRowPanics(f)
    ensures r.Some? && !StorageRow(f) ==> r.value == []
    ensures r.Some? && StorageRow(f) ==>
      && |r.value| == (if |f| <= 8 then 2 else if f[15] == "Yes" then 5 else 4)
      && r.value[0] == Value("storage_pdisk_status", Severity(f[1]), PdiskLabels(cid, name, f))
      && r.value[1] == Value("storage_pdisk_state", PdiskState(f[3]), PdiskLabels(cid, name, f))
      && (|f| > 8 ==>
           && r.value[2] == Value("storage_pdisk_failure_predicted", YesNoToBool(f[9]), PdiskLabels(cid, name, f))
           && r.value[3] == Value("storage_pdisk_remaining_rated_write_endurance", GetNumberFromString(f[8]), PdiskLabels(cid, name, f)))
      && (|r.value| == 5 ==> r.value[4] == Value("storage_pdisk_storage_encrypted", YesNoToBool(f[16]), PdiskLabels(cid, name, f)))
  {
    if |f| < 3 || f[0] == "ID" then Some([])
    else
      var ts := PdiskLabels(cid, name, f);
      var state :- At(f, 3);
      var status := Value("storage_pdisk_status", Severity(f[1]), ts);
      var stateValue := Value("storage_pdisk_state", PdiskState(state), ts);
      if |f| <= 8 then Some([status, stateValue])
      else
        var predicted :- At(f, 9);
        var encryptionCapable :- At(f, 15);
        var failure := Value("storage_pdisk_failure_predicted", YesNoToBool(predicted), ts);
        var endurance := Value("storage_pdisk_remaining_rated_write_endurance", GetNumberFromString(f[8]), ts);
        if encryptionCapable == "Yes" then
          var encrypted :- At(f, 16);
          Some([status, stateValue, failure, endurance, Value("storage_pdisk_storage_encrypted", YesNoToBool(encrypted), ts)])
        else Some([status, stateValue, failure, endurance])
  }

  /** Every record of a physical disk row carries that row's controller, disk and controller name. */
  lemma PdiskRowsLabelled(cid: string, name: string, f: seq<string>)
    ensures PdiskRows(cid, name, f).Some? && StorageRow(f) ==>
      AllLabelled(PdiskRows(cid, name, f).value, PdiskLabels(cid, name, f))
  {
    if PdiskRows(cid, name, f).Some? && StorageRow(f) {
      var vs := PdiskRows(cid, name, f).value;
      forall v | v in vs ensures v.labels == PdiskLabels(cid, name, f) {
        var k :| 0 <= k < |vs| && vs[k] == v;
      }
    }
  }

  /** The physical disk rows of controller `cid`, under the controller name in force. */
  function PdiskRowsOf(cid: string): (string, seq<string>) -> Option<seq<Value>> {
    (name, f) => PdiskRows(cid, name, f)
  }

  function PdiskStep(cid: string): (Scan, seq<string>) -> Step<Scan> {
    BannerStep(ControllerNamePrefix, PdiskRowsOf(cid))
  }

  // ---------------------------------------------------------------------------------------
  // StorageVdisk

  /** The metric names of one virtual disk row, in the order they are appended. */
  const VdiskMetrics: seq<string> := [
    "storage_vdisk_status", "storage_vdisk_state", "storage_vdisk_raidlevel",
    "storage_vdisk_read_policy", "storage_vdisk_write_policy", "storage_vdisk_cache_policy"
  ]

  function VdiskLabels(name: string, f: seq<string>): map<string, string>
    requires |f| >= 3
  {
    map["vdisk" := MapChar(f[0], ':', '_'), "vdisk_name" := f[2], "controller_name" := name]
  }

  /** The column of the layout; the three policy columns follow at +7, +8 and +9. */
  function LayoutColumn(f: seq<string>): nat {
    if |f| > 17 then 6 else 5
  }

  /** The six records of a virtual disk row long enough for its columns, in `VdiskMetrics` order. */
  function VdiskRecords(name: string, f: seq<string>): (vs: seq<Value>)
    requires |f| >= 3 && |f| > LayoutColumn(f) + 9
    ensures |vs| == 6
    ensures forall k :: 0 <= k < 6 ==> vs[k].name == VdiskMetrics[k] && vs[k].labels == VdiskLabels(name, f)
  {
    var ts := VdiskLabels(name, f);
    var c := LayoutColumn(f);
    [Value("storage_vdisk_status", Severity(f[1]), ts),
     Value("storage_vdisk_state", VdiskState(f[3]), ts),
     Value("storage_vdisk_raidlevel", GetNumberFromString(f[c]), ts),
     Value("storage_vdisk_read_policy", VdiskReadPolicy(f[c + 7]), ts),
     Value("storage_vdisk_write_policy", VdiskWritePolicy(f[c + 8]), ts),
     Value("storage_vdisk_cache_policy", VdiskCachePolicy(f[c + 9]), ts)]
  }

  /**
   * `StorageVdisk`'s six records for one row: status, state, RAID level, read, write and cache
   * policy, reading the layout and policies from columns 6/13/14/15 on rows of more than 17
   * fields and from 5/12/13/14 otherwise. Rows of 3 to 14 fields index past their end.
   */
  function VdiskRows(name: string, f: seq<string>): (r: Option<seq<Value>>)
    ensures r.None? <==> VdiskRowPanics(f)
    ensures r.Some? && !StorageRow(f) ==> r.value == []
    ensures r.Some? && StorageRow(f) ==>
      var c := LayoutColumn(f);
      && |r.value| == 6
      && (forall k :: 0 <= k < 6 ==> r.value[k].name == VdiskMetrics[k] && r.value[k].labels == VdiskLabels(name, f))
      && r.value[0].value == Severity(f[1])
      && r.value[1].value == VdiskState(f[3])
      && r.value[2].value == GetNumberFromString(f[c])
      && r.value[3].value == VdiskReadPolicy(f[c + 7])
      && r.value[4].value == VdiskWritePolicy(f[c + 8])
      && r.value[5].value == VdiskCachePolicy(f[c + 9])
  {
    if |f| < 3 || f[0] == "ID" then Some([])
    else
      var _ :- At(f, 3);
      var c := LayoutColumn(f);
      var _ :- At(f, c);
      var _ :- At(f, c + 7);
      var _ :- At(f, c + 8);
      var _ :- At(f, c + 9);
      Some(VdiskRecords(name, f))
  }

  /** A virtual disk row too short for the columns the mapper reads. */
  predicate VdiskRowPanics(f: seq<string>) {
    StorageRow(f) && |f| <= 14
  }

  function VdiskStep(): (Scan, seq<string>) -> Step<Scan> {
    BannerStep(ControllerNamePrefix, VdiskRows)
  }

  // ---------------------------------------------------------------------------------------
  // StorageController

  /**
   * `StorageController`'s callback. Each controller row renames the controller after its name
   * and slot (`fields[3]`, past the guard), reads that controller's physical disk report
   * (whose records are discarded, so only a panic there matters) and appends a status record.
   * `pdisks(cid)` is the physical disk report's outcome for controller `cid`.
   */
  function ControllerStep(pdisks: string -> Outcome<Scan>): (Scan, seq<string>) -> Step<Scan> {
    (st: Scan, f: seq<string>) =>
      if |f| < 3 || f[0] == "ID" then Next(st)
      else if |f| == 3 then Panic
      else
        var name := f[2] + " (Slot " + f[3] + ")";
        if pdisks(f[0]).Panicked? then Panic
        else
          var v := Value("storage_controller_status", Severity(f[1]),
                         map["id" := MapChar(f[0], ':', '_'), "controller_name" := name]);
          Next(Scan(st.values + [v], name))
  }

  /** The controller callback appends one record per controller row and panics only where the source does. */
  lemma ControllerStepShape(pdisks: string -> Outcome<Scan>, st: Scan, f: seq<string>)
    ensures ControllerStep(pdisks)(st, f).Panic? <==>
      StorageRow(f) && (|f| == 3 || pdisks(f[0]).Panicked?)
    ensures !StorageRow(f) ==> ControllerStep(pdisks)(st, f) == Next(st)
    ensures ControllerStep(pdisks)(st, f).Next? && StorageRow(f) ==>
      var s' := ControllerStep(pdisks)(st, f).state;
      && s'.values == st.values + [Value("storage_controller_status", Severity(f[1]),
                                         map["id" := MapChar(f[0], ':', '_'), "controller_name" := s'.controllerName])]
      && s'.controllerName == f[2] + " (Slot " + f[3] + ")"
  {
  }

  /** The controller callback read as an appending one: each controller row's status record. */
  function ControllerRows(pdisks: string -> Outcome<Scan>): seq<string> -> Option<seq<Value>> {
    f =>
      if !StorageRow(f) then Some([])
      else if |f| == 3 || pdisks(f[0]).Panicked? then None
      else Some([Value("storage_controller_status", Severity(f[1]),
                       map["id" := MapChar(f[0], ':', '_'), "controller_name" := f[2] + " (Slot " + f[3] + ")"])])
  }

  /**
   * Over a whole report, the controller callback appends exactly the controller rows' status
   * records, each named after its own row, and panics exactly where one of them does.
   */
  lemma {:induction false} ControllerFeed(pdisks: string -> Outcome<Scan>, lines: seq<seq<string>>, st: Scan)
    ensures Feed(lines, st, ControllerStep(pdisks)).Panic? <==> ConcatLines(ControllerRows(pdisks), lines).None?
    ensures Feed(lines, st, ControllerStep(pdisks)).Next? ==>
      Feed(lines, st, ControllerStep(pdisks)).state.values == st.values + ConcatLines(ControllerRows(pdisks), lines).value
    decreases |lines|
  {
    if lines == [] {
      assert st.values + [] == st.values;
    } else {
      var f := lines[0];
      ControllerStepShape(pdisks, st, f);
      match ControllerStep(pdisks)(st, f)
      case Panic =>
      case Next(s') =>
        ControllerFeed(pdisks, lines[1..], s');
        match ConcatLines(ControllerRows(pdisks), lines[1..])
        case None =>
        case Some(t) =>
          var h := ControllerRows(pdisks)(f).value;
          assert s'.values == st.values + h;
          assert st.values + h + t == st.values + (h + t);
    }
  }

  // ---------------------------------------------------------------------------------------
  // Fixtures

  lemma FeedCons<S>(f: seq<string>, rest: seq<seq<string>>, s: S, step: (S, seq<string>) -> Step<S>)
    ensures Feed([f] + rest, s, step) == match step(s, f)
                                         case Panic => Panic
                                         case Next(s') => Feed(rest, s', step)
  {
    assert ([f] + rest)[1..] == rest;
  }

  /** A line "Controller X" is a banner naming X. */
  lemma ControllerBanner(s: string, x: string)
    requires |s| >= |ControllerNamePrefix| && s[..|ControllerNamePrefix|] == ControllerNamePrefix
    requires s[|ControllerNamePrefix|..] == x
    ensures IsBanner(ControllerNamePrefix, [s])
    ensures TrimPrefix(s, ControllerNamePrefix) == x
  {
  }

  const BatteryFixtureHeader: seq<string> := ["ID", "Status", "Name", "State", "Recharge Count", "Max Recharge Count",
                                       "Learn State", "Next Learn Time", "Maximum Learn Delay"]
  const BatteryFixtureRow: seq<string> := ["0", "Ok", "Battery", "Ready", "Not Applicable", "Not Applicable",
                                    "Not Applicable", "Not Applicable", "Not Applicable"]

  /** The battery record of the fixture row under controller `x`. */
  function FixtureBattery(x: string): Value {
    Value("storage_battery_status", "0", map["controller" := "0", "controller_name" := x])
  }

  /** One controller section of the battery fixture: banner, blank, header, battery row, blank. */
  lemma BatterySection(banner: string, x: string, acc: seq<Value>, n: string)
    requires |banner| >= |ControllerNamePrefix| && banner[..|ControllerNamePrefix|] == ControllerNamePrefix
    requires banner[|ControllerNamePrefix|..] == x
    ensures Feed([[banner], [""], BatteryFixtureHeader, BatteryFixtureRow, [""]], Scan(acc, n), BatteryStep())
         == Next(Scan(acc + [FixtureBattery(x)], x))
  {
    var step := BatteryStep();
    var blank := [""];
    ControllerBanner(banner, x);
    MapCharAbsent("0", ':', '_');
    assert !IsBanner(ControllerNamePrefix, blank);
    assert !IsBanner(ControllerNamePrefix, BatteryFixtureHeader) && !IsBanner(ControllerNamePrefix, BatteryFixtureRow);
    assert BatteryRows(x, BatteryFixtureRow) == Some([FixtureBattery(x)]);
    assert BatteryRows(x, BatteryFixtureHeader) == Some([]) && BatteryRows(x, blank) == Some([]);
    var e: seq<Value> := [];
    var s1 := Scan(acc, x);
    var s2 := Scan(acc + [FixtureBattery(x)], x);
    assert acc + e == acc && acc + [FixtureBattery(x)] + e == acc + [FixtureBattery(x)];
    assert step(Scan(acc, n), [banner]) == Next(s1);
    assert step(s1, blank) == Next(s1);
    assert step(s1, BatteryFixtureHeader) == Next(s1);
    assert step(s1, BatteryFixtureRow) == Next(s2);
    assert step(s2, blank) == Next(s2);
    var nil: seq<seq<string>> := [];
    FeedCons(blank, nil, s2, step);
    FeedCons(BatteryFixtureRow, [blank], s1, step);
    FeedCons(BatteryFixtureHeader, [BatteryFixtureRow, blank], s1, step);
    FeedCons(blank, [BatteryFixtureHeader, BatteryFixtureRow, blank], s1, step);
    FeedCons([banner], [blank, BatteryFixtureHeader, BatteryFixtureRow, blank], Scan(acc, n), step);
  }

  /** The title and blank line above the first banner change nothing. */
  lemma BatteryTitle(acc: seq<Value>, n: string)
    ensures Feed([["List of Batteries in the System"], [""]], Scan(acc, n), BatteryStep()) == Next(Scan(acc, n))
  {
    var title := ["List of Batteries in the System"];
    var blank := [""];
    var step := BatteryStep();
    var s0 := Scan(acc, n);
    assert !IsBanner(ControllerNamePrefix, title) by {
      assert title[0][0] != ControllerNamePrefix[0];
    }
    assert !IsBanner(ControllerNamePrefix, blank);
    assert BatteryRows(n, title) == Some([]) && BatteryRows(n, blank) == Some([]);
    assert acc + [] == acc;
    assert step(s0, title) == Next(s0) && step(s0, blank) == Next(s0);
    var nil: seq<seq<string>> := [];
    FeedCons(blank, nil, s0, step);
    FeedCons(title, [blank], s0, step);
  }

  /** Two controller sections under the title: each battery carries its own section's controller. */
  lemma BatteryTwoSections(banner1: string, a: string, banner2: string, b: string)
    requires |banner1| >= |ControllerNamePrefix| && banner1[..|ControllerNamePrefix|] == ControllerNamePrefix
    requires banner1[|ControllerNamePrefix|..] == a
    requires |banner2| >= |ControllerNamePrefix| && banner2[..|ControllerNamePrefix|] == ControllerNamePrefix
    requires banner2[|ControllerNamePrefix|..] == b
    ensures
      var lines := [["List of Batteries in the System"], [""]]
                 + [[banner1], [""], BatteryFixtureHeader, BatteryFixtureRow, [""]]
                 + [[banner2], [""], BatteryFixtureHeader, BatteryFixtureRow, [""]];
      Feed(lines, Scan([], NoControllerName), BatteryStep()) == Next(Scan([FixtureBattery(a), FixtureBattery(b)], b))
  {
    var step := BatteryStep();
    var e: seq<Value> := [];
    var s0 := Scan(e, NoControllerName);
    var head := [["List of Batteries in the System"], [""]];
    var sec1 := [[banner1], [""], BatteryFixtureHeader, BatteryFixtureRow, [""]];
    var sec2 := [[banner2], [""], BatteryFixtureHeader, BatteryFixtureRow, [""]];
    BatteryTitle(e, NoControllerName);
    BatterySection(banner1, a, e, NoControllerName);
    BatterySection(banner2, b, e + [FixtureBattery(a)], a);
    FeedConcat(head, sec1, s0, step);
    FeedConcat(head + sec1, sec2, s0, step);
    assert e + [FixtureBattery(a)] + [FixtureBattery(b)] == [FixtureBattery(a), FixtureBattery(b)];
  }
}
