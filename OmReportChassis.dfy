/**
 * The per-line callbacks of the chassis and system mappers (`Chassis`, `Fans`, `Memory`,
 * `System`, `Ps`, `Nics`, `PsAmpsSysboardPwr`, `Processors`, `Temps`, `Volts`,
 * `ChassisBatteries`, `ChassisBios`, `ChassisFirmware`) and what they imply for a whole report.
 *
 * `strings.Replace(s, old, new, -1)` with one-character `old` and `new` is written `MapChar`;
 * `GoStrings.ReplaceAllChar` proves the two agree.
 */
module OmReportChassis {
  import opened Wrappers
  import opened GoStrings
  import opened OmReportUtil
  import opened OmReportTypes

  /** A probe row: exactly `n` fields, and the first parses as an integer. */
  predicate ProbeRow(f: seq<string>, n: nat) {
    |f| == n && |f| > 0 && Atoi(f[0]).Some?
  }

  /** A reading written as a number and a unit token, such as "5040 RPM" or "17.0 C". */
  function Reading(s: string, unit: string): (r: Option<string>)
    ensures r.Some? ==> IsWord(r.value) && Fields(s) == [r.value, unit]
  {
    var fs := Fields(s);
    if |fs| == 2 && fs[1] == unit then
      assert fs[0] in fs;
      Some(fs[0])
    else None
  }

  lemma ReadingOfSpaced(n: string, unit: string)
    requires IsWord(n) && IsWord(unit)
    ensures Reading(n + " " + unit, unit) == Some(n)
  {
    FieldsOfTwo(n, unit);
  }

  /** `extract(s, unit)` where it succeeds. */
  function ExtractOk(s: string, unit: string): (r: Option<string>)
    ensures r.Some? <==> HasSuffix(s, unit)
  {
    var e := Extract(s, unit);
    if e.1.None? then Some(e.0) else None
  }

  // ---------------------------------------------------------------------------------------
  // Chassis and System

  predicate ComponentRow(f: seq<string>) {
    |f| == 2 && f[0] != "SEVERITY"
  }

  /**
   * The callback of `Chassis` and `System`: one `metric` record per component row, valued by the
   * severity of the first field and labelled with the component, spaces turned into `_`.
   */
  function ComponentStatus(metric: string, f: seq<string>): (r: Option<seq<Value>>)
    ensures r.Some?
    ensures ComponentRow(f) ==> r.value == [Value(metric, Severity(f[0]), map["component" := MapChar(f[1], ' ', '_')])]
    ensures !ComponentRow(f) ==> r.value == []
  {
    if |f| != 2 || f[0] == "SEVERITY" then Some([])
    else
      Some([Value(metric, Severity(f[0]), map["component" := MapChar(f[1], ' ', '_')])])
  }

  function ChassisLine(f: seq<string>): Option<seq<Value>> {
    ComponentStatus("chassis_status", f)
  }

  function SystemLine(f: seq<string>): Option<seq<Value>> {
    ComponentStatus("system_status", f)
  }

  /** A well-formed status record of `Chassis` or `System`. */
  predicate ComponentRecord(metric: string, v: Value) {
    && v.name == metric
    && v.value in {"0", "1", "2"}
    && v.labels.Keys == {"component"}
    && ' ' !in v.labels["component"]
  }

  /** A report maps to one status record per component row, each with an underscored component label. */
  lemma ComponentMapping(metric: string, g: seq<string> -> Option<seq<Value>>, lines: seq<seq<string>>)
    requires forall f :: g(f) == ComponentStatus(metric, f)
    ensures ConcatLines(g, lines).Some?
    ensures |ConcatLines(g, lines).value| == CountLines(ComponentRow, lines)
    ensures forall v :: v in ConcatLines(g, lines).value ==> ComponentRecord(metric, v)
  {
    ConcatLinesPanics(g, lines);
    ConcatLinesLength(g, lines);
    RecordCountSelected(g, ComponentRow, lines);
    forall i, v | 0 <= i < |lines| && g(lines[i]).Some? && v in g(lines[i]).value
      ensures ComponentRecord(metric, v)
    {
      var c := MapChar(lines[i][1], ' ', '_');
      assert forall k :: 0 <= k < |c| ==> c[k] != ' ';
    }
    ConcatLinesAll(g, lines, v => ComponentRecord(metric, v));
  }

  /** The chassis fixture: the header row is skipped and both components are reported healthy. */
  lemma ChassisExample()
    ensures ConcatLines(ChassisLine, [["SEVERITY", "COMPONENT"], ["Ok", "Fans"], ["Ok", "Intrusion"], [""]])
         == Some([Value("chassis_status", "0", map["component" := "Fans"]),
                  Value("chassis_status", "0", map["component" := "Intrusion"])])
  {
    var lines := [["SEVERITY", "COMPONENT"], ["Ok", "Fans"], ["Ok", "Intrusion"], [""]];
    MapCharAbsent("Fans", ' ', '_');
    MapCharAbsent("Intrusion", ' ', '_');
    var none: seq<Value> := [];
    var v1 := Value("chassis_status", "0", map["component" := "Fans"]);
    var v2 := Value("chassis_status", "0", map["component" := "Intrusion"]);
    assert ChassisLine(lines[3]) == Some(none);
    assert ChassisLine(lines[2]) == Some([v2]);
    assert ChassisLine(lines[1]) == Some([v1]);
    assert ChassisLine(lines[0]) == Some(none);
    assert lines[3..][1..] == lines[4..] == [];
    assert none + none == none;
    assert ConcatLines(ChassisLine, lines[3..]) == Some(none);
    assert lines[2..][1..] == lines[3..];
    assert [v2] + none == [v2];
    assert ConcatLines(ChassisLine, lines[2..]) == Some([v2]);
    assert lines[1..][1..] == lines[2..];
    assert ConcatLines(ChassisLine, lines[1..]) == Some([v1] + [v2]);
    assert [v1] + [v2] == [v1, v2];
    assert none + [v1, v2] == [v1, v2];
    assert ConcatLines(ChassisLine, lines) == Some([v1, v2]);
  }

  // ---------------------------------------------------------------------------------------
  // Fans, Memory, Processors, Temps, Volts

  /** `Fans`: a status record per fan row, then its RPM reading when the reading is "<n> RPM". */
  function FansLine(f: seq<string>): (r: Option<seq<Value>>)
    ensures r.Some? && FollowsStatus(r.value, "chassis_fan_status")
    ensures r.value == [] <==> !ProbeRow(f, 8)
    ensures ProbeRow(f, 8) ==>
      && r.value[0] == Value("chassis_fan_status", Severity(f[1]), map["fan" := ReplaceName(f[2])])
      && r.value[1..] == Optional("chassis_fan_reading", Reading(f[3], "RPM"), r.value[0].labels)
  {
    if |f| != 8 || Atoi(f[0]).None? then Some([])
    else
      var ts := map["fan" := ReplaceName(f[2])];
      var vs := [Value("chassis_fan_status", Severity(f[1]), ts)] + Optional("chassis_fan_reading", Reading(f[3], "RPM"), ts);
      FollowsStatusLabelled(vs, "chassis_fan_status", ts);
      Some(vs)
  }

  /** `Memory`: one status record per five-field row with a numeric index. */
  function MemoryLine(f: seq<string>): (r: Option<seq<Value>>)
    ensures r.Some? && |r.value| == (if ProbeRow(f, 5) then 1 else 0)
    ensures ProbeRow(f, 5) ==> r.value[0] == Value("chassis_memory_status", Severity(f[1]), map["memory" := ReplaceName(f[2])])
  {
    if |f| != 5 || Atoi(f[0]).None? then Some([])
    else Some([Value("chassis_memory_status", Severity(f[1]), map["memory" := ReplaceName(f[2])])])
  }

  /** `Processors`: one status record per eight-field row with a numeric index. */
  function ProcessorsLine(f: seq<string>): (r: Option<seq<Value>>)
    ensures r.Some? && |r.value| == (if ProbeRow(f, 8) then 1 else 0)
    ensures ProbeRow(f, 8) ==> r.value[0] == Value("chassis_processor_status", Severity(f[1]), map["processor" := ReplaceName(f[2])])
  {
    if |f| != 8 || Atoi(f[0]).None? then Some([])
    else Some([Value("chassis_processor_status", Severity(f[1]), map["processor" := ReplaceName(f[2])])])
  }

  const TempsReadings: seq<string> := [
    "chassis_temps_reading", "chassis_temps_min_warning", "chassis_temps_max_warning",
    "chassis_temps_min_failure", "chassis_temps_max_failure"
  ]

  /**
   * `Temps`: a status record per probe row, then the reading and the four thresholds, each
   * only when written as "<n> C".
   */
  function TempsLine(f: seq<string>): (r: Option<seq<Value>>)
    ensures r.Some? && FollowsStatus(r.value, "chassis_temps")
    ensures r.value == [] <==> !ProbeRow(f, 8)
    ensures |r.value| <= 6
    ensures ProbeRow(f, 8) ==>
      && r.value[0] == Value("chassis_temps", Severity(f[1]), map["component" := ReplaceName(f[2])])
      && r.value[1..] == Optional("chassis_temps_reading", Reading(f[3], "C"), r.value[0].labels)
                       + Optional("chassis_temps_min_warning", Reading(f[4], "C"), r.value[0].labels)
                       + Optional("chassis_temps_max_warning", Reading(f[5], "C"), r.value[0].labels)
                       + Optional("chassis_temps_min_failure", Reading(f[6], "C"), r.value[0].labels)
                       + Optional("chassis_temps_max_failure", Reading(f[7], "C"), r.value[0].labels)
  {
    if |f| != 8 || Atoi(f[0]).None? then Some([])
    else
      var ts := map["component" := ReplaceName(f[2])];
      var status := Value("chassis_temps", Severity(f[1]), ts);
      var rest := Optional("chassis_temps_reading", Reading(f[3], "C"), ts)
                + Optional("chassis_temps_min_warning", Reading(f[4], "C"), ts)
                + Optional("chassis_temps_max_warning", Reading(f[5], "C"), ts)
                + Optional("chassis_temps_min_failure", Reading(f[6], "C"), ts)
                + Optional("chassis_temps_max_failure", Reading(f[7], "C"), ts);
      var vs := [status] + rest;
      assert vs[1..] == rest;
      FollowsStatusLabelled(vs, "chassis_temps", ts);
      Some(vs)
  }

  /** Every record after a probe row's status is one of the five "<n> C" metrics, labelled like the status. */
  lemma TempsReadingsLabelled(f: seq<string>)
    requires ProbeRow(f, 8)
    ensures forall v :: v in TempsLine(f).value[1..] ==> v.name in TempsReadings && v.labels == TempsLine(f).value[0].labels
  {
    var r := TempsLine(f).value;
    var ts := r[0].labels;
    var parts := [Optional("chassis_temps_reading", Reading(f[3], "C"), ts),
                  Optional("chassis_temps_min_warning", Reading(f[4], "C"), ts),
                  Optional("chassis_temps_max_warning", Reading(f[5], "C"), ts),
                  Optional("chassis_temps_min_failure", Reading(f[6], "C"), ts),
                  Optional("chassis_temps_max_failure", Reading(f[7], "C"), ts)];
    forall v | v in r[1..] ensures v.name in TempsReadings && v.labels == ts {
      assert v in parts[0] || v in parts[1] || v in parts[2] || v in parts[3] || v in parts[4];
    }
  }

  /** A temperature row whose five fields all read "<n> C" gives its status and the five values, in order. */
  lemma TempsRowWithReadings(f: seq<string>, reading: string, minWarn: string, maxWarn: string, minFail: string, maxFail: string)
    requires ProbeRow(f, 8)
    requires Reading(f[3], "C") == Some(reading) && Reading(f[4], "C") == Some(minWarn) && Reading(f[5], "C") == Some(maxWarn)
    requires Reading(f[6], "C") == Some(minFail) && Reading(f[7], "C") == Some(maxFail)
    ensures var ts := map["component" := ReplaceName(f[2])];
      TempsLine(f) == Some([Value("chassis_temps", Severity(f[1]), ts),
                            Value("chassis_temps_reading", reading, ts),
                            Value("chassis_temps_min_warning", minWarn, ts),
                            Value("chassis_temps_max_warning", maxWarn, ts),
                            Value("chassis_temps_min_failure", minFail, ts),
                            Value("chassis_temps_max_failure", maxFail, ts)])
  {
    var r := TempsLine(f).value;
    var ts := map["component" := ReplaceName(f[2])];
    assert r[1..] == [Value("chassis_temps_reading", reading, ts)] + [Value("chassis_temps_min_warning", minWarn, ts)]
                   + [Value("chassis_temps_max_warning", maxWarn, ts)] + [Value("chassis_temps_min_failure", minFail, ts)]
                   + [Value("chassis_temps_max_failure", maxFail, ts)];
    assert r == [r[0]] + r[1..] == [r[0], r[1], r[2], r[3], r[4], r[5]];
  }

  /** `Volts`: a status record per probe row, then the reading when it ends in "V". */
  function VoltsLine(f: seq<string>): (r: Option<seq<Value>>)
    ensures r.Some? && FollowsStatus(r.value, "chassis_volts_status")
    ensures r.value == [] <==> !ProbeRow(f, 8)
    ensures ProbeRow(f, 8) ==>
      && r.value[0] == Value("chassis_volts_status", Severity(f[1]), map["component" := ReplaceName(f[2])])
      && r.value[1..] == Optional("chassis_volts_reading", ExtractOk(f[3], "V"), r.value[0].labels)
  {
    if |f| != 8 || Atoi(f[0]).None? then Some([])
    else
      var ts := map["component" := ReplaceName(f[2])];
      var vs := [Value("chassis_volts_status", Severity(f[1]), ts)] + Optional("chassis_volts_reading", ExtractOk(f[3], "V"), ts);
      FollowsStatusLabelled(vs, "chassis_volts_status", ts);
      Some(vs)
  }

  /** In a whole fan report, every reading record carries the labels of the fan status before it. */
  lemma FansFollowStatus(lines: seq<seq<string>>)
    ensures ConcatLines(FansLine, lines).Some?
    ensures FollowsStatus(ConcatLines(FansLine, lines).value, "chassis_fan_status")
  {
    ConcatLinesPanics(FansLine, lines);
    ConcatLinesFollowStatus(FansLine, lines, "chassis_fan_status");
  }

  /** In a whole temperature report, the readings and thresholds follow their probe's status record. */
  lemma TempsFollowStatus(lines: seq<seq<string>>)
    ensures ConcatLines(TempsLine, lines).Some?
    ensures FollowsStatus(ConcatLines(TempsLine, lines).value, "chassis_temps")
  {
    ConcatLinesPanics(TempsLine, lines);
    ConcatLinesFollowStatus(TempsLine, lines, "chassis_temps");
  }

  /** In a whole voltage report, each reading follows its probe's status record. */
  lemma VoltsFollowStatus(lines: seq<seq<string>>)
    ensures ConcatLines(VoltsLine, lines).Some?
    ensures FollowsStatus(ConcatLines(VoltsLine, lines).value, "chassis_volts_status")
  {
    ConcatLinesPanics(VoltsLine, lines);
    ConcatLinesFollowStatus(VoltsLine, lines, "chassis_volts_status");
  }

  predicate MemoryRow(f: seq<string>) {
    ProbeRow(f, 5)
  }

  predicate ProcessorRow(f: seq<string>) {
    ProbeRow(f, 8)
  }

  /** A memory report has exactly one record per memory probe row. */
  lemma MemoryMapping(lines: seq<seq<string>>)
    ensures ConcatLines(MemoryLine, lines).Some?
    ensures |ConcatLines(MemoryLine, lines).value| == CountLines(MemoryRow, lines)
  {
    ConcatLinesPanics(MemoryLine, lines);
    ConcatLinesLength(MemoryLine, lines);
    RecordCountSelected(MemoryLine, MemoryRow, lines);
  }

  /** A processor report has exactly one record per processor probe row. */
  lemma ProcessorsMapping(lines: seq<seq<string>>)
    ensures ConcatLines(ProcessorsLine, lines).Some?
    ensures |ConcatLines(ProcessorsLine, lines).value| == CountLines(ProcessorRow, lines)
  {
    ConcatLinesPanics(ProcessorsLine, lines);
    ConcatLinesLength(ProcessorsLine, lines);
    RecordCountSelected(ProcessorsLine, ProcessorRow, lines);
  }

  /** The memory fixture: the populated slot is reported, the slot with an empty index is dropped. */
  lemma MemoryExample()
    ensures MemoryLine(["0", "Ok", "A1", "DDR4 - Synchronous Registered (Buffered)", "16384 MB"])
         == Some([Value("chassis_memory_status", "0", map["memory" := "A1"])])
    ensures MemoryLine(["", "Unknown", "A9", "[Not Occupied]", ""]) == Some([])
  {
    AtoiDigit('0');
    assert "0" == ['0'];
    assert AllAllowed("A1");
    ReplacedAllAllowed("A1", "_", false);
  }

  /** `replace` on the fan probe name of the fixtures. */
  lemma FanNameExample()
    ensures ReplaceName("System Board Fan1A") == "System_Board_Fan1A"
  {
    var ws := ["System", "Board", "Fan1A"];
    assert forall w :: w in ws ==> w != [] && AllAllowed(w);
    assert NoneAllowed(" ");
    ReplacedWords(ws, " ", "_");
    FanNameWords();
  }

  /** The words of the fan probe name, joined by a space and by an underscore. */
  lemma FanNameWords()
    ensures Join(["System", "Board", "Fan1A"], " ") == "System Board Fan1A"
    ensures Join(["System", "Board", "Fan1A"], "_") == "System_Board_Fan1A"
  {
    JoinThree("System", "Board", "Fan1A", " ");
    JoinThree("System", "Board", "Fan1A", "_");
  }

  /** A fan row with an RPM reading gives exactly its status record and its reading. */
  lemma FansRowWithReading(f: seq<string>, rpm: string)
    requires ProbeRow(f, 8) && Reading(f[3], "RPM") == Some(rpm)
    ensures FansLine(f) == Some([Value("chassis_fan_status", Severity(f[1]), map["fan" := ReplaceName(f[2])]),
                                 Value("chassis_fan_reading", rpm, map["fan" := ReplaceName(f[2])])])
  {
    var r := FansLine(f).value;
    var ts := map["fan" := ReplaceName(f[2])];
    assert r[1..] == Optional("chassis_fan_reading", Some(rpm), ts) == [Value("chassis_fan_reading", rpm, ts)];
    assert r == [r[0]] + r[1..] == [r[0], r[1]];
  }

  /** The RPM reading of the fan fixture. */
  lemma FanReadingExample()
    ensures Reading("5040 RPM", "RPM") == Some("5040")
  {
    assert IsWord("5040") && IsWord("RPM");
    ReadingOfSpaced("5040", "RPM");
    assert "5040 RPM" == "5040" + " " + "RPM";
  }

  /** The fan fixture: a fan row gives its status and its RPM reading. */
  lemma FansExample()
    ensures FansLine(["0", "Ok", "System Board Fan1A", "5040 RPM", "840 RPM", "[N/A]", "600 RPM", "[N/A]"])
         == Some([Value("chassis_fan_status", "0", map["fan" := "System_Board_Fan1A"]),
                  Value("chassis_fan_reading", "5040", map["fan" := "System_Board_Fan1A"])])
  {
    var f := ["0", "Ok", "System Board Fan1A", "5040 RPM", "840 RPM", "[N/A]", "600 RPM", "[N/A]"];
    AtoiDigit('0');
    assert f[0] == ['0'];
    FanNameExample();
    FanReadingExample();
    FansRowWithReading(f, "5040");
  }

  /** `replace` on the voltage probe name of the fixtures. */
  lemma VoltNameExample()
    ensures ReplaceName("CPU1 VCORE PG") == "CPU1_VCORE_PG"
  {
    var ws := ["CPU1", "VCORE", "PG"];
    assert forall w :: w in ws ==> w != [] && AllAllowed(w);
    assert NoneAllowed(" ");
    ReplacedWords(ws, " ", "_");
    VoltNameWords();
  }

  /** The words of the voltage probe name, joined by a space and by an underscore. */
  lemma VoltNameWords()
    ensures Join(["CPU1", "VCORE", "PG"], " ") == "CPU1 VCORE PG"
    ensures Join(["CPU1", "VCORE", "PG"], "_") == "CPU1_VCORE_PG"
  {
    JoinThree("CPU1", "VCORE", "PG", " ");
    JoinThree("CPU1", "VCORE", "PG", "_");
  }

  /** A voltage row whose reading has no "V" unit gives its status record alone. */
  lemma VoltsRowWithoutReading(f: seq<string>)
    requires ProbeRow(f, 8) && !HasSuffix(f[3], "V")
    ensures VoltsLine(f) == Some([Value("chassis_volts_status", Severity(f[1]), map["component" := ReplaceName(f[2])])])
  {
    var r := VoltsLine(f).value;
    assert r[1..] == [];
    assert r == [r[0]] + r[1..] == [r[0]];
  }

  /** The voltage fixture: a "Good" reading gives the status record alone. */
  lemma VoltsExample()
    ensures VoltsLine(["0", "Ok", "CPU1 VCORE PG", "Good", "[N/A]", "[N/A]", "[N/A]", "[N/A]"])
         == Some([Value("chassis_volts_status", "0", map["component" := "CPU1_VCORE_PG"])])
  {
    var index, status, name, reading, na := "0", "Ok", "CPU1 VCORE PG", "Good", "[N/A]";
    var f := [index, status, name, reading, na, na, na, na];
    AtoiDigit('0');
    assert index == ['0'];
    VoltNameExample();
    assert !HasSuffix(reading, "V");
    VoltsRowWithoutReading(f);
  }

  // ---------------------------------------------------------------------------------------
  // Ps

  /** A power supply row: at least three fields and not the "Index" header. */
  predicate PsRow(f: seq<string>) {
    |f| >= 3 && f[0] != "Index"
  }

  /** A rated wattage: present when the field is non-empty and ends in "W". */
  function Wattage(s: string): (r: Option<string>)
    ensures r.Some? <==> s != "" && HasSuffix(s, "W")
  {
    if s != "" then ExtractOk(s, "W") else None
  }

  /**
   * `Ps`: a status record per power supply row labelled with its id (`:` turned into `_`); for
   * rows of six or more fields, the rated input and output wattages where they end in "W".
   */
  function PsLine(f: seq<string>): (r: Option<seq<Value>>)
    ensures r.Some? && FollowsStatus(r.value, "ps_status")
    ensures r.value == [] <==> !PsRow(f)
    ensures PsRow(f) ==> r.value[0] == Value("ps_status", Severity(f[1]), map["id" := MapChar(f[0], ':', '_')])
    ensures PsRow(f) && |f| < 6 ==> |r.value| == 1
    ensures PsRow(f) && |f| >= 6 ==>
      r.value[1..] == Optional("ps_rated_input_wattage", Wattage(f[4]), r.value[0].labels)
                    + Optional("ps_rated_output_wattage", Wattage(f[5]), r.value[0].labels)
  {
    if |f| < 3 || f[0] == "Index" then Some([])
    else
      var ts := map["id" := MapChar(f[0], ':', '_')];
      var status := Value("ps_status", Severity(f[1]), ts);
      if |f| < 6 then Some([status])
      else
        var watts := Optional("ps_rated_input_wattage", Wattage(f[4]), ts)
                   + Optional("ps_rated_output_wattage", Wattage(f[5]), ts);
        var vs := [status] + watts;
        assert vs[1..] == watts;
        assert AllLabelled(vs, ts);
        FollowsStatusLabelled(vs, "ps_status", ts);
        Some(vs)
  }

  /** A power supply row with both rated wattages gives its status and the two wattages. */
  lemma PsRowWithWattages(f: seq<string>, input: string, output: string)
    requires PsRow(f) && |f| >= 6 && Wattage(f[4]) == Some(input) && Wattage(f[5]) == Some(output)
    ensures PsLine(f) == Some([Value("ps_status", Severity(f[1]), map["id" := MapChar(f[0], ':', '_')]),
                               Value("ps_rated_input_wattage", input, map["id" := MapChar(f[0], ':', '_')]),
                               Value("ps_rated_output_wattage", output, map["id" := MapChar(f[0], ':', '_')])])
  {
    var r := PsLine(f).value;
    var ts := map["id" := MapChar(f[0], ':', '_')];
    assert r[1..] == Optional("ps_rated_input_wattage", Some(input), ts) + Optional("ps_rated_output_wattage", Some(output), ts)
                  == [Value("ps_rated_input_wattage", input, ts), Value("ps_rated_output_wattage", output, ts)];
    assert r == [r[0]] + r[1..] == [r[0], r[1], r[2]];
  }

  /** The power supply fixture: status, 900 W in, 750 W out. */
  lemma PsExample()
    ensures PsLine(["0", "Ok", "PS1 Status", "AC", "900 W", "750 W", "00.14.4B", "Presence Detected", "Yes"])
         == Some([Value("ps_status", "0", map["id" := "0"]),
                  Value("ps_rated_input_wattage", "900", map["id" := "0"]),
                  Value("ps_rated_output_wattage", "750", map["id" := "0"])])
  {
    var f := ["0", "Ok", "PS1 Status", "AC", "900 W", "750 W", "00.14.4B", "Presence Detected", "Yes"];
    PsFixtureWattages();
    MapCharAbsent("0", ':', '_');
    assert f[1] == "Ok" && f[4] == "900 W" && f[5] == "750 W";
    PsRowWithWattages(f, "900", "750");
  }

  /** The rated wattages of the power supply fixture. */
  lemma PsFixtureWattages()
    ensures Wattage("900 W") == Some("900")
    ensures Wattage("750 W") == Some("750")
  {
    ExtractWatts();
  }

  // ---------------------------------------------------------------------------------------
  // Nics

  predicate NicRow(f: seq<string>) {
    |f| >= 5 && f[0] != "Index"
  }

  /** The connection states that count as healthy. */
  predicate Connected(s: string) {
    s == "Connected" || s == "Full" || s == "Not Applicable"
  }

  /**
   * `Nics`: for each interface row whose device is monitored (all of them when `nicList` is
   * empty), a record valued "0" when connected and "1" otherwise.
   */
  function NicsLine(nicList: seq<string>, f: seq<string>): (r: Option<seq<Value>>)
    ensures r.Some? && |r.value| <= 1
    ensures |r.value| == 1 <==> NicRow(f) && (nicList == [] || f[1] in nicList)
    ensures |r.value| == 1 ==>
      && r.value[0].name == "nic_status"
      && r.value[0].labels == map["id" := MapChar(f[0], ':', '_'), "device" := f[1]]
      && (r.value[0].value == "0" <==> Connected(f[4]))
      && (r.value[0].value == "1" <==> !Connected(f[4]))
  {
    if |f| < 5 || f[0] == "Index" then Some([])
    else
      var ts := map["id" := MapChar(f[0], ':', '_'), "device" := f[1]];
      var ret := if f[4] == "Connected" || f[4] == "Full" || f[4] == "Not Applicable" then "0" else "1";
      var monitored := set nic | nic in nicList;
      var dev := ts["device"];
      if nicList == [] || dev in monitored then Some([Value("nic_status", ret, ts)]) else Some([])
  }

  /** The `Nics` callback for the list of monitored devices `nicList`. */
  function NicsCallback(nicList: seq<string>): seq<string> -> Option<seq<Value>> {
    f => NicsLine(nicList, f)
  }

  /** Only monitored devices are reported, and with an empty list every interface row is. */
  lemma NicsFilter(nicList: seq<string>, lines: seq<seq<string>>)
    ensures ConcatLines(NicsCallback(nicList), lines).Some?
    ensures nicList != [] ==>
      forall v :: v in ConcatLines(NicsCallback(nicList), lines).value ==> "device" in v.labels && v.labels["device"] in nicList
    ensures nicList == [] ==> |ConcatLines(NicsCallback(nicList), lines).value| == CountLines(NicRow, lines)
  {
    var g := NicsCallback(nicList);
    ConcatLinesPanics(g, lines);
    if nicList != [] {
      ConcatLinesAll(g, lines, (v: Value) => "device" in v.labels && v.labels["device"] in nicList);
    } else {
      ConcatLinesLength(g, lines);
      RecordCountSelected(g, NicRow, lines);
    }
  }

  /** The NIC fixture: a connected and a disabled port. */
  lemma NicsExample()
    ensures NicsLine([], ["0", "eno1", "Manufacturer", "Device Spec", "Connected", "Embedded"])
         == Some([Value("nic_status", "0", map["id" := "0", "device" := "eno1"])])
    ensures NicsLine([], ["2", "eno3", "Manufacturer", "Device Spec", "Disabled", "Embedded"])
         == Some([Value("nic_status", "1", map["id" := "2", "device" := "eno3"])])
    ensures NicsLine(["eno1"], ["2", "eno3", "Manufacturer", "Device Spec", "Disabled", "Embedded"]) == Some([])
  {
    assert MapChar("0", ':', '_') == "0";
    assert MapChar("2", ':', '_') == "2";
  }

  // ---------------------------------------------------------------------------------------
  // PsAmpsSysboardPwr

  predicate CurrentRow(f: seq<string>) {
    |f| == 2 && Contains(f[0], "Current")
  }

  predicate PowerRow(f: seq<string>) {
    |f| == 6 && (f[2] == "System Board Pwr Consumption" || f[2] == "System Board System Level")
  }

  /** The three power records of a system board row, when each of its readings has a unit. */
  function PowerRecords(f: seq<string>): (vs: seq<Value>)
    requires PowerRow(f)
    ensures |vs| == 0 || |vs| == 3
    ensures |vs| == 3 <==> |Fields(f[3])| >= 2 && |Fields(f[4])| >= 2 && |Fields(f[5])| >= 2
  {
    var vFields := Fields(f[3]);
    var warnFields := Fields(f[4]);
    var failFields := Fields(f[5]);
    if |vFields| < 2 || |warnFields| < 2 || |failFields| < 2 then []
    else [Value("chassis_power_reading", vFields[0], map[]),
          Value("chassis_power_warn_level", warnFields[0], map[]),
          Value("chassis_power_fail_level", failFields[0], map[])]
  }

  /** The power supply named before "Current", with its spaces removed. */
  function SupplyId(s: string): string {
    ReplaceAll(Split(s, "Current")[0], " ", "")
  }

  /**
   * `PsAmpsSysboardPwr` as written: the early return for a current row needs both splits to be
   * short, which never happens, so a blank reading is indexed anyway and panics.
   */
  function PsAmpsLineAsWritten(f: seq<string>): (r: Option<seq<Value>>)
    ensures r.None? <==> CurrentRow(f) && Fields(f[1]) == []
  {
    if |f| == 2 && Contains(f[0], "Current") then
      var iFields := Split(f[0], "Current");
      var vFields := Fields(f[1]);
      SplitContains(f[0], "Current");
      if |iFields| < 2 && |vFields| < 2 then Some([])
      else
        var reading :- At(vFields, 0);
        var id := ReplaceAll(iFields[0], " ", "");
        Some([Value("chassis_current_reading", reading, map["pwrsupply" := id])])
    else if |f| == 6 && (f[2] == "System Board Pwr Consumption" || f[2] == "System Board System Level") then
      Some(PowerRecords(f))
    else Some([])
  }

  /**
   * `PsAmpsSysboardPwr` with the early return taken when either split is short: no line panics,
   * and a current row is reported exactly when its reading has a value and a unit.
   */
  function PsAmpsLine(f: seq<string>): (r: Option<seq<Value>>)
    ensures r.Some?
    ensures CurrentRow(f) ==>
      (r.value != [] <==> |Fields(f[1])| >= 2)
      && (r.value != [] ==> r.value == [Value("chassis_current_reading", Fields(f[1])[0], map["pwrsupply" := SupplyId(f[0])])])
    ensures PowerRow(f) && !CurrentRow(f) ==> r.value == PowerRecords(f)
    ensures !CurrentRow(f) && !PowerRow(f) ==> r.value == []
  {
    if |f| == 2 && Contains(f[0], "Current") then
      var iFields := Split(f[0], "Current");
      var vFields := Fields(f[1]);
      SplitContains(f[0], "Current");
      if |iFields| < 2 || |vFields| < 2 then Some([])
      else
        var id := ReplaceAll(iFields[0], " ", "");
        Some([Value("chassis_current_reading", vFields[0], map["pwrsupply" := id])])
    else if |f| == 6 && (f[2] == "System Board Pwr Consumption" || f[2] == "System Board System Level") then
      Some(PowerRecords(f))
    else Some([])
  }

  /** Splitting a text that contains "Current" on it always yields two or more parts. */
  lemma CurrentGuardNeverFires(f: seq<string>)
    requires CurrentRow(f)
    ensures |Split(f[0], "Current")| >= 2
  {
    SplitContains(f[0], "Current");
  }

  /** "Current" occurs in the amperage row name of the fixtures. */
  lemma CurrentInRowName()
    ensures Contains("PS1 Current 1", "Current")
  {
    var s := "PS1 Current 1";
    assert s[4..4 + |"Current"|] == "Current";
    assert OccursAt(s, "Current", 4);
  }

  /** The amperage row "PS1 Current 1" with a blank reading makes the written mapper panic. */
  lemma PsAmpsBlankReadingPanics()
    ensures PsAmpsLineAsWritten(["PS1 Current 1", ""]).None?
    ensures PsAmpsLine(["PS1 Current 1", ""]) == Some([])
  {
    var f := ["PS1 Current 1", ""];
    CurrentInRowName();
    assert CurrentRow(f);
    assert Fields(f[1]) == [];
  }

  /** Wherever the written mapper does not panic and readings carry a unit, the two agree. */
  lemma PsAmpsAgree(f: seq<string>)
    requires CurrentRow(f) ==> |Fields(f[1])| >= 2
    ensures PsAmpsLineAsWritten(f) == PsAmpsLine(f)
  {
  }

  /**
   * The two also differ on a reading of one word, such as "5" or "[N/A]": the written guard
   * reports that word, while the corrected one skips the row.
   */
  lemma PsAmpsOneWordReading(f: seq<string>)
    requires CurrentRow(f) && |Fields(f[1])| == 1
    ensures PsAmpsLineAsWritten(f) == Some([Value("chassis_current_reading", Fields(f[1])[0], map["pwrsupply" := SupplyId(f[0])])])
    ensures PsAmpsLine(f) == Some([])
  {
    SplitContains(f[0], "Current");
  }

  /** A system board power row whose three readings are "<n> <unit>" gives the three power records. */
  lemma PowerRowReadings(f: seq<string>, reading: string, warn: string, fail: string, unit: string)
    requires PowerRow(f)
    requires Fields(f[3]) == [reading, unit] && Fields(f[4]) == [warn, unit] && Fields(f[5]) == [fail, unit]
    ensures PsAmpsLine(f) == Some([Value("chassis_power_reading", reading, map[]),
                                   Value("chassis_power_warn_level", warn, map[]),
                                   Value("chassis_power_fail_level", fail, map[])])
  {
    assert !CurrentRow(f);
  }

  /** The power fixture row: reading, warning level and failure level, with no labels. */
  lemma PsAmpsPowerExample()
    ensures PsAmpsLine(["2", "Ok", "System Board Pwr Consumption", "84 W", "896 W", "980 W"])
         == Some([Value("chassis_power_reading", "84", map[]),
                  Value("chassis_power_warn_level", "896", map[]),
                  Value("chassis_power_fail_level", "980", map[])])
  {
    var f := ["2", "Ok", "System Board Pwr Consumption", "84 W", "896 W", "980 W"];
    PowerFixtureFields();
    PowerRowReadings(f, "84", "896", "980", "W");
  }

  /** The readings of the power fixture row split into a number and the unit "W". */
  lemma PowerFixtureFields()
    ensures Fields("84 W") == ["84", "W"]
    ensures Fields("896 W") == ["896", "W"]
    ensures Fields("980 W") == ["980", "W"]
  {
    assert IsWord("84") && IsWord("896") && IsWord("980") && IsWord("W");
    FieldsOfTwo("84", "W");
    FieldsOfTwo("896", "W");
    FieldsOfTwo("980", "W");
    assert "84" + " " + "W" == "84 W";
    assert "896" + " " + "W" == "896 W";
    assert "980" + " " + "W" == "980 W";
  }

  // ---------------------------------------------------------------------------------------
  // ChassisBatteries

  predicate BatteryRow(f: seq<string>) {
    |f| >= 4 && f[0] != "Index"
  }

  /** `ChassisBatteries`: one CMOS battery status record per battery row. */
  function ChassisBatteriesLine(f: seq<string>): (r: Option<seq<Value>>)
    ensures r.Some? && |r.value| == (if BatteryRow(f) then 1 else 0)
    ensures BatteryRow(f) ==> r.value[0] == Value("cmos_batteries_status", Severity(f[1]), map["id" := MapChar(f[0], ':', '_')])
  {
    if |f| < 4 || f[0] == "Index" then Some([])
    else
      Some([Value("cmos_batteries_status", Severity(f[1]), map["id" := MapChar(f[0], ':', '_')])])
  }

  // ---------------------------------------------------------------------------------------
  // ChassisBios and ChassisFirmware

  /** A label key: lower-cased, spaces turned into `_` as `strings.ReplaceAll` does. */
  function LabelKey(s: string): (k: string)
    ensures k == ReplaceAll(ToLower(s), " ", "_")
  {
    ReplaceAllChar(ToLower(s), ' ', '_');
    MapChar(ToLower(s), ' ', '_')
  }

  /** The callback of `ChassisBios`/`ChassisFirmware`: each two-field line sets one label in place. */
  function LabelStep(labels: map<string, string>, f: seq<string>): Step<map<string, string>> {
    if |f| != 2 then Next(labels) else Next(labels[LabelKey(f[0]) := ToLower(f[1])])
  }

  /** The value of the last two-field line whose key is `k`. */
  function LastLabel(lines: seq<seq<string>>, k: string): Option<string> {
    if lines == [] then None
    else
      var f := lines[|lines| - 1];
      if |f| == 2 && LabelKey(f[0]) == k then Some(ToLower(f[1]))
      else LastLabel(lines[..|lines| - 1], k)
  }

  /**
   * The label map after a whole report: the last line with a key wins, and keys no line sets
   * keep their earlier value.
   */
  lemma {:induction false} LabelsLastWins(lines: seq<seq<string>>, m0: map<string, string>)
    ensures Feed(lines, m0, LabelStep).Next?
    ensures forall k :: LastLabel(lines, k).Some? ==>
      k in Feed(lines, m0, LabelStep).state && Feed(lines, m0, LabelStep).state[k] == LastLabel(lines, k).value
    ensures forall k :: LastLabel(lines, k).None? ==>
      (k in Feed(lines, m0, LabelStep).state <==> k in m0)
      && (k in m0 ==> Feed(lines, m0, LabelStep).state[k] == m0[k])
    decreases |lines|
  {
    if lines != [] {
      var n := |lines| - 1;
      var init := lines[..n];
      var f := lines[n];
      assert lines == init + [f];
      LabelsLastWins(init, m0);
      FeedConcat(init, [f], m0, LabelStep);
      var m := Feed(init, m0, LabelStep).state;
      assert Feed(lines, m0, LabelStep) == Feed([f], m, LabelStep);
      assert [f][1..] == [];
    }
  }

  /** The firmware fixture: iDRAC and lifecycle controller versions, lower-cased. */
  lemma FirmwareExample()
    ensures Feed([["Version Information"], ["iDRAC8", "2.70.70.70 (Build 45)"], ["Lifecycle Controller", "2.70.70.70"], [""]],
                 map[], LabelStep)
         == Next(map["idrac8" := "2.70.70.70 (build 45)", "lifecycle_controller" := "2.70.70.70"])
  {
    FirmwareLabels();
  }

  /** The keys and values of the firmware fixture, as `LabelStep` writes them. */
  lemma FirmwareLabels()
    ensures LabelKey("iDRAC8") == "idrac8"
    ensures LabelKey("Lifecycle Controller") == "lifecycle_controller"
    ensures ToLower("2.70.70.70 (Build 45)") == "2.70.70.70 (build 45)"
    ensures ToLower("2.70.70.70") == "2.70.70.70"
  {
    assert ToLower("iDRAC8") == "idrac8";
    assert MapChar("idrac8", ' ', '_') == "idrac8";
    assert ToLower("Lifecycle Controller") == "lifecycle controller";
    assert MapChar("lifecycle controller", ' ', '_') == "lifecycle_controller";
    VersionLower("2.70.70.70 (Build 45)", "2.70.70.70 (build 45)");
    VersionLower("2.70.70.70", "2.70.70.70");
  }

  /** `w` is `v` lower-cased when the two differ only where `v` has an upper-case letter. */
  lemma VersionLower(v: string, w: string)
    requires |v| == |w| && forall k :: 0 <= k < |v| ==> w[k] == LowerChar(v[k])
    ensures ToLower(v) == w
  {
  }
}
