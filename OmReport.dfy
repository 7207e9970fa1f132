/**
 * `OMReport` (pkg/omreport/omreport.go): the options, the reader that runs omreport and
 * tokenizes its semicolon-separated output, the report loop, and the eighteen mappers.
 *
 * Running the omreport binary is a `Command` given to the model: it yields the lines of
 * standard output, or the failure to execute. The reader feeds every tokenized line to the
 * mapper's callback in order; a mapper's outcome is its records and the reader's error, or a
 * panic where a callback indexes past the end of a line.
 */
module OmReport {
  import opened Wrappers
  import opened GoStrings
  import opened OmReportUtil
  import opened OmReportTypes
  import opened OmReportChassis
  import opened OmReportStorage

  const DefaultOMReportExecutable := "/opt/dell/srvadmin/bin/omreport"

  // ---------------------------------------------------------------------------------------
  // The tokenizer

  /** One output line split on ";", each field cleaned of surplus whitespace. */
  function Tokenize(line: string): (fields: seq<string>)
    ensures |fields| == |Split(line, ";")| == Count(line, ';') + 1
    ensures forall i :: 0 <= i < |fields| ==> Fields(fields[i]) == Fields(Split(line, ";")[i])
    ensures forall i :: 0 <= i < |fields| ==> SingleSpaced(fields[i]) && Clean([fields[i]]) == fields[i]
  {
    var sp := Split(line, ";");
    SplitCharParts(line, ';');
    forall i | 0 <= i < |sp| ensures Fields(Clean([sp[i]])) == Fields(sp[i]) && Clean([Clean([sp[i]])]) == Clean([sp[i]]) {
      CleanWords([sp[i]]);
      CleanIdempotent([sp[i]]);
    }
    seq(|sp|, i requires 0 <= i < |sp| => Clean([sp[i]]))
  }

  /** Fields that are already clean and free of ";" come back unchanged from their joined line. */
  lemma TokenizeJoin(ws: seq<string>)
    requires |ws| >= 1
    requires forall w :: w in ws ==> ';' !in w && Clean([w]) == w
    ensures Tokenize(Join(ws, ";")) == ws
  {
    JoinSplitChar(ws, ';');
    assert Split(Join(ws, ";"), ";") == ws;
    forall i | 0 <= i < |ws| ensures Tokenize(Join(ws, ";"))[i] == ws[i] {
      assert ws[i] in ws;
    }
  }

  /** The tokenizing loop of `readOmreport`: every field of the split line is cleaned in place. */
  method TokenizeLine(line: string) returns (fields: seq<string>)
    ensures fields == Tokenize(line)
  {
    var parts := Split(line, ";");
    var sp := new string[|parts|](i requires 0 <= i < |parts| => parts[i]);
    for i := 0 to sp.Length
      invariant forall k :: 0 <= k < i ==> sp[k] == Clean([parts[k]])
      invariant forall k :: i <= k < sp.Length ==> sp[k] == parts[k]
    {
      sp[i] := Clean([sp[i]]);
    }
    fields := sp[..];
  }

  // ---------------------------------------------------------------------------------------
  // Readers

  /** Running a command: the lines of its standard output, or why it could not be executed. */
  type Command = (string, seq<string>) -> Result<seq<string>, string>

  /** The error `readCommandTimeout` wraps a failed execution in. */
  function ExecFailure(name: string, args: seq<string>, err: string): string {
    "failed to execute command (\"" + name + " [" + Join(args, " ") + "]\"). " + err
  }

  /** The tokenized lines of an output. */
  function TokenizeAll(ls: seq<string>): (lines: seq<seq<string>>)
    ensures |lines| == |ls| && forall i :: 0 <= i < |ls| ==> lines[i] == Tokenize(ls[i])
  {
    seq(|ls|, i requires 0 <= i < |ls| => Tokenize(ls[i]))
  }

  /**
   * `readOmreport`: runs omreport with "-fmt ssv" appended to the arguments and feeds the
   * tokenized output lines; a failed execution feeds nothing and is the error. Failures to
   * scan the output are only logged.
   */
  function ReadOmreport(run: Command): Reader {
    (exe: string, args: seq<string>) =>
      var full := args + ["-fmt", "ssv"];
      match run(exe, full)
      case Err(e) => ReaderOutput([], Some(ExecFailure(exe, full, e)))
      case Ok(ls) => ReaderOutput(TokenizeAll(ls), None)
  }

  /** The reader asks for semicolon-separated output, and errs exactly when the command fails. */
  lemma ReadOmreportOutput(run: Command, exe: string, args: seq<string>)
    ensures var out := ReadOmreport(run)(exe, args);
      && (out.err.Some? <==> run(exe, args + ["-fmt", "ssv"]).Err?)
      && (out.err.Some? ==> out.lines == [])
      && (out.err.None? ==> out.lines == TokenizeAll(run(exe, args + ["-fmt", "ssv"]).value))
  {
  }

  /** The test readers: the input text split on newlines, each line tokenized, and no error. */
  function TestReader(input: string): Reader {
    (exe: string, args: seq<string>) => ReaderOutput(TokenizeAll(Split(input, "\n")), None)
  }

  /** A test input of newline-free lines is read back line by line. */
  lemma TestReaderLines(rows: seq<string>, exe: string, args: seq<string>)
    requires |rows| >= 1
    requires forall r :: r in rows ==> '\n' !in r
    ensures TestReader(Join(rows, "\n"))(exe, args) == ReaderOutput(TokenizeAll(rows), None)
  {
    JoinSplitChar(rows, '\n');
  }

  // ---------------------------------------------------------------------------------------
  // Runs of the two kinds of callback

  /** An appending callback's run: the concatenated records of all lines and the reader's error. */
  lemma AppendingRun(out: ReaderOutput, g: seq<string> -> Option<seq<Value>>)
    ensures Run(out, [], Appending(g)) == match ConcatLines(g, out.lines)
                                          case None => Panicked
                                          case Some(vs) => Completed(vs, out.err)
  {
    FeedAppending(out.lines, [], g);
    if ConcatLines(g, out.lines).Some? {
      assert [] + ConcatLines(g, out.lines).value == ConcatLines(g, out.lines).value;
    }
  }

  /** A banner callback's run: the reference records, starting from "N/A". */
  lemma BannerRun(prefix: string, rows: (string, seq<string>) -> Option<seq<Value>>, out: ReaderOutput)
    ensures Run(out, Scan([], NoControllerName), BannerStep(prefix, rows))
         == match BannerRecords(prefix, rows, out.lines, NoControllerName)
            case None => Panicked
            case Some(vs) => Completed(Scan(vs, LastBanner(prefix, out.lines, NoControllerName)), out.err)
  {
    BannerFeed(prefix, rows, out.lines, [], NoControllerName);
    if BannerRecords(prefix, rows, out.lines, NoControllerName).Some? {
      var vs := BannerRecords(prefix, rows, out.lines, NoControllerName).value;
      assert [] + vs == vs;
    }
  }

  /** A storage mapper returns the values of its captured state. */
  function Values(o: Outcome<Scan>): (r: Outcome<seq<Value>>)
    ensures r.Panicked? <==> o.Panicked?
    ensures r.Completed? ==> r.state == o.state.values && r.err == o.err
  {
    match o
    case Panicked => Panicked
    case Completed(st, err) => Completed(st.values, err)
  }

  // ---------------------------------------------------------------------------------------
  // Options and OMReport

  /** `Options`: where the omreport binary is. */
  class Options {
    var omReportExecutable: string

    constructor (exe: string)
      ensures omReportExecutable == exe
    {
      omReportExecutable := exe;
    }
  }

  /** `OMReport`: the options and the reader every mapper goes through. */
  class OMReport {
    var options: Options?
    var reader: Reader

    /** `New`: defaults an empty executable path in the given options, and reads by running omreport. */
    constructor New(opts: Options, run: Command)
      modifies opts
      ensures options == opts && reader == ReadOmreport(run)
      ensures opts.omReportExecutable
           == if old(opts.omReportExecutable) == "" then DefaultOMReportExecutable else old(opts.omReportExecutable)
      ensures Executable() != ""
    {
      if opts.omReportExecutable == "" {
        opts.omReportExecutable := DefaultOMReportExecutable;
      }
      options := opts;
      reader := ReadOmreport(run);
    }

    /** An `OMReport` built directly around a reader, with or without options, as the tests do. */
    constructor WithReader(opts: Options?, r: Reader)
      ensures options == opts && reader == r
    {
      options := opts;
      reader := r;
    }

    /** `getOMReportExecutable`: the configured path, or the default when there are no options. */
    function Executable(): (exe: string)
      reads this, options
      ensures options == null ==> exe == DefaultOMReportExecutable
      ensures options != null ==> exe == options.omReportExecutable
    {
      if options != null then options.omReportExecutable else DefaultOMReportExecutable
    }

    /** What the reader hands over for a report with arguments `args`. */
    function Report(args: seq<string>): ReaderOutput
      reads this, options
    {
      reader(Executable(), args)
    }

    /**
     * `readReport`: feeds every line of the report to the callback, in order, and returns the
     * reader's error, unless a callback panics.
     */
    method ReadReport<S>(args: seq<string>, init: S, step: (S, seq<string>) -> Step<S>) returns (o: Outcome<S>)
      ensures o == Run(Report(args), init, step)
    {
      var out := reader(Executable(), args);
      var s := init;
      var i := 0;
      while i < |out.lines|
        invariant 0 <= i <= |out.lines|
        invariant Feed(out.lines, init, step) == Feed(out.lines[i..], s, step)
      {
        assert out.lines[i..][0] == out.lines[i];
        assert out.lines[i..][1..] == out.lines[i + 1..];
        match step(s, out.lines[i])
        case Panic =>
          return Panicked;
        case Next(s') =>
          s := s';
        i := i + 1;
      }
      assert out.lines[i..] == [];
      return Completed(s, out.err);
    }

    method Appended(args: seq<string>, g: seq<string> -> Option<seq<Value>>) returns (o: Outcome<seq<Value>>)
      ensures o == match ConcatLines(g, Report(args).lines)
                   case None => Panicked
                   case Some(vs) => Completed(vs, Report(args).err)
    {
      o := ReadReport(args, [], Appending(g));
      AppendingRun(Report(args), g);
    }

    // -------------------------------------------------------------------------------------
    // Chassis and system mappers

    /** `Chassis`: one status record per component row, its label free of spaces; never panics. */
    method Chassis() returns (o: Outcome<seq<Value>>)
      ensures o.Completed? && o.err == Report(["chassis"]).err
      ensures ConcatLines(ChassisLine, Report(["chassis"]).lines) == Some(o.state)
      ensures |o.state| == CountLines(ComponentRow, Report(["chassis"]).lines)
      ensures forall v :: v in o.state ==> ComponentRecord("chassis_status", v)
    {
      ComponentMapping("chassis_status", ChassisLine, Report(["chassis"]).lines);
      o := Appended(["chassis"], ChassisLine);
    }

    /** `System`: one status record per component row, its label free of spaces; never panics. */
    method System() returns (o: Outcome<seq<Value>>)
      ensures o.Completed? && o.err == Report(["system"]).err
      ensures ConcatLines(SystemLine, Report(["system"]).lines) == Some(o.state)
      ensures |o.state| == CountLines(ComponentRow, Report(["system"]).lines)
      ensures forall v :: v in o.state ==> ComponentRecord("system_status", v)
    {
      ComponentMapping("system_status", SystemLine, Report(["system"]).lines);
      o := Appended(["system"], SystemLine);
    }

    /** `Fans`: each fan's status, then its RPM reading with the same labels; never panics. */
    method Fans() returns (o: Outcome<seq<Value>>)
      ensures o.Completed? && o.err == Report(["chassis", "fans"]).err
      ensures ConcatLines(FansLine, Report(["chassis", "fans"]).lines) == Some(o.state)
      ensures FollowsStatus(o.state, "chassis_fan_status")
    {
      FansFollowStatus(Report(["chassis", "fans"]).lines);
      o := Appended(["chassis", "fans"], FansLine);
    }

    /** `Memory`: exactly one record per memory probe row; never panics. */
    method Memory() returns (o: Outcome<seq<Value>>)
      ensures o.Completed? && o.err == Report(["chassis", "memory"]).err
      ensures ConcatLines(MemoryLine, Report(["chassis", "memory"]).lines) == Some(o.state)
      ensures |o.state| == CountLines(MemoryRow, Report(["chassis", "memory"]).lines)
    {
      MemoryMapping(Report(["chassis", "memory"]).lines);
      o := Appended(["chassis", "memory"], MemoryLine);
    }

    /** `Processors`: exactly one record per processor probe row; never panics. */
    method Processors() returns (o: Outcome<seq<Value>>)
      ensures o.Completed? && o.err == Report(["chassis", "processors"]).err
      ensures ConcatLines(ProcessorsLine, Report(["chassis", "processors"]).lines) == Some(o.state)
      ensures |o.state| == CountLines(ProcessorRow, Report(["chassis", "processors"]).lines)
    {
      ProcessorsMapping(Report(["chassis", "processors"]).lines);
      o := Appended(["chassis", "processors"], ProcessorsLine);
    }

    /** `Temps`: each probe's status, then its readings and thresholds with the same labels. */
    method Temps() returns (o: Outcome<seq<Value>>)
      ensures o.Completed? && o.err == Report(["chassis", "temps"]).err
      ensures ConcatLines(TempsLine, Report(["chassis", "temps"]).lines) == Some(o.state)
      ensures FollowsStatus(o.state, "chassis_temps")
    {
      TempsFollowStatus(Report(["chassis", "temps"]).lines);
      o := Appended(["chassis", "temps"], TempsLine);
    }

    /** `Volts`: each probe's status, then its reading with the same labels; never panics. */
    method Volts() returns (o: Outcome<seq<Value>>)
      ensures o.Completed? && o.err == Report(["chassis", "volts"]).err
      ensures ConcatLines(VoltsLine, Report(["chassis", "volts"]).lines) == Some(o.state)
      ensures FollowsStatus(o.state, "chassis_volts_status")
    {
      VoltsFollowStatus(Report(["chassis", "volts"]).lines);
      o := Appended(["chassis", "volts"], VoltsLine);
    }

    /** `Ps`: each supply's status, then its rated wattages with the same labels; never panics. */
    method Ps() returns (o: Outcome<seq<Value>>)
      ensures o.Completed? && o.err == Report(["chassis", "pwrsupplies"]).err
      ensures ConcatLines(PsLine, Report(["chassis", "pwrsupplies"]).lines) == Some(o.state)
      ensures FollowsStatus(o.state, "ps_status")
    {
      var lines := Report(["chassis", "pwrsupplies"]).lines;
      ConcatLinesPanics(PsLine, lines);
      ConcatLinesFollowStatus(PsLine, lines, "ps_status");
      o := Appended(["chassis", "pwrsupplies"], PsLine);
    }

    /** `Nics`: the status of the monitored interfaces, or of all when none is named; never panics. */
    method Nics(nicList: seq<string>) returns (o: Outcome<seq<Value>>)
      ensures o.Completed? && o.err == Report(["chassis", "nics"]).err
      ensures ConcatLines(NicsCallback(nicList), Report(["chassis", "nics"]).lines) == Some(o.state)
      ensures nicList != [] ==> forall v :: v in o.state ==> "device" in v.labels && v.labels["device"] in nicList
      ensures nicList == [] ==> |o.state| == CountLines(NicRow, Report(["chassis", "nics"]).lines)
    {
      NicsFilter(nicList, Report(["chassis", "nics"]).lines);
      o := Appended(["chassis", "nics"], NicsCallback(nicList));
    }

    /** `PsAmpsSysboardPwr`, with the early return of a current row that has no unit; never panics. */
    method PsAmpsSysboardPwr() returns (o: Outcome<seq<Value>>)
      ensures o.Completed? && o.err == Report(["chassis", "pwrmonitoring"]).err
      ensures ConcatLines(PsAmpsLine, Report(["chassis", "pwrmonitoring"]).lines) == Some(o.state)
    {
      ConcatLinesPanics(PsAmpsLine, Report(["chassis", "pwrmonitoring"]).lines);
      o := Appended(["chassis", "pwrmonitoring"], PsAmpsLine);
    }

    /** `ChassisBatteries`: exactly one status record per battery row; never panics. */
    method ChassisBatteries() returns (o: Outcome<seq<Value>>)
      ensures o.Completed? && o.err == Report(["chassis", "batteries"]).err
      ensures ConcatLines(ChassisBatteriesLine, Report(["chassis", "batteries"]).lines) == Some(o.state)
      ensures |o.state| == CountLines(BatteryRow, Report(["chassis", "batteries"]).lines)
    {
      var lines := Report(["chassis", "batteries"]).lines;
      ConcatLinesPanics(ChassisBatteriesLine, lines);
      ConcatLinesLength(ChassisBatteriesLine, lines);
      RecordCountSelected(ChassisBatteriesLine, BatteryRow, lines);
      o := Appended(["chassis", "batteries"], ChassisBatteriesLine);
    }

    /** The single record of `ChassisBios` and `ChassisFirmware`, its labels set line by line. */
    method Labelled(name: string, args: seq<string>) returns (o: Outcome<seq<Value>>)
      ensures o.Completed? && o.err == Report(args).err
      ensures |o.state| == 1 && o.state[0].name == name && o.state[0].value == "0"
      ensures forall k :: LastLabel(Report(args).lines, k).Some? ==>
        k in o.state[0].labels && o.state[0].labels[k] == LastLabel(Report(args).lines, k).value
      ensures forall k :: k in o.state[0].labels ==> LastLabel(Report(args).lines, k).Some?
    {
      var r := ReadReport(args, map[], LabelStep);
      LabelsLastWins(Report(args).lines, map[]);
      o := Completed([Value(name, "0", r.state)], r.err);
    }

    /** `ChassisBios`: one "bios" record whose labels are the report's keys, the last value winning. */
    method ChassisBios() returns (o: Outcome<seq<Value>>)
      ensures o.Completed? && o.err == Report(["chassis", "bios"]).err
      ensures |o.state| == 1 && o.state[0].name == "bios" && o.state[0].value == "0"
      ensures forall k :: LastLabel(Report(["chassis", "bios"]).lines, k).Some? ==>
        k in o.state[0].labels && o.state[0].labels[k] == LastLabel(Report(["chassis", "bios"]).lines, k).value
      ensures forall k :: k in o.state[0].labels ==> LastLabel(Report(["chassis", "bios"]).lines, k).Some?
    {
      o := Labelled("bios", ["chassis", "bios"]);
    }

    /** `ChassisFirmware`: one "firmware" record whose labels are the report's keys, the last value winning. */
    method ChassisFirmware() returns (o: Outcome<seq<Value>>)
      ensures o.Completed? && o.err == Report(["chassis", "firmware"]).err
      ensures |o.state| == 1 && o.state[0].name == "firmware" && o.state[0].value == "0"
      ensures forall k :: LastLabel(Report(["chassis", "firmware"]).lines, k).Some? ==>
        k in o.state[0].labels && o.state[0].labels[k] == LastLabel(Report(["chassis", "firmware"]).lines, k).value
      ensures forall k :: k in o.state[0].labels ==> LastLabel(Report(["chassis", "firmware"]).lines, k).Some?
    {
      o := Labelled("firmware", ["chassis", "firmware"]);
    }

    // -------------------------------------------------------------------------------------
    // Storage mappers

    /** `StorageBattery`: each battery under the latest controller banner above it; never panics. */
    method StorageBattery() returns (o: Outcome<seq<Value>>)
      ensures o.Completed? && o.err == Report(["storage", "battery"]).err
      ensures BannerRecords(ControllerNamePrefix, BatteryRows, Report(["storage", "battery"]).lines, NoControllerName) == Some(o.state)
      ensures forall v :: v in o.state ==> v.name == "storage_battery_status"
    {
      var lines := Report(["storage", "battery"]).lines;
      var r := ReadReport(["storage", "battery"], Scan([], NoControllerName), BatteryStep());
      BannerRun(ControllerNamePrefix, BatteryRows, Report(["storage", "battery"]));
      BannerRecordsPanics(ControllerNamePrefix, BatteryRows, lines, NoControllerName);
      BannerRecordsAll(ControllerNamePrefix, BatteryRows, lines, NoControllerName, (v: Value) => v.name == "storage_battery_status");
      o := Values(r);
    }

    /** `StorageEnclosure`: each enclosure under the latest enclosure banner above it; never panics. */
    method StorageEnclosure() returns (o: Outcome<seq<Value>>)
      ensures o.Completed? && o.err == Report(["storage", "enclosure"]).err
      ensures BannerRecords(EnclosureNamePrefix, EnclosureRows, Report(["storage", "enclosure"]).lines, NoControllerName) == Some(o.state)
      ensures forall v :: v in o.state ==> v.name == "storage_enclosure_status"
    {
      var lines := Report(["storage", "enclosure"]).lines;
      var r := ReadReport(["storage", "enclosure"], Scan([], NoControllerName), EnclosureStep());
      BannerRun(EnclosureNamePrefix, EnclosureRows, Report(["storage", "enclosure"]));
      BannerRecordsPanics(EnclosureNamePrefix, EnclosureRows, lines, NoControllerName);
      BannerRecordsAll(EnclosureNamePrefix, EnclosureRows, lines, NoControllerName, (v: Value) => v.name == "storage_enclosure_status");
      o := Values(r);
    }

    /**
     * `StoragePdisk(cid)`: the disks of controller `cid`, each under the latest controller banner
     * and labelled with `cid`; it panics exactly when some disk row is too short for it.
     */
    method StoragePdisk(cid: string) returns (o: Outcome<seq<Value>>)
      ensures var lines := Report(["storage", "pdisk", "controller=" + cid]).lines;
        o.Panicked? <==> exists i :: 0 <= i < |lines| && PdiskRowPanics(lines[i])
      ensures o.Completed? ==>
        && o.err == Report(["storage", "pdisk", "controller=" + cid]).err
        && BannerRecords(ControllerNamePrefix, PdiskRowsOf(cid),
                                    Report(["storage", "pdisk", "controller=" + cid]).lines, NoControllerName) == Some(o.state)
        && forall v :: v in o.state ==> "controller" in v.labels && v.labels["controller"] == cid
      ensures o == Values(PdiskOutcomes()(cid))
    {
      var args := ["storage", "pdisk", "controller=" + cid];
      var lines := Report(args).lines;
      var r := ReadReport(args, Scan([], NoControllerName), PdiskStep(cid));
      BannerRun(ControllerNamePrefix, PdiskRowsOf(cid), Report(args));
      BannerRecordsPanics(ControllerNamePrefix, PdiskRowsOf(cid), lines, NoControllerName);
      forall name, f, v | PdiskRowsOf(cid)(name, f).Some? && v in PdiskRowsOf(cid)(name, f).value
        ensures "controller" in v.labels && v.labels["controller"] == cid
      {
        PdiskRowsLabelled(cid, name, f);
      }
      BannerRecordsAll(ControllerNamePrefix, PdiskRowsOf(cid), lines, NoControllerName,
                       (v: Value) => "controller" in v.labels && v.labels["controller"] == cid);
      o := Values(r);
    }

    /** The physical disk outcome of every controller id, as `StorageController` reads them. */
    function PdiskOutcomes(): string -> Outcome<Scan>
      reads this, options
    {
      var r := reader;
      var exe := Executable();
      cid => Run(r(exe, ["storage", "pdisk", "controller=" + cid]), Scan([], NoControllerName), PdiskStep(cid))
    }

    /**
     * `StorageVdisk`: six records per virtual disk, under the latest controller banner; it panics
     * exactly when some virtual disk row is too short for its columns.
     */
    method StorageVdisk() returns (o: Outcome<seq<Value>>)
      ensures var lines := Report(["storage", "vdisk"]).lines;
        o.Panicked? <==> exists i :: 0 <= i < |lines| && VdiskRowPanics(lines[i])
      ensures o.Completed? ==>
        && o.err == Report(["storage", "vdisk"]).err
        && BannerRecords(ControllerNamePrefix, VdiskRows, Report(["storage", "vdisk"]).lines, NoControllerName) == Some(o.state)
        && forall v :: v in o.state ==> v.name in VdiskMetrics
    {
      var lines := Report(["storage", "vdisk"]).lines;
      var r := ReadReport(["storage", "vdisk"], Scan([], NoControllerName), VdiskStep());
      BannerRun(ControllerNamePrefix, VdiskRows, Report(["storage", "vdisk"]));
      BannerRecordsPanics(ControllerNamePrefix, VdiskRows, lines, NoControllerName);
      forall name, f, v | VdiskRows(name, f).Some? && v in VdiskRows(name, f).value ensures v.name in VdiskMetrics {
        var vs := VdiskRows(name, f).value;
        var k :| 0 <= k < |vs| && vs[k] == v;
      }
      BannerRecordsAll(ControllerNamePrefix, VdiskRows, lines, NoControllerName, (v: Value) => v.name in VdiskMetrics);
      o := Values(r);
    }

    /**
     * `StorageController`: one status record per controller row, named after that row's
     * controller and slot. Every row also reads that controller's physical disk report, whose
     * records are dropped: it panics exactly when a row has no slot field or that report panics.
     */
    method StorageController() returns (o: Outcome<seq<Value>>)
      ensures var lines := Report(["storage", "controller"]).lines;
        o.Panicked? <==> exists i :: 0 <= i < |lines| && StorageRow(lines[i])
                                     && (|lines[i]| == 3 || PdiskOutcomes()(lines[i][0]).Panicked?)
      ensures o.Completed? ==>
        && o.err == Report(["storage", "controller"]).err
        && ConcatLines(ControllerRows(PdiskOutcomes()), Report(["storage", "controller"]).lines) == Some(o.state)
    {
      var lines := Report(["storage", "controller"]).lines;
      var pdisks := PdiskOutcomes();
      var r := ReadReport(["storage", "controller"], Scan([], NoControllerName), ControllerStep(pdisks));
      ControllerFeed(pdisks, lines, Scan([], NoControllerName));
      if ConcatLines(ControllerRows(pdisks), lines).Some? {
        var vs := ConcatLines(ControllerRows(pdisks), lines).value;
        assert [] + vs == vs;
      }
      ConcatLinesPanics(ControllerRows(pdisks), lines);
      assert forall i :: 0 <= i < |lines| ==>
        (ControllerRows(pdisks)(lines[i]).None? <==> StorageRow(lines[i]) && (|lines[i]| == 3 || pdisks(lines[i][0]).Panicked?));
      o := Values(r);
    }
  }
}
