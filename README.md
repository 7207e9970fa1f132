# dellhw_exporter in Dafny

A model of the core of `dellhw_exporter`. The exporter runs Dell OpenManage's `omreport`
tool and turns what it reports into Prometheus metrics. The model covers:

- **omreport output** (`pkg/omreport`): each line of `omreport`'s semicolon-separated output
  is split and cleaned (`Tokenize`). One generic reader loop (`OMReport.ReadReport`) feeds the
  lines to a mapper callback. A callback is a pure step function, and each mapper's records
  are proved against it: chassis, system, fans, memory, processors, temperatures, voltages,
  power supplies, NICs, power and amperage, CMOS batteries, BIOS and firmware labels, and the
  storage battery, enclosure, physical disk, virtual disk and controller reports. A Go index
  out of range inside a callback is a panic outcome (`Panic` / `Panicked`). The helpers of
  `util.go` are modelled with it: `clean`, `extract`, `severity`, the state and policy
  tables, `yesNoToBool`, `getNumberFromString`, and `replace`/`Replace`.
- **The exporter** (`cmd/dellhw_exporter`):
  - the log level switch;
  - legacy flag names;
  - flags read from `DELLHW_EXPORTER_*` environment variables;
  - loading the enabled collectors from the factory registry;
  - `execute`'s duration and success records;
  - the metric cache of `DellHWCollector.Collect`.
- **The older entry point** (`main.go`): filtering and loading a comma-separated collector
  list.
- **`flagutil.SetFlagsFromEnv`**.
- **The vendored RCON client** (`go-rcon`):
  - the little-endian wire helpers of `wire.go`;
  - the packet encoding and decoding of `comm.go`;
  - connect, authenticate, send and close of `server.go`, over a socket modelled as the
    packets it will deliver.

Strings are `seq<char>`. RCON bytes are a `byte` newtype, and packet fields are an `int32`
newtype. Go's `int32(...)` and `int64` conversions are wrapped explicitly (`WrapInt32`,
`Int64`). Time is an integer count of nanoseconds.

The `ErrInvalidResponseType` branch of `authenticate` (`server.go:130-132`) can never fire.
`RconServer.AuthenticationNeverInvalidType` states this. The model keeps the branch, as
written.

## Model

| member | source | states |
|---|---|---|
| OmReportUtil.Clean | pkg/omreport/util.go:50-54 | the result is single-spaced: no leading, trailing or doubled whitespace |
| OmReportUtil.CleanWords | pkg/omreport/util.go:50-54 | cleaning keeps exactly the words of the space-joined arguments |
| OmReportUtil.CleanIdempotent | pkg/omreport/util.go:50-54 | cleaning a cleaned string changes nothing |
| OmReportUtil.Extract | pkg/omreport/util.go:58-64 | fails with "0" and the error exactly when the suffix is missing; otherwise gives the trimmed text before the suffix |
| OmReportUtil.ExtractSpacedUnit | pkg/omreport/util.go:58-64 | "<number> <unit>" extracts to the number |
| OmReportUtil.ExtractWatts | pkg/omreport/omreport_test.go:967-972 | the wattages "900 W" and "750 W" of the fixtures extract to 900 and 750 |
| OmReportUtil.ExtractNoUnit | pkg/omreport/util.go:59-61 | a reading without the unit gives "0" and the error |
| OmReportUtil.Severity | pkg/omreport/util.go:68-76 | "0" iff Ok, "2" iff Non-Critical, "1" iff anything else |
| OmReportUtil.SeverityExamples | pkg/omreport/util_test.go:30-54 | the severity test table: Ok, Unknown, Non-Critical and free text |
| OmReportUtil.PdiskState | pkg/omreport/util.go:78-98 | a code exists exactly for the 15 known disk states |
| OmReportUtil.VdiskState | pkg/omreport/util.go:100-117 | a code exists exactly for the 12 known virtual disk states |
| OmReportUtil.VdiskReadPolicy | pkg/omreport/util.go:119-130 | a code exists exactly for the 6 known read policies |
| OmReportUtil.VdiskWritePolicy | pkg/omreport/util.go:132-145 | a code exists exactly for the 8 known write policies |
| OmReportUtil.VdiskCachePolicy | pkg/omreport/util.go:147-155 | a code exists exactly for the 3 known cache policies |
| OmReportUtil.PdiskStateTable | pkg/omreport/util.go:79-95 | the disk states are numbered 0, 1, 2, … in table order, with no other entries |
| OmReportUtil.PdiskStateCodes | pkg/omreport/util.go:79-95 | the k-th disk state maps to the decimal k |
| OmReportUtil.VdiskStateTable | pkg/omreport/util.go:101-114 | the virtual disk states are numbered from 1 in table order |
| OmReportUtil.VdiskStateCodes | pkg/omreport/util.go:101-114 | the k-th virtual disk state maps to the decimal k+1 |
| OmReportUtil.ReadPolicyTable | pkg/omreport/util.go:120-127 | the read policies are numbered from 0 in table order |
| OmReportUtil.ReadPolicyCodes | pkg/omreport/util.go:120-127 | the k-th read policy maps to the decimal k |
| OmReportUtil.WritePolicyTable | pkg/omreport/util.go:133-142 | the write policies are numbered from 0 in table order |
| OmReportUtil.WritePolicyCodes | pkg/omreport/util.go:133-142 | the k-th write policy maps to the decimal k |
| OmReportUtil.CachePolicyTable | pkg/omreport/util.go:148-152 | the cache policies are numbered from 0 in table order |
| OmReportUtil.CachePolicyCodes | pkg/omreport/util.go:148-152 | the k-th cache policy maps to the decimal k |
| OmReportUtil.LookupNumbered | pkg/omreport/util.go:97 | looking up a word of a numbered table gives its position as a decimal |
| OmReportUtil.YesNoToBool | pkg/omreport/util.go:158-163 | "1" iff the text is "Yes", "0" otherwise |
| OmReportUtil.LeadingDigits | pkg/omreport/util.go:166-170 | the longest all-digit prefix |
| OmReportUtil.FirstDigit | pkg/omreport/util.go:166-170 | the position of the first digit, absent iff there is none |
| OmReportUtil.GetNumberFromString | pkg/omreport/util.go:169-175 | "-1" iff the text has no digit, otherwise a non-empty run of digits |
| OmReportUtil.GetNumberLeftmostRun | pkg/omreport/util.go:169-175 | the result is the leftmost maximal run of digits |
| OmReportUtil.GetNumberOfRun | pkg/omreport/util.go:169-175 | a digit run after digit-free text is what is found |
| OmReportUtil.LeadingDigitsOf | pkg/omreport/util.go:166-170 | a digit run followed by a non-digit is the leading run |
| OmReportUtil.GetNumberPercent | pkg/omreport/omreport_test.go:512 | "100%" gives "100" |
| OmReportUtil.GetNumberRaidLevel | pkg/omreport/omreport_test.go:695 | "RAID-10" gives "10" |
| OmReportUtil.Replace | pkg/omreport/util.go:183-201 | the loop's result equals the run-collapsing specification; it errs exactly when that is empty |
| OmReportUtil.ReplaceName | pkg/omreport/util.go:177-180 | every character is allowed, and the result is empty iff the name is |
| OmReportUtil.ReplacedAllowed | pkg/omreport/util.go:186-196 | with an allowed replacement, only allowed characters come out |
| OmReportUtil.ReplacedEmpty | pkg/omreport/util.go:197-199 | the result is empty only for empty input (or a run of disallowed characters just replaced) |
| OmReportUtil.ReplacedAllAllowed | pkg/omreport/util.go:186-196 | a name of allowed characters is kept as it is |
| OmReportUtil.AllowedRun | pkg/omreport/util.go:188-190 | a run of allowed characters is copied and resets the collapse state |
| OmReportUtil.DisallowedRun | pkg/omreport/util.go:191-194 | a run of disallowed characters becomes one replacement |
| OmReportUtil.ReplacedStateForgotten | pkg/omreport/util.go:188-190 | after an allowed character the previous collapse state no longer matters |
| OmReportUtil.ReplacedNoneAllowed | pkg/omreport/util.go:191-194 | text with no allowed character becomes a single replacement |
| OmReportUtil.ReplacedWords | pkg/omreport/util.go:183-201 | words joined by separators of disallowed characters come out joined by one replacement each |
| OmReportUtil.ReplaceNameExample | pkg/omreport/omreport_test.go:1264 | "System Board 3.3V PG" becomes "System_Board_3.3V_PG" |
| OmReportTypes.At | pkg/omreport/omreport.go:111-136 | indexing a field slice: a value iff the index is in range, otherwise the panic |
| OmReportTypes.FeedConcat | pkg/omreport/omreport.go:70-80 | feeding two runs of lines is feeding the first, then the second from where it stopped |
| OmReportTypes.FeedAppending | pkg/omreport/omreport.go:94-108 | an appending callback accumulates the concatenation of each line's records, or panics |
| OmReportTypes.ConcatLinesPanics | pkg/omreport/omreport.go:94-108 | a report panics iff some line's callback panics |
| OmReportTypes.ConcatLinesAll | pkg/omreport/omreport.go:94-108 | a property of every line's records holds for the whole report |
| OmReportTypes.ConcatLinesLength | pkg/omreport/omreport.go:94-108 | the number of records is the sum over lines |
| OmReportTypes.RecordCountSelected | pkg/omreport/omreport.go:94-108 | a callback giving one record per selected line gives as many records as selected lines |
| OmReportTypes.Optional | pkg/omreport/omreport.go:126-133 | a reading record is added iff the reading parsed, with the probe's labels |
| OmReportTypes.FollowsStatusLabelled | pkg/omreport/omreport.go:111-136 | a status record followed by records with the same labels follows its status |
| OmReportTypes.FollowsStatusConcat | pkg/omreport/omreport.go:111-136 | the follow-status property survives concatenation of lines |
| OmReportTypes.ConcatLinesFollowStatus | pkg/omreport/omreport.go:111-136 | in a whole report every record follows a status record with its labels |
| OmReport.Tokenize | pkg/omreport/omreport.go:70-80 | one field per ";"-separated part, each with the same words, single-spaced and already clean |
| OmReport.TokenizeJoin | pkg/omreport/omreport.go:70-80 | clean, ";"-free fields joined by ";" tokenize back to themselves |
| OmReport.TokenizeLine | pkg/omreport/omreport.go:70-80 | the cleaning loop over the split fields gives `Tokenize` |
| OmReport.TokenizeAll | pkg/omreport/omreport.go:70-80 | every output line tokenized, in order |
| OmReport.ReadOmreportOutput | pkg/omreport/omreport.go:70-80 | the command is run with "-fmt ssv" appended; its lines are tokenized; it errs iff the command fails |
| OmReport.TestReaderLines | pkg/omreport/omreport_test.go:31-75 | the test reader gives back newline-free rows line by line, without error |
| OmReport.AppendingRun | pkg/omreport/omreport.go:89-91 | a report run with an appending callback is the concatenated records plus the reader's error, or a panic |
| OmReport.BannerRun | pkg/omreport/omreport.go:175-196 | a report run with a banner callback gives the reference records starting from "N/A" |
| OmReport.Values | pkg/omreport/omreport.go:195 | a storage mapper returns its values, panicking iff the scan did |
| OmReport.Options.constructor | pkg/omreport/omreport.go:35-37 | the options hold the executable path |
| OmReport.OMReport.New | pkg/omreport/omreport.go:60-68 | an empty path is replaced by the default, and the reader runs omreport |
| OmReport.OMReport.WithReader | pkg/omreport/omreport_test.go:31-40 | an OMReport around a given reader |
| OmReport.OMReport.Executable | pkg/omreport/omreport.go:82-87 | the configured path, or the default without options |
| OmReport.OMReport.ReadReport | pkg/omreport/omreport.go:70-91 | the reader loop feeds each line to the callback in order; the result is the fold, or a panic |
| OmReport.OMReport.Appended | pkg/omreport/omreport.go:89-91 | an appending report is the concatenation of each line's records |
| OmReport.OMReport.Chassis | pkg/omreport/omreport.go:94-108 | never panics; one status record per component row, labelled with the underscored component |
| OmReport.OMReport.System | pkg/omreport/omreport.go:158-172 | never panics; one status record per component row |
| OmReport.OMReport.Fans | pkg/omreport/omreport.go:111-136 | never panics; every RPM reading follows its fan's status with the same labels |
| OmReport.OMReport.Memory | pkg/omreport/omreport.go:139-155 | never panics; exactly one record per memory probe row |
| OmReport.OMReport.Processors | pkg/omreport/omreport.go:555-571 | never panics; exactly one record per processor probe row |
| OmReport.OMReport.Temps | pkg/omreport/omreport.go:575-632 | never panics; readings and thresholds follow their probe's status |
| OmReport.OMReport.Volts | pkg/omreport/omreport.go:635-659 | never panics; each reading follows its probe's status |
| OmReport.OMReport.Ps | pkg/omreport/omreport.go:433-471 | never panics; wattages follow their supply's status |
| OmReport.OMReport.Nics | pkg/omreport/omreport.go:474-509 | never panics; only monitored devices are reported, and every interface row when none is named |
| OmReport.OMReport.PsAmpsSysboardPwr | pkg/omreport/omreport.go:512-552 | never panics (corrected guard); the records are those of `PsAmpsLine` |
| OmReport.OMReport.ChassisBatteries | pkg/omreport/omreport.go:662-678 | never panics; exactly one record per battery row |
| OmReport.OMReport.Labelled | pkg/omreport/omreport.go:681-702 | one record with value "0", whose labels are the report's keys, the last value of each winning |
| OmReport.OMReport.ChassisBios | pkg/omreport/omreport.go:681-702 | one "bios" record whose labels are the report's keys, the last value winning |
| OmReport.OMReport.ChassisFirmware | pkg/omreport/omreport.go:705-726 | one "firmware" record whose labels are the report's keys, the last value winning |
| OmReport.OMReport.StorageBattery | pkg/omreport/omreport.go:175-196 | never panics; each battery is labelled with the latest controller banner above it |
| OmReport.OMReport.StorageEnclosure | pkg/omreport/omreport.go:223-244 | never panics; each enclosure is labelled with the latest enclosure banner above it |
| OmReport.OMReport.StoragePdisk | pkg/omreport/omreport.go:247-313 | panics iff some disk row is too short; otherwise the banner records, all labelled with the controller id |
| OmReport.OMReport.StorageVdisk | pkg/omreport/omreport.go:316-430 | panics iff some virtual disk row is too short; otherwise the banner records, all among the six virtual disk metrics |
| OmReport.OMReport.StorageController | pkg/omreport/omreport.go:199-220 | panics iff a controller row lacks a slot or its disk report panics; otherwise one record per controller row |
| OmReportChassis.Reading | pkg/omreport/omreport.go:126-133 | a reading is the number of a "<number> <unit>" field |
| OmReportChassis.ReadingOfSpaced | pkg/omreport/omreport.go:126-133 | "<n> <unit>" reads as n |
| OmReportChassis.ExtractOk | pkg/omreport/omreport.go:650-656 | `extract` succeeds iff the unit suffix is present |
| OmReportChassis.ComponentStatus | pkg/omreport/omreport.go:94-108 | a component row gives one status record with the underscored component label; other rows give none |
| OmReportChassis.ComponentMapping | pkg/omreport/omreport.go:94-108 | a report gives one well-formed status record per component row |
| OmReportChassis.ChassisExample | pkg/omreport/omreport_test.go:50-75 | the chassis fixture: header skipped, Fans and Intrusion reported Ok |
| OmReportChassis.FansLine | pkg/omreport/omreport.go:111-136 | records only for 8-field probe rows: status, then the RPM reading with the same labels |
| OmReportChassis.MemoryLine | pkg/omreport/omreport.go:139-155 | exactly one status record per 5-field row with a numeric index |
| OmReportChassis.ProcessorsLine | pkg/omreport/omreport.go:555-571 | exactly one status record per 8-field row with a numeric index |
| OmReportChassis.TempsLine | pkg/omreport/omreport.go:575-632 | status, then the reading, the minimum and maximum warning and the minimum and maximum failure thresholds, each present exactly when its field reads "<n> C" and then with value n, all with the status's labels |
| OmReportChassis.TempsReadingsLabelled | pkg/omreport/omreport.go:584-628 | every record after the status is one of the five temperature metrics and carries the probe's label |
| OmReportChassis.TempsRowWithReadings | pkg/omreport/omreport.go:584-628 | a row whose five fields all read "<n> C" gives exactly six records: the status and the five values, in source order |
| OmReportChassis.VoltsLine | pkg/omreport/omreport.go:635-659 | status, then the reading when it ends in "V" |
| OmReportChassis.FansFollowStatus | pkg/omreport/omreport.go:111-136 | a whole fan report never panics and every reading follows its status |
| OmReportChassis.TempsFollowStatus | pkg/omreport/omreport.go:575-632 | a whole temperature report never panics and readings follow their status |
| OmReportChassis.VoltsFollowStatus | pkg/omreport/omreport.go:635-659 | a whole voltage report never panics and readings follow their status |
| OmReportChassis.MemoryMapping | pkg/omreport/omreport.go:139-155 | a memory report has exactly one record per memory probe row |
| OmReportChassis.ProcessorsMapping | pkg/omreport/omreport.go:555-571 | a processor report has exactly one record per processor probe row |
| OmReportChassis.MemoryExample | pkg/omreport/omreport_test.go:166-180 | the populated slot is reported and the slot with an empty index is dropped |
| OmReportChassis.FanNameExample | pkg/omreport/omreport_test.go:105 | "System Board Fan1A" becomes "System_Board_Fan1A" |
| OmReportChassis.FansRowWithReading | pkg/omreport/omreport.go:111-136 | a fan row with an RPM reading gives exactly its status and its reading |
| OmReportChassis.FanReadingExample | pkg/omreport/omreport_test.go:97 | "5040 RPM" reads as 5040 |
| OmReportChassis.FansExample | pkg/omreport/omreport_test.go:95-120 | the fan fixture: status and RPM reading |
| OmReportChassis.VoltNameExample | pkg/omreport/omreport_test.go:1249 | "CPU1 VCORE PG" becomes "CPU1_VCORE_PG" |
| OmReportChassis.VoltsRowWithoutReading | pkg/omreport/omreport.go:650-656 | a voltage reading without "V" gives the status record alone |
| OmReportChassis.VoltsExample | pkg/omreport/omreport_test.go:1247-1270 | the voltage fixture: the "Good" reading gives the status alone |
| OmReportChassis.Wattage | pkg/omreport/omreport.go:449-468 | a rated wattage is present iff the field is non-empty and ends in "W" |
| OmReportChassis.PsLine | pkg/omreport/omreport.go:433-471 | a supply row gives its status with the underscored id, then the wattages that parse, with the same labels |
| OmReportChassis.PsRowWithWattages | pkg/omreport/omreport.go:433-471 | a row with both wattages gives status, input and output records |
| OmReportChassis.PsExample | pkg/omreport/omreport_test.go:967-1000 | the supply fixture: status, 900 W in, 750 W out |
| OmReportChassis.NicsLine | pkg/omreport/omreport.go:474-509 | one record iff an interface row is monitored (or no list is given), 0 iff connected |
| OmReportChassis.NicsFilter | pkg/omreport/omreport.go:474-509 | only monitored devices are reported; with no list, one record per interface row |
| OmReportChassis.NicsExample | pkg/omreport/omreport_test.go:198-240 | the NIC fixture: connected eno1 gives 0, disabled eno3 gives 1, an unlisted device nothing |
| OmReportChassis.PowerRecords | pkg/omreport/omreport.go:528-548 | three records iff all three readings have a value and a unit, otherwise none |
| OmReportChassis.PsAmpsLineAsWritten | pkg/omreport/omreport.go:512-552 | as written: panics exactly on a current row with a blank reading |
| OmReportChassis.PsAmpsLine | pkg/omreport/omreport.go:512-552 | never panics; a current row is reported iff its reading has a value and a unit; power rows give `PowerRecords` |
| OmReportChassis.CurrentGuardNeverFires | pkg/omreport/omreport.go:516-518 | splitting a text containing "Current" on it gives two or more parts, so the `&&` guard is false |
| OmReportChassis.CurrentInRowName | pkg/omreport/omreport_test.go:1039 | "PS1 Current 1" contains "Current" |
| OmReportChassis.PsAmpsBlankReadingPanics | pkg/omreport/omreport.go:517-524 | the row "PS1 Current 1;" panics as written and is skipped when corrected |
| OmReportChassis.PsAmpsAgree | pkg/omreport/omreport.go:512-552 | where current readings have a unit, the written and the corrected mapper agree |
| OmReportChassis.PsAmpsOneWordReading | pkg/omreport/omreport.go:512-552 | on a one-word reading the written guard reports the word while the corrected guard skips the row |
| OmReportChassis.PowerRowReadings | pkg/omreport/omreport.go:528-548 | a power row with three "<n> <unit>" readings gives reading, warning and failure records |
| OmReportChassis.PsAmpsPowerExample | pkg/omreport/omreport_test.go:1034-1045 | the power fixture row gives 84, 896 and 980 |
| OmReportChassis.ChassisBatteriesLine | pkg/omreport/omreport.go:662-678 | exactly one status record per battery row, with the underscored id |
| OmReportChassis.LabelKey | pkg/omreport/omreport.go:681-702 | a key is lower-cased with spaces turned into "_" |
| OmReportChassis.LabelsLastWins | pkg/omreport/omreport.go:681-702 | never panics; each key holds the value of its last two-field line, and a key absent from the lines keeps its start value |
| OmReportChassis.FirmwareExample | pkg/omreport/omreport_test.go:1350-1360 | the firmware fixture: iDRAC and lifecycle controller versions under lower-cased keys |
| OmReportStorage.BannerFeed | pkg/omreport/omreport.go:175-196 | the banner scan gives the rows' records under the latest banner name, or panics |
| OmReportStorage.NoBannerKeepsName | pkg/omreport/omreport.go:175-196 | without a banner line the name stays "N/A" |
| OmReportStorage.BannerThenRows | pkg/omreport/omreport.go:179-181 | a banner fixes the name until the next banner |
| OmReportStorage.BannerRecordsPanics | pkg/omreport/omreport.go:247-313 | a banner report panics iff some row does under its name |
| OmReportStorage.BannerRecordsAll | pkg/omreport/omreport.go:175-196 | a property of every row's records holds for the whole report |
| OmReportStorage.BatteryRows | pkg/omreport/omreport.go:185-193 | one status record per battery row, labelled with its id and controller |
| OmReportStorage.EnclosureRows | pkg/omreport/omreport.go:233-241 | one status record per enclosure row, labelled with its id and controller |
| OmReportStorage.PdiskRows | pkg/omreport/omreport.go:258-310 | panics iff the row is too short; a data row gives status and state; failure prediction and write endurance for rows of more than eight fields; encryption when field 15 is "Yes" |
| OmReportStorage.PdiskRowsLabelled | pkg/omreport/omreport.go:258-310 | every record of a physical disk row carries that row's controller, disk and controller-name labels |
| OmReportStorage.VdiskRows | pkg/omreport/omreport.go:326-427 | panics iff the row is too short; a data row gives the six virtual disk records |
| OmReportStorage.ControllerStepShape | pkg/omreport/omreport.go:199-220 | the controller callback panics only on a short row or a panicking disk report, and appends one record per row |
| OmReportStorage.ControllerFeed | pkg/omreport/omreport.go:199-220 | the controller scan is the concatenation of each row's status record |
| OmReportStorage.FeedCons | pkg/omreport/omreport.go:70-80 | feeding a line in front of others is one step, then the rest |
| OmReportStorage.ControllerBanner | pkg/omreport/omreport.go:179-181 | "Controller X" is a banner naming X |
| OmReportStorage.BatterySection | pkg/omreport/omreport_test.go:305-340 | one controller section of the battery fixture adds one battery under that controller |
| OmReportStorage.BatteryTitle | pkg/omreport/omreport_test.go:307-308 | the title above the first banner adds nothing |
| OmReportStorage.BatteryTwoSections | pkg/omreport/omreport_test.go:326-340 | with two sections each battery carries its own section's controller |
| Collectors.LoadOk | cmd/dellhw_exporter/dellhw_exporter.go:397-417 | loading succeeds iff every name is registered and builds; then one collector per name |
| Collectors.LoadFirstError | cmd/dellhw_exporter/dellhw_exporter.go:397-417 | a failed load reports the first name that is missing or fails |
| Collectors.LoadPrefixFails | main.go:132-146 | once a prefix fails, the whole list fails the same way |
| FlagUtil.FlagSet.constructor | pkg/flagutil/env.go:21 | a flag set holding the given flags |
| FlagUtil.EnvKey | pkg/flagutil/env.go:28 | the key is the prefix, "_", and the upper-cased name with "." and "-" turned into "_" |
| FlagUtil.EnvKeyReplace | pkg/flagutil/env.go:28 | the key equals the nested `ReplaceAll`/`ToUpper` form |
| FlagUtil.EnvKeyExample | pkg/flagutil/env.go:17-20 | "some-flag" with prefix PREFIX gives PREFIX_SOME_FLAG |
| FlagUtil.Errors | pkg/flagutil/env.go:26-36 | one outcome per flag, in visiting order |
| FlagUtil.SetFlagsFromEnv | pkg/flagutil/env.go:21-38 | each flag becomes what its variable makes of it; the error is the last one |
| FlagUtil.AlreadySetUntouched | pkg/flagutil/env.go:22-27 | a flag already set (reached by `fs.Visit`, that is, marked changed) is never changed and causes no error |
| FlagUtil.UnsetUntouched | pkg/flagutil/env.go:29-30 | an empty or unset variable changes nothing |
| FlagUtil.EnvValueApplied | pkg/flagutil/env.go:29-34 | a non-empty value is set, or gives the "invalid value" error |
| FlagUtil.LastErrorIsLast | pkg/flagutil/env.go:32 | no error iff no flag failed; otherwise the last failure's error |
| Exporter.LogLevel | cmd/dellhw_exporter/dellhw_exporter.go:138-155 | debug, error and warning exactly for their lower- and upper-case spellings; info otherwise |
| Exporter.LogLevelFallback | cmd/dellhw_exporter/dellhw_exporter.go:138-155 | mixed case and "warn" fall back to info |
| Exporter.NormalizeFlags | cmd/dellhw_exporter/dellhw_exporter.go:262-278 | a name changes iff it is a legacy name, into its replacement |
| Exporter.NormalizeIdempotent | cmd/dellhw_exporter/dellhw_exporter.go:262-278 | normalizing twice is normalizing once |
| Exporter.NormalizeDotFree | cmd/dellhw_exporter/dellhw_exporter.go:262-278 | dot-free names are never renamed |
| Exporter.FlagNameFromEnvName | cmd/dellhw_exporter/dellhw_exporter.go:280-284 | same length, no "_", no upper-case letter |
| Exporter.FlagNameReplace | cmd/dellhw_exporter/dellhw_exporter.go:280-284 | equals lower-casing, then replacing "_" by "-" |
| Exporter.EnvNameRoundTrip | cmd/dellhw_exporter/dellhw_exporter.go:280-293 | the variable a flag name gives maps back to that flag name |
| Exporter.Lookup | cmd/dellhw_exporter/dellhw_exporter.go:295 | the first flag registered under the normalized name, absent iff there is none |
| Exporter.FindName | cmd/dellhw_exporter/dellhw_exporter.go:295 | the first flag with the name at or after a position |
| Exporter.ParseFlagsAndEnvVars | cmd/dellhw_exporter/dellhw_exporter.go:286-306 | the loop's new flags and outcome are those of `ApplyEnv` |
| Exporter.ApplyEnvKeepsSetFlags | cmd/dellhw_exporter/dellhw_exporter.go:295-298 | flags are never added, removed, renamed or marked changed; a flag already marked changed keeps its value |
| Exporter.ApplyEnvUnprefixed | cmd/dellhw_exporter/dellhw_exporter.go:290-292 | without a prefixed entry nothing changes and the command line is parsed |
| Exporter.ApplyEnvConcat | cmd/dellhw_exporter/dellhw_exporter.go:286-306 | the loop stops at the first failure; later entries are never read |
| Exporter.LoadCollectors | cmd/dellhw_exporter/dellhw_exporter.go:397-417 | succeeds iff every name is registered and builds, keyed by exactly the listed names |
| Exporter.Execute | cmd/dellhw_exporter/dellhw_exporter.go:374-389 | the collector's metrics, then its duration, then success 1 iff no error |
| Exporter.SuccessRecordsConcat | cmd/dellhw_exporter/dellhw_exporter.go:315-372 | success records of concatenated metrics concatenate |
| Exporter.SuccessRecordsReported | cmd/dellhw_exporter/dellhw_exporter.go:374-389 | a collector's own metrics carry no success record |
| Exporter.ScrapeSuccessRecords | cmd/dellhw_exporter/dellhw_exporter.go:315-372 | a scrape has exactly one success record per collector, in run order |
| Exporter.Int64 | cmd/dellhw_exporter/dellhw_exporter.go:229-237 | an int64 value congruent to its argument, equal to it when it fits |
| Exporter.CacheDurationExact | cmd/dellhw_exporter/dellhw_exporter.go:229-237 | a cache duration that fits is exactly the seconds in nanoseconds |
| Exporter.CacheDurationWraps | cmd/dellhw_exporter/dellhw_exporter.go:229-237 | 9223372037 seconds wrap to a negative duration |
| Exporter.DellHWCollector.constructor | cmd/dellhw_exporter/dellhw_exporter.go:229-237 | an empty cache, last collected at the epoch, the duration in wrapped nanoseconds |
| Exporter.DellHWCollector.Collect | cmd/dellhw_exporter/dellhw_exporter.go:315-372 | a cache hit resends the cache and changes nothing; otherwise every collector runs once, the cache is refreshed when caching is on, and the collection time moves on |
| LegacyMain.Available | main.go:104-113 | a name is kept iff it is listed and registered, in list order |
| LegacyMain.FilterAvailableCollectors | main.go:104-113 | the loop gives the registered names of the list, comma-joined |
| LegacyMain.AvailableAll | main.go:104-113 | a list of registered names is kept whole |
| LegacyMain.FilteredSplit | main.go:104-113 | splitting the result again gives the kept names |
| LegacyMain.FilterIdempotent | main.go:104-113 | filtering a filtered list changes nothing |
| LegacyMain.DefaultsKept | main.go:23 | with a factory for each of its names, the default collector list passes the filter unchanged |
| LegacyMain.LoadCollectors | main.go:132-146 | the loop builds the comma-separated collectors in order, failing at the first missing or failing one |
| LegacyMain.EmptyListFails | main.go:132-146 | an empty list names the collector "", which is missing |
| LegacyMain.LoadFiltered | main.go:104-146 | a filtered list loads exactly the kept names, or fails on "" when none is kept |
| RconWire.Pow256 | vendor/github.com/galexrt/go-rcon/wire.go:36-58 | the range of an n-byte integer is positive |
| RconWire.Half | vendor/github.com/galexrt/go-rcon/wire.go:36-58 | half that range bounds the signed values |
| RconWire.LE | vendor/github.com/galexrt/go-rcon/wire.go:36-58 | a little-endian value is below the range of its width |
| RconWire.LEBytes | vendor/github.com/galexrt/go-rcon/wire.go:120-122 | the n bytes of v decode to v |
| RconWire.LEBytesOfLE | vendor/github.com/galexrt/go-rcon/wire.go:36-58 | encoding decoded bytes gives them back |
| RconWire.Signed | vendor/github.com/galexrt/go-rcon/wire.go:36-58 | two's complement lies within the signed range |
| RconWire.Unsigned | vendor/github.com/galexrt/go-rcon/wire.go:120-122 | the unsigned representation lies within the range |
| RconWire.SignedUnsigned | vendor/github.com/galexrt/go-rcon/wire.go:36-58 | signed of unsigned is the identity |
| RconWire.Long | vendor/github.com/galexrt/go-rcon/wire.go:120-122 | an int32 is written as four bytes |
| RconWire.LongRoundTrip | vendor/github.com/galexrt/go-rcon/wire.go:42-46 | reading back a written int32 gives it |
| RconWire.ByteReader.constructor | vendor/github.com/galexrt/go-rcon/comm.go:66 | a reader over the data |
| RconWire.FullRead | vendor/github.com/galexrt/go-rcon/wire.go:30-34 | `io.ReadFull`: n bytes iff available; a short read consumes all and errs |
| RconWire.ReadBytes | vendor/github.com/galexrt/go-rcon/wire.go:24-34 | a negative length fails before reading; otherwise reads as `FullRead` |
| RconWire.FixedRead | vendor/github.com/galexrt/go-rcon/wire.go:36-58 | `binary.Read` of n bytes: the (signed) value iff enough bytes, otherwise 0 and nothing left |
| RconWire.FixedRoundTrip | vendor/github.com/galexrt/go-rcon/wire.go:36-58 | reading back an encoded value gives it and leaves what followed |
| RconWire.ReadFixed | vendor/github.com/galexrt/go-rcon/wire.go:36-58 | reads as `FixedRead` |
| RconWire.ReadShort | vendor/github.com/galexrt/go-rcon/wire.go:36-40 | a little-endian int16 |
| RconWire.ReadLong | vendor/github.com/galexrt/go-rcon/wire.go:42-46 | a little-endian int32 |
| RconWire.ReadULong | vendor/github.com/galexrt/go-rcon/wire.go:48-52 | a little-endian uint32 |
| RconWire.ReadLongLong | vendor/github.com/galexrt/go-rcon/wire.go:54-58 | a little-endian int64 |
| RconWire.NulIndex | vendor/github.com/galexrt/go-rcon/wire.go:60-80 | the first NUL byte's position, absent iff there is none |
| RconWire.StringRead | vendor/github.com/galexrt/go-rcon/wire.go:60-80 | succeeds iff a NUL follows: the bytes up to and including it; EOF otherwise |
| RconWire.ReadString | vendor/github.com/galexrt/go-rcon/wire.go:60-80 | both the buffered path and the byte-wise loop read as `StringRead` |
| RconWire.FirstNul | vendor/github.com/galexrt/go-rcon/wire.go:60-80 | the first NUL is found |
| RconWire.StringRoundTrip | vendor/github.com/galexrt/go-rcon/wire.go:111-114 | a written NUL-free string reads back NUL-terminated |
| RconWire.ToInt | vendor/github.com/galexrt/go-rcon/wire.go:87-102 | an int64 or a string `strconv.Atoi` accepts gives its value; a well-formed decimal outside int64 gives ErrRange, and so does any string whose leading digits (after the sign) pass MaxUint64, whatever follows; every other string gives ErrSyntax; any other type gives ErrBadData |
| GoStrings.AtoiOutcome | vendor/github.com/galexrt/go-rcon/wire.go:95-98 | `strconv.Atoi` as Go writes it (the short fast path, then `ParseInt` and `ParseUint`'s digit loop with its overflow checks) succeeds exactly where a signed decimal fits int64, and fails with ErrRange exactly on an out-of-range decimal or on leading digits beyond MaxUint64 |
| RconWire.ToIntItoa | vendor/github.com/galexrt/go-rcon/wire.go:95-98 | the decimal text of a number gives that number when it fits in int64, and ErrRange when it does not |
| RconWire.ToIntSyntax | vendor/github.com/galexrt/go-rcon/wire.go:95-98 | text that is empty or does not end in a digit gives ErrSyntax, or ErrRange when its leading digits already pass MaxUint64 |
| RconWire.ToIntOverflowFirst | vendor/github.com/galexrt/go-rcon/wire.go:95-98 | digits beyond MaxUint64 give ErrRange whatever non-digit text follows them |
| RconWire.ToIntOverflowExample | vendor/github.com/galexrt/go-rcon/wire.go:95-98 | "123456789012345678901x" gives ErrRange, not ErrSyntax |
| RconWire.ToIntDigit | vendor/github.com/galexrt/go-rcon/wire.go:87-102 | a digit string gives its value |
| RconWire.ByteBuffer.constructor | vendor/github.com/galexrt/go-rcon/comm.go:39 | an empty buffer |
| RconWire.RequestPrefixIsMinusOne | vendor/github.com/galexrt/go-rcon/wire.go:109 | the request prefix reads as -1 |
| RconWire.WriteRequestPrefix | vendor/github.com/galexrt/go-rcon/wire.go:104-107 | appends four 0xFF bytes |
| RconWire.WriteString | vendor/github.com/galexrt/go-rcon/wire.go:111-114 | appends the string and a NUL |
| RconWire.WriteByte | vendor/github.com/galexrt/go-rcon/wire.go:116-118 | appends the byte |
| RconWire.WriteLong | vendor/github.com/galexrt/go-rcon/wire.go:120-122 | appends the four little-endian bytes |
| RconWire.WriteNull | vendor/github.com/galexrt/go-rcon/wire.go:124-126 | appends a NUL |
| RconComm.WrapInt32 | vendor/github.com/galexrt/go-rcon/comm.go:29-36 | `int32(x)`: congruent to x, equal to it when it fits |
| RconComm.NewRequest | vendor/github.com/galexrt/go-rcon/comm.go:29-36 | the type, body and id as given; size the body length plus 10 |
| RconComm.Marshal | vendor/github.com/galexrt/go-rcon/comm.go:38-47 | the wire form is 14 bytes longer than the body |
| RconComm.MarshalLength | vendor/github.com/galexrt/go-rcon/comm.go:29-47 | a request's wire form is its size plus the four size bytes |
| RconComm.MarshalBinary | vendor/github.com/galexrt/go-rcon/comm.go:38-47 | the buffer writes give `Marshal` and never fail |
| RconComm.Decode | vendor/github.com/galexrt/go-rcon/comm.go:60-82 | succeeds iff at least 14 bytes; fields at offsets 0, 4 and 8, body up to the last two bytes; EOF, unexpected EOF or the make panic otherwise |
| RconComm.DecodeMarshal | vendor/github.com/galexrt/go-rcon/comm.go:38-82 | decoding a marshalled packet gives it back |
| RconComm.Response.constructor | vendor/github.com/galexrt/go-rcon/comm.go:49-54 | the zero response |
| RconComm.Response.UnmarshalBinary | vendor/github.com/galexrt/go-rcon/comm.go:60-82 | succeeds as `Decode` does; on failure the fields read so far are kept |
| RconServer.Tail | vendor/github.com/galexrt/go-rcon/rconsocket.go:40-55 | a receive consumes one packet |
| RconServer.Socket.constructor | vendor/github.com/galexrt/go-rcon/rconsocket.go:17-23 | a fresh open connection |
| RconServer.Socket.Send | vendor/github.com/galexrt/go-rcon/rconsocket.go:29-38 | records the packet, or fails with the connection's write error |
| RconServer.Socket.Receive | vendor/github.com/galexrt/go-rcon/rconsocket.go:40-55 | the next packet, or EOF |
| RconServer.Socket.Close | vendor/github.com/galexrt/go-rcon/rconsocket.go:25-27 | the connection is closed, nothing else changes |
| RconServer.CheckResponse | vendor/github.com/galexrt/go-rcon/server.go:116-143 | passes iff the packet was received, decodes, and has the type and id expected |
| RconServer.AuthenticationAccepts | vendor/github.com/galexrt/go-rcon/server.go:106-146 | the empty response and the auth response with the request id log in |
| RconServer.AuthenticationRejects | vendor/github.com/galexrt/go-rcon/server.go:141-143 | an auth response with id -1 fails the login |
| RconServer.AuthenticationNeverInvalidType | vendor/github.com/galexrt/go-rcon/server.go:127-132 | the type check after the id check never fires |
| RconServer.ResponsesAfterMirror | vendor/github.com/galexrt/go-rcon/server.go:206-211 | after the mirror only the trailer succeeds |
| RconServer.ResponsesUnfold | vendor/github.com/galexrt/go-rcon/server.go:184-219 | one loop step on a response value |
| RconServer.WellFormedCons | vendor/github.com/galexrt/go-rcon/server.go:212-218 | a reply in front of a well-formed answer keeps it well formed |
| RconServer.ResponsesOk | vendor/github.com/galexrt/go-rcon/server.go:184-220 | success only on replies, the mirror and the trailer; the result is the replies' bodies in order |
| RconServer.ResponsesStep | vendor/github.com/galexrt/go-rcon/server.go:192-219 | one step on a marshalled response |
| RconServer.ResponsesReplies | vendor/github.com/galexrt/go-rcon/server.go:212-218 | replies add their bodies in order and nothing else |
| RconServer.ResponsesAccept | vendor/github.com/galexrt/go-rcon/server.go:184-220 | replies, mirror and trailer give the concatenated bodies and leave the rest unread |
| RconServer.Server.constructor | vendor/github.com/galexrt/go-rcon/server.go:46-48 | a server with the address and password, not connected |
| RconServer.Server.Authenticate | vendor/github.com/galexrt/go-rcon/server.go:106-146 | sends the auth request, then checks the answers as `Authentication` does |
| RconServer.Server.InitRCON | vendor/github.com/galexrt/go-rcon/server.go:78-104 | needs an address and a connection; initialised iff the login succeeds; a failed login closes the connection |
| RconServer.Server.Close | vendor/github.com/galexrt/go-rcon/server.go:149-153 | closes the connection only when initialised |
| RconServer.Server.Send | vendor/github.com/galexrt/go-rcon/server.go:156-221 | uninitialised fails; otherwise sends request and mirror, then reads the answer as `Responses` does |
| RconServer.Connect | vendor/github.com/galexrt/go-rcon/server.go:45-72 | without a password returns the server; otherwise returns it iff RCON initialises |

## Left out

- Running commands (`readCommand`, `readCommandTimeout`, `Command` and its timeout in `util.go`): a command's output is a parameter (`Command`, `Reader`).
- Concurrency: the collector goroutines, the wait group and the mutexes. Collectors run one after the other in an `order` that is given.
- Floating point: `time.Duration.Seconds`, and the float values the collectors parse with `ParseFloat`. Durations are integer nanoseconds.
- Prometheus descriptors and metric construction, and the `collector/*.go` files that turn `Value`s into metrics.
- Letters, digits and case are ASCII only: the `unicode.IsLetter`/`IsDigit` of `Replace` and `strings.ToLower`/`ToUpper`. Whitespace follows `unicode.IsSpace`.
- `%q` quoting is modelled with plain double quotes, without Go's escapes.
- Command-line parsing (`flags.Parse`) is the outcome `ParseArgs`. Setting a flag from text is a `Setter` parameter: pflag's `fs.Set` (with its wrapped error) in `SetFlagsFromEnv`, the value's own `Set` in `parseFlagsAndEnvVars`.
- Exporter.ParseFlagsAndEnvVars: the environment loop runs before `flags.Parse`, so in the program no flag is marked changed while it runs and its `fn.Changed` guard never skips an entry. That the command line wins over the environment comes from the later `flags.Parse` overwriting the value, which is the outcome `ParseArgs` and is not modelled.
- `os.Environ`, `os.Getenv` and the clock are parameters.
- `getDefaultOmReportPath`'s switch on the operating system is not modelled. The default path is a constant.
- `main.go`'s `Collect` and `execute` are the same as the exporter's, without the cache. They are not modelled separately.
- The root `omreport.go`, `prometheus.go` and `storage.go`, `log.go`, and the RCON samples are not modelled.
- RCON framing in `rconsocket.go` is not modelled: a socket is the sequence of packets it will deliver.
- The RCON socket fails every write the same way, or never. A connection whose first write succeeds and second fails is not modelled.
- Request ids (`rand.Int31`) are parameters.
- `readFloat` is not modelled.
- `Connect`'s `ParseDuration` and `Fatal` on a bad timeout, and its dialer options, are not modelled.
- The `sync.Mutex` of `Server.Send` is not modelled.
- OmReport.OMReport.PsAmpsSysboardPwr: uses the corrected `PsAmpsLine`, which departs from the written guard `PsAmpsLineAsWritten` (see Findings) in two ways. It does not reproduce the panic on a blank reading. It also drops a current row whose reading is a single word, such as `PS1 Current 1;5` or `PS1 Current 1;[N/A]`, which the written code reports with that word as the value (`PsAmpsOneWordReading`). On every other line the two agree (`PsAmpsAgree`).
- Exporter.DellHWCollector.Collect: `lastCollectTime` becomes a given `finish` time. `time.Add` saturation is not modelled.

## Findings

| source | as written | input that shows it | evidently intended | confidence | as-written member | corrected member |
|---|---|---|---|---|---|---|
| pkg/omreport/omreport.go:518 | `if len(iFields) < 2 && len(vFields) < 2 { return }`: `iFields` comes from splitting a field that contains "Current", so it always has two or more parts, and the guard never fires. `vFields[0]` is then indexed even when the reading is blank. | the `omreport chassis pwrmonitoring` line `PS1 Current 1;` panics with index out of range | `||`: skip a current row whose name or reading does not split into two parts | not executed | OmReportChassis.PsAmpsLineAsWritten, OmReportChassis.PsAmpsBlankReadingPanics, OmReportChassis.PsAmpsOneWordReading | OmReportChassis.PsAmpsLine, OmReportChassis.PsAmpsAgree |
