/**
 * The value helpers that turn omreport text fields into metric values and label values:
 * whitespace cleaning, unit stripping, severity and state codes, and label-name sanitising.
 */
module OmReportUtil {
  import opened Wrappers
  import opened GoStrings

  // ---------------------------------------------------------------------------------------
  // clean

  /** `clean`: the arguments joined by spaces, with every whitespace run collapsed to one space. */
  function Clean(ss: seq<string>): (r: string)
    ensures SingleSpaced(r)
  {
    var ws := Fields(Join(ss, " "));
    JoinWordsSingleSpaced(ws);
    Join(ws, " ")
  }

  /** Cleaning keeps exactly the words of the input, in order. */
  lemma CleanWords(ss: seq<string>)
    ensures Fields(Clean(ss)) == Fields(Join(ss, " "))
  {
    FieldsOfJoin(Fields(Join(ss, " ")));
  }

  /** Cleaning an already cleaned field changes nothing. */
  lemma CleanIdempotent(ss: seq<string>)
    ensures Clean([Clean(ss)]) == Clean(ss)
  {
    CleanWords(ss);
  }

  // ---------------------------------------------------------------------------------------
  // extract

  const ExtractSuffixError := "extract: suffix not found"

  /** `extract`: the text before `suffix`, whitespace-trimmed; `("0", error)` when the suffix is missing. */
  function Extract(s: string, suffix: string): (r: (string, Option<string>))
    ensures r.1.Some? <==> !HasSuffix(s, suffix)
    ensures r.1.Some? ==> r.0 == "0" && r.1.value == ExtractSuffixError
    ensures r.1.None? ==> Trimmed(r.0)
    ensures r.1.None? ==>
      var t := s[..|s| - |suffix|];
      TrimmedAt(t, r.0, |t| - |TrimLeft(t)|)
  {
    if !HasSuffix(s, suffix) then ("0", Some(ExtractSuffixError))
    else (TrimSpace(s[..|s| - |suffix|]), None)
  }

  /** A number, one space and the unit: the number comes back. */
  lemma ExtractSpacedUnit(num: string, unit: string)
    requires IsWord(num)
    ensures Extract(num + " " + unit, unit) == (num, None)
  {
    var s := num + " " + unit;
    assert s[|s| - |unit|..] == unit;
    var t := s[..|s| - |unit|];
    assert t == num + " ";
    assert t[0] == num[0] && !IsSpace(t[0]);
    assert TrimLeft(t) == t;
    assert t[..|t| - 1] == num;
    assert !IsSpace(num[|num| - 1]);
    assert TrimRight(num) == num;
  }

  /** The power-supply fixtures: "900 W" and "750 W" give "900" and "750". */
  lemma ExtractWatts()
    ensures Extract("900 W", "W") == ("900", None)
    ensures Extract("750 W", "W") == ("750", None)
  {
    assert IsWord("900") && IsWord("750");
    ExtractSpacedUnit("900", "W");
    ExtractSpacedUnit("750", "W");
    assert "900" + " " + "W" == "900 W";
    assert "750" + " " + "W" == "750 W";
  }

  /** The voltage fixture: a reading of "Good" has no unit and is refused. */
  lemma ExtractNoUnit()
    ensures Extract("Good", "V") == ("0", Some(ExtractSuffixError))
  {
    assert !HasSuffix("Good", "V");
  }

  // ---------------------------------------------------------------------------------------
  // severity and the code tables

  /** `severity`: "Ok" is 0, "Non-Critical" is 2, any other text is 1. */
  function Severity(s: string): (r: string)
    ensures r == "0" <==> s == "Ok"
    ensures r == "2" <==> s == "Non-Critical"
    ensures r == "1" <==> s != "Ok" && s != "Non-Critical"
  {
    if s != "Ok" && s != "Non-Critical" then "1"
    else if s == "Non-Critical" then "2"
    else "0"
  }

  /** The fixtures of the severity test table. */
  lemma SeverityExamples()
    ensures Severity("Ok") == "0"
    ensures Severity("Unknown") == "1"
    ensures Severity("Non-Critical") == "2"
    ensures Severity("What if a high severity issue walks into a bar?") == "1"
  {
  }

  /** A code table lookup: the code of a listed word, "" (Go's zero string) for any other word. */
  function Lookup(table: map<string, string>, s: string): string {
    if s in table then table[s] else ""
  }

  /**
   * The reference form of a code table: the listed words in code order, so that the word at
   * position `k` has code `first + k`.
   */
  predicate NumbersWords(table: map<string, string>, words: seq<string>, first: nat) {
    table.Keys == (set w | w in words) && CodesInOrder(table, words, first)
  }

  predicate CodesInOrder(table: map<string, string>, words: seq<string>, first: nat) {
    forall k :: 0 <= k < |words| ==> words[k] in table && table[words[k]] == Itoa(first + k)
  }

  const PdiskStates: map<string, string> := map[
    "Unknown" := "0",
    "Ready" := "1",
    "Online" := "2",
    "Degraded" := "3",
    "Failed" := "4",
    "Offline" := "5",
    "Rebuilding" := "6",
    "Incompatible" := "7",
    "Removed" := "8",
    "Clear" := "9",
    "SMART Alert Detected" := "10",
    "Foreign" := "11",
    "Unsupported" := "12",
    "Replacing" := "13",
    "Non-RAID" := "14"
  ]

  const PdiskStateWords: seq<string> := [
    "Unknown", "Ready", "Online", "Degraded", "Failed", "Offline", "Rebuilding", "Incompatible",
    "Removed", "Clear", "SMART Alert Detected", "Foreign", "Unsupported", "Replacing", "Non-RAID"
  ]

  const VdiskStates: map<string, string> := map[
    "Ready" := "1",
    "Degraded" := "2",
    "Resynching" := "3",
    "Resynching Paused" := "4",
    "Regenerating" := "5",
    "Reconstructing" := "6",
    "Failed" := "7",
    "Failed Redundancy" := "8",
    "Background Initialization" := "9",
    "Formatting" := "10",
    "Initializing" := "11",
    "Degraded Redundancy" := "12"
  ]

  const VdiskStateWords: seq<string> := [
    "Ready", "Degraded", "Resynching", "Resynching Paused", "Regenerating", "Reconstructing",
    "Failed", "Failed Redundancy", "Background Initialization", "Formatting", "Initializing",
    "Degraded Redundancy"
  ]

  const ReadPolicies: map<string, string> := map[
    "Not Applicable" := "0",
    "Read Ahead" := "1",
    "No Read Ahead" := "2",
    "Read Cache Enabled" := "3",
    "Read Cache Disabled" := "4",
    "Adaptive Read Ahead" := "5"
  ]

  const ReadPolicyWords: seq<string> := [
    "Not Applicable", "Read Ahead", "No Read Ahead", "Read Cache Enabled", "Read Cache Disabled",
    "Adaptive Read Ahead"
  ]

  const WritePolicies: map<string, string> := map[
    "Not Applicable" := "0",
    "Write Ahead" := "1",
    "Force Write Back" := "2",
    "Write Back Enabled" := "3",
    "Write Through" := "4",
    "Write Cache Enabled Protected" := "5",
    "Write Cache Disabled" := "6",
    "Write Back" := "7"
  ]

  const WritePolicyWords: seq<string> := [
    "Not Applicable", "Write Ahead", "Force Write Back", "Write Back Enabled", "Write Through",
    "Write Cache Enabled Protected", "Write Cache Disabled", "Write Back"
  ]

  const CachePolicies: map<string, string> := map[
    "Not Applicable" := "0",
    "Cache I/O" := "1",
    "Direct I/O" := "2"
  ]

  const CachePolicyWords: seq<string> := ["Not Applicable", "Cache I/O", "Direct I/O"]

  /** `pdiskState`. */
  function PdiskState(s: string): (r: string)
    ensures r != "" <==> s in PdiskStateWords
  {
    PdiskStateTable();
    Lookup(PdiskStates, s)
  }

  /** `vdiskState`. */
  function VdiskState(s: string): (r: string)
    ensures r != "" <==> s in VdiskStateWords
  {
    VdiskStateTable();
    Lookup(VdiskStates, s)
  }

  /** `vdiskReadPolicy`. */
  function VdiskReadPolicy(s: string): (r: string)
    ensures r != "" <==> s in ReadPolicyWords
  {
    ReadPolicyTable();
    Lookup(ReadPolicies, s)
  }

  /** `vdiskWritePolicy`. */
  function VdiskWritePolicy(s: string): (r: string)
    ensures r != "" <==> s in WritePolicyWords
  {
    WritePolicyTable();
    Lookup(WritePolicies, s)
  }

  /** `vdiskCachePolicy`. */
  function VdiskCachePolicy(s: string): (r: string)
    ensures r != "" <==> s in CachePolicyWords
  {
    CachePolicyTable();
    Lookup(CachePolicies, s)
  }

  /** The physical disk states are "Unknown" = 0 through "Non-RAID" = 14, and nothing else. */
  lemma PdiskStateTable()
    ensures NumbersWords(PdiskStates, PdiskStateWords, 0)
  {
    PdiskStateCodes();
    assert PdiskStates.Keys == set w | w in PdiskStateWords;
  }

  lemma PdiskStateCodes()
    ensures forall k :: 0 <= k < |PdiskStateWords| ==> PdiskStateWords[k] in PdiskStates && PdiskStates[PdiskStateWords[k]] == Itoa(0 + k)
  {
  }

  /** The virtual disk states are "Ready" = 1 through "Degraded Redundancy" = 12. */
  lemma VdiskStateTable()
    ensures NumbersWords(VdiskStates, VdiskStateWords, 1)
  {
    VdiskStateCodes();
    assert VdiskStates.Keys == set w | w in VdiskStateWords;
  }

  lemma VdiskStateCodes()
    ensures forall k :: 0 <= k < |VdiskStateWords| ==> VdiskStateWords[k] in VdiskStates && VdiskStates[VdiskStateWords[k]] == Itoa(1 + k)
  {
  }

  /** The read policies are "Not Applicable" = 0 through "Adaptive Read Ahead" = 5. */
  lemma ReadPolicyTable()
    ensures NumbersWords(ReadPolicies, ReadPolicyWords, 0)
  {
    ReadPolicyCodes();
    assert ReadPolicies.Keys == set w | w in ReadPolicyWords;
  }

  lemma ReadPolicyCodes()
    ensures forall k :: 0 <= k < |ReadPolicyWords| ==> ReadPolicyWords[k] in ReadPolicies && ReadPolicies[ReadPolicyWords[k]] == Itoa(0 + k)
  {
  }

  /** The write policies are "Not Applicable" = 0 through "Write Back" = 7. */
  lemma WritePolicyTable()
    ensures NumbersWords(WritePolicies, WritePolicyWords, 0)
  {
    WritePolicyCodes();
    assert WritePolicies.Keys == set w | w in WritePolicyWords;
  }

  lemma WritePolicyCodes()
    ensures forall k :: 0 <= k < |WritePolicyWords| ==> WritePolicyWords[k] in WritePolicies && WritePolicies[WritePolicyWords[k]] == Itoa(0 + k)
  {
  }

  /** The cache policies are "Not Applicable" = 0, "Cache I/O" = 1 and "Direct I/O" = 2. */
  lemma CachePolicyTable()
    ensures NumbersWords(CachePolicies, CachePolicyWords, 0)
  {
    CachePolicyCodes();
    assert CachePolicies.Keys == set w | w in CachePolicyWords;
  }

  lemma CachePolicyCodes()
    ensures forall k :: 0 <= k < |CachePolicyWords| ==> CachePolicyWords[k] in CachePolicies && CachePolicies[CachePolicyWords[k]] == Itoa(0 + k)
  {
  }

  /** In a numbered table, the word at position `k` looks up to the decimal form of `first + k`. */
  lemma LookupNumbered(table: map<string, string>, words: seq<string>, first: nat, k: nat)
    requires NumbersWords(table, words, first) && k < |words|
    ensures Lookup(table, words[k]) == Itoa(first + k)
  {
  }

  /** `yesNoToBool`: "1" exactly for "Yes". */
  function YesNoToBool(s: string): (r: string)
    ensures r == "1" <==> s == "Yes"
    ensures r == "0" <==> s != "Yes"
  {
    if s == "Yes" then "1" else "0"
  }

  // ---------------------------------------------------------------------------------------
  // getNumberFromString

  predicate NoDigit(s: string) {
    forall i :: 0 <= i < |s| ==> !IsDigit(s[i])
  }

  /** The longest all-digit prefix of `s`. */
  function LeadingDigits(s: string): (d: string)
    ensures |d| <= |s| && d == s[..|d|] && AllDigits(d)
    ensures |d| < |s| ==> !IsDigit(s[|d|])
  {
    if s == [] || !IsDigit(s[0]) then [] else [s[0]] + LeadingDigits(s[1..])
  }

  /** The position of the first ASCII digit of `s`. */
  function FirstDigit(s: string): (r: Option<nat>)
    ensures r.None? <==> NoDigit(s)
    ensures r.Some? ==> r.value < |s| && IsDigit(s[r.value]) && NoDigit(s[..r.value])
  {
    if s == [] then None
    else if IsDigit(s[0]) then Some(0)
    else
      match FirstDigit(s[1..])
      case None => None
      case Some(k) =>
        assert s[..k + 1] == [s[0]] + s[1..][..k];
        Some(k + 1)
  }

  /** `getNumberFromString`: the first match of `[0-9]+`, or "-1" when `s` holds no digit. */
  function GetNumberFromString(s: string): (r: string)
    ensures r == "-1" <==> NoDigit(s)
    ensures r != "-1" ==> r != [] && AllDigits(r)
  {
    match FirstDigit(s)
    case None => "-1"
    case Some(i) => LeadingDigits(s[i..])
  }

  /** The number found is the leftmost maximal run of digits. */
  lemma GetNumberLeftmostRun(s: string, i: nat)
    requires i < |s| && IsDigit(s[i]) && NoDigit(s[..i])
    ensures var r := GetNumberFromString(s);
      && i + |r| <= |s| && r == s[i..i + |r|]
      && (i + |r| == |s| || !IsDigit(s[i + |r|]))
  {
    var f := FirstDigit(s);
    assert f.Some?;
    var j := f.value;
    assert j == i;
    var r := LeadingDigits(s[i..]);
    assert s[i..][..|r|] == s[i..i + |r|];
  }

  /** Text without digits, then a run of digits, then a non-digit: the run is the number. */
  lemma GetNumberOfRun(p: string, d: string, t: string)
    requires NoDigit(p) && d != [] && AllDigits(d) && (t == [] || !IsDigit(t[0]))
    ensures GetNumberFromString(p + d + t) == d
  {
    var s := p + d + t;
    var i := |p|;
    assert s[..i] == p;
    assert s[i] == d[0];
    var f := FirstDigit(s);
    assert f.Some?;
    assert f.value == i;
    assert s[i..] == d + t;
    LeadingDigitsOf(d, t);
  }

  lemma {:induction false} LeadingDigitsOf(d: string, t: string)
    requires AllDigits(d) && (t == [] || !IsDigit(t[0]))
    ensures LeadingDigits(d + t) == d
  {
    if d == [] {
      assert d + t == t;
    } else {
      assert (d + t)[1..] == d[1..] + t;
      LeadingDigitsOf(d[1..], t);
    }
  }

  /** The endurance fixture: "100%" gives "100". */
  lemma GetNumberPercent()
    ensures GetNumberFromString("100%") == "100"
  {
    GetNumberOfRun("", "100", "%");
    assert "" + "100" + "%" == "100%";
  }

  /** The RAID level fixture: "RAID-10" gives "10". */
  lemma GetNumberRaidLevel()
    ensures GetNumberFromString("RAID-10") == "10"
  {
    assert NoDigit("RAID-");
    GetNumberOfRun("RAID-", "10", "");
    assert "RAID-" + "10" + "" == "RAID-10";
  }

  // ---------------------------------------------------------------------------------------
  // Replace

  /**
   * The characters `Replace` copies: letters and digits (restricted here to ASCII) and the four
   * punctuation characters `-`, `_`, `.` and `/`.
   */
  predicate Allowed(c: char) {
    ('a' <= c <= 'z') || ('A' <= c <= 'Z') || IsDigit(c) || c == '-' || c == '_' || c == '.' || c == '/'
  }

  predicate AllAllowed(s: string) {
    forall i :: 0 <= i < |s| ==> Allowed(s[i])
  }

  predicate NoneAllowed(s: string) {
    forall i :: 0 <= i < |s| ==> !Allowed(s[i])
  }

  /**
   * What the `Replace` loop appends for the unread text `s`, given whether the last thing it
   * appended was a replacement.
   */
  function Replaced(s: string, replacement: string, replaced: bool): string {
    if s == [] then []
    else if Allowed(s[0]) then [s[0]] + Replaced(s[1..], replacement, false)
    else if !replaced then replacement + Replaced(s[1..], replacement, true)
    else Replaced(s[1..], replacement, true)
  }

  const CleanResultEmpty := "clean result is empty"

  /** `Replace`: copies allowed characters and turns each run of other characters into `replacement`. */
  method Replace(s: string, replacement: string) returns (c: string, err: Option<string>)
    ensures err.Some? <==> Replaced(s, replacement, false) == []
    ensures err.Some? ==> c == [] && err.value == CleanResultEmpty
    ensures err.None? ==> c == Replaced(s, replacement, false)
  {
    c := [];
    var replaced := false;
    var i := 0;
    while i < |s|
      invariant 0 <= i <= |s|
      invariant c + Replaced(s[i..], replacement, replaced) == Replaced(s, replacement, false)
    {
      assert s[i..][1..] == s[i + 1..];
      if Allowed(s[i]) {
        c := c + [s[i]];
        replaced := false;
      } else if !replaced {
        c := c + replacement;
        replaced := true;
      }
      i := i + 1;
    }
    assert s[i..] == [];
    if |c| == 0 {
      return [], Some(CleanResultEmpty);
    }
    err := None;
  }

  /** `replace`: `Replace` with "_", its error dropped (the result is then ""). */
  function ReplaceName(name: string): (r: string)
    ensures AllAllowed(r)
    ensures r == [] <==> name == []
  {
    ReplacedAllowed(name, "_", false);
    ReplacedEmpty(name, "_", false);
    Replaced(name, "_", false)
  }

  /** With allowed replacement text, the result holds only allowed characters. */
  lemma {:induction false} ReplacedAllowed(s: string, replacement: string, replaced: bool)
    requires AllAllowed(replacement)
    ensures AllAllowed(Replaced(s, replacement, replaced))
    decreases |s|
  {
    if s != [] {
      ReplacedAllowed(s[1..], replacement, true);
      ReplacedAllowed(s[1..], replacement, false);
    }
  }

  /** With a non-empty replacement, the result is empty only for an empty input (when nothing was replaced yet). */
  lemma {:induction false} ReplacedEmpty(s: string, replacement: string, replaced: bool)
    requires replacement != []
    ensures !replaced ==> (Replaced(s, replacement, replaced) == [] <==> s == [])
    ensures Replaced(s, replacement, replaced) == [] ==> NoneAllowed(s)
    decreases |s|
  {
    if s != [] {
      ReplacedEmpty(s[1..], replacement, true);
      ReplacedEmpty(s[1..], replacement, false);
    }
  }

  /** An all-allowed string is copied unchanged. */
  lemma {:induction false} ReplacedAllAllowed(s: string, replacement: string, replaced: bool)
    requires AllAllowed(s)
    ensures s != [] ==> Replaced(s, replacement, replaced) == s
    decreases |s|
  {
    if s != [] {
      if |s| > 1 {
        ReplacedAllAllowed(s[1..], replacement, false);
      }
      assert [s[0]] + s[1..] == s;
    }
  }

  /** A run of allowed characters is copied, and resets the replaced state. */
  lemma {:induction false} AllowedRun(a: string, t: string, replacement: string, replaced: bool)
    requires a != [] && AllAllowed(a)
    ensures Replaced(a + t, replacement, replaced) == a + Replaced(t, replacement, false)
    decreases |a|
  {
    assert (a + t)[1..] == a[1..] + t;
    if |a| > 1 {
      AllowedRun(a[1..], t, replacement, false);
    } else {
      assert a[1..] + t == t;
    }
  }

  /** A maximal run of other characters becomes one replacement (none if one was just written). */
  lemma {:induction false} DisallowedRun(d: string, t: string, replacement: string, replaced: bool)
    requires d != [] && NoneAllowed(d)
    ensures Replaced(d + t, replacement, replaced)
         == (if replaced then [] else replacement) + Replaced(t, replacement, true)
    decreases |d|
  {
    assert (d + t)[1..] == d[1..] + t;
    if |d| > 1 {
      DisallowedRun(d[1..], t, replacement, true);
    } else {
      assert d[1..] + t == t;
    }
  }

  /** After a replacement, text that starts with an allowed character is read as if fresh. */
  lemma ReplacedStateForgotten(t: string, replacement: string)
    requires t == [] || Allowed(t[0])
    ensures Replaced(t, replacement, true) == Replaced(t, replacement, false)
  {
  }

  /** An input with no allowed character collapses to one replacement. */
  lemma ReplacedNoneAllowed(s: string, replacement: string)
    requires s != [] && NoneAllowed(s)
    ensures Replaced(s, replacement, false) == replacement
  {
    DisallowedRun(s, [], replacement, false);
    assert s + [] == s;
  }

  /** The first character of a join is the first character of its first part. */
  lemma JoinHead(ws: seq<string>, sep: string)
    requires |ws| >= 1 && ws[0] != []
    ensures Join(ws, sep) != [] && Join(ws, sep)[0] == ws[0][0]
  {
  }

  /**
   * Words of allowed characters, separated by runs of other characters: each separator becomes
   * one replacement.
   */
  lemma {:induction false} ReplacedWords(ws: seq<string>, sep: string, replacement: string)
    requires |ws| >= 1 && forall w :: w in ws ==> w != [] && AllAllowed(w)
    requires sep != [] && NoneAllowed(sep)
    ensures Replaced(Join(ws, sep), replacement, false) == Join(ws, replacement)
  {
    var w := ws[0];
    assert w in ws;
    if |ws| == 1 {
      ReplacedAllAllowed(w, replacement, false);
    } else {
      var rest := ws[1..];
      assert forall v :: v in rest ==> v in ws;
      assert rest[0] in ws;
      var tail := Join(rest, sep);
      assert Join(ws, sep) == w + (sep + tail);
      AllowedRun(w, sep + tail, replacement, false);
      DisallowedRun(sep, tail, replacement, false);
      JoinHead(rest, sep);
      ReplacedStateForgotten(tail, replacement);
      ReplacedWords(rest, sep, replacement);
    }
  }

  /** Three words joined: each separator between two neighbours. */
  lemma JoinThree(a: string, b: string, c: string, sep: string)
    ensures Join([a, b, c], sep) == a + sep + b + sep + c
  {
    assert [a, b, c][1..] == [b, c] && [b, c][1..] == [c];
    assert Join([b, c], sep) == b + sep + c;
    assert Join([a, b, c], sep) == a + sep + (b + sep + c);
  }

  /** Four words joined: each separator between two neighbours. */
  lemma JoinFour(a: string, b: string, c: string, d: string, sep: string)
    ensures Join([a, b, c, d], sep) == a + sep + b + sep + c + sep + d
  {
    var ws := [a, b, c, d];
    assert ws[1..] == [b, c, d] && ws[1..][1..] == [c, d] && ws[1..][1..][1..] == [d];
    assert Join([c, d], sep) == c + sep + d;
    assert Join([b, c, d], sep) == b + sep + (c + sep + d);
    assert Join(ws, sep) == a + sep + (b + sep + (c + sep + d));
  }

  /** The words of the voltage probe fixture, joined by a space and by an underscore. */
  lemma ReplaceNameWords()
    ensures Join(["System", "Board", "3.3V", "PG"], " ") == "System Board 3.3V PG"
    ensures Join(["System", "Board", "3.3V", "PG"], "_") == "System_Board_3.3V_PG"
  {
    JoinFour("System", "Board", "3.3V", "PG", " ");
    JoinFour("System", "Board", "3.3V", "PG", "_");
  }

  /** The voltage probe fixture: spaces between words become single underscores. */
  lemma ReplaceNameExample()
    ensures ReplaceName("System Board 3.3V PG") == "System_Board_3.3V_PG"
  {
    var ws := ["System", "Board", "3.3V", "PG"];
    assert forall w :: w in ws ==> w != [] && AllAllowed(w);
    assert NoneAllowed(" ");
    ReplacedWords(ws, " ", "_");
    ReplaceNameWords();
  }
}
