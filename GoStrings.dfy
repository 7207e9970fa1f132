/**
 * The parts of Go's `strings`, `unicode` and `strconv` packages that the exporter relies on,
 * over strings modelled as sequences of Unicode scalar values.
 */
module GoStrings {
  import opened Wrappers

  /** `unicode.IsSpace`: the Latin-1 spaces and the Unicode White_Space code points. */
  predicate IsSpace(c: char) {
    var n := c as int;
    n == 0x20 || 0x09 <= n <= 0x0D || n == 0x85 || n == 0xA0 || n == 0x1680
    || 0x2000 <= n <= 0x200A || n == 0x2028 || n == 0x2029 || n == 0x202F
    || n == 0x205F || n == 0x3000
  }

  predicate NoSpace(w: string) {
    forall i :: 0 <= i < |w| ==> !IsSpace(w[i])
  }

  /** A non-empty run of non-whitespace characters, as `strings.Fields` returns them. */
  predicate IsWord(w: string) {
    w != [] && NoSpace(w)
  }

  /** The longest prefix of `s` that holds no whitespace. */
  function Word(s: string): (w: string)
    ensures |w| <= |s| && w == s[..|w|] && NoSpace(w)
    ensures |w| < |s| ==> IsSpace(s[|w|])
    ensures s != [] && !IsSpace(s[0]) ==> w != []
  {
    if s == [] || IsSpace(s[0]) then [] else [s[0]] + Word(s[1..])
  }

  /** `strings.Fields`: the maximal runs of non-whitespace characters, in order. */
  function Fields(s: string): (ws: seq<string>)
    ensures forall w :: w in ws ==> IsWord(w)
    decreases |s|
  {
    if s == [] then []
    else if IsSpace(s[0]) then Fields(s[1..])
    else
      var w := Word(s);
      [w] + Fields(s[|w|..])
  }

  /** `strings.Join`. */
  function Join(parts: seq<string>, sep: string): string {
    if |parts| == 0 then ""
    else if |parts| == 1 then parts[0]
    else parts[0] + sep + Join(parts[1..], sep)
  }

  predicate OccursAt(s: string, sep: string, i: int) {
    0 <= i && i + |sep| <= |s| && s[i..i + |sep|] == sep
  }

  /** `strings.Index`: the first position of `sep` in `s`. */
  function Find(s: string, sep: string): (r: Option<nat>)
    ensures r.Some? ==> OccursAt(s, sep, r.value)
    ensures r.Some? ==> forall j :: 0 <= j < r.value ==> !OccursAt(s, sep, j)
    ensures r.None? ==> forall j :: 0 <= j <= |s| ==> !OccursAt(s, sep, j)
    decreases |s|
  {
    if |s| < |sep| then None
    else if s[..|sep|] == sep then Some(0)
    else
      match Find(s[1..], sep)
      case None =>
        assert forall j :: 1 <= j <= |s| ==> (OccursAt(s, sep, j) <==> OccursAt(s[1..], sep, j - 1));
        None
      case Some(k) =>
        assert forall j :: 1 <= j <= |s| ==> (OccursAt(s, sep, j) <==> OccursAt(s[1..], sep, j - 1));
        Some(k + 1)
  }

  /** `strings.Contains`. */
  predicate Contains(s: string, sep: string) {
    Find(s, sep).Some?
  }

  /** `strings.Split` for a non-empty separator. */
  function Split(s: string, sep: string): (parts: seq<string>)
    requires |sep| > 0
    ensures |parts| >= 1
    decreases |s|
  {
    match Find(s, sep)
    case None => [s]
    case Some(i) => [s[..i]] + Split(s[i + |sep|..], sep)
  }

  /** `strings.SplitN(s, sep, 2)`: the text before the first `sep` and the rest, or `[s]`. */
  function SplitTwo(s: string, sep: string): (parts: seq<string>)
    requires |sep| > 0
    ensures 1 <= |parts| <= 2
  {
    match Find(s, sep)
    case None => [s]
    case Some(i) => [s[..i], s[i + |sep|..]]
  }

  /** `strings.ReplaceAll` (and `strings.Replace` with n = -1) for a non-empty pattern. */
  function ReplaceAll(s: string, pattern: string, replacement: string): string
    requires |pattern| > 0
  {
    Join(Split(s, pattern), replacement)
  }

  predicate HasPrefix(s: string, prefix: string) {
    |prefix| <= |s| && s[..|prefix|] == prefix
  }

  predicate HasSuffix(s: string, suffix: string) {
    |suffix| <= |s| && s[|s| - |suffix|..] == suffix
  }

  function TrimPrefix(s: string, prefix: string): string {
    if HasPrefix(s, prefix) then s[|prefix|..] else s
  }

  predicate AllSpace(s: string) {
    forall i :: 0 <= i < |s| ==> IsSpace(s[i])
  }

  function TrimLeft(s: string): (r: string)
    ensures r == [] || !IsSpace(r[0])
    ensures |r| <= |s| && r == s[|s| - |r|..]
    ensures AllSpace(s[..|s| - |r|])
  {
    if s != [] && IsSpace(s[0]) then
      var r := TrimLeft(s[1..]);
      assert s[..|s| - |r|] == [s[0]] + s[1..][..|s| - 1 - |r|];
      r
    else s
  }

  function TrimRight(s: string): (r: string)
    ensures r == [] || !IsSpace(r[|r| - 1])
    ensures |r| <= |s| && r == s[..|r|]
    ensures AllSpace(s[|r|..])
    ensures s != [] && !IsSpace(s[0]) ==> r != [] && r[0] == s[0]
  {
    if s != [] && IsSpace(s[|s| - 1]) then
      var r := TrimRight(s[..|s| - 1]);
      assert s[|r|..] == s[..|s| - 1][|r|..] + [s[|s| - 1]];
      r
    else s
  }

  /** `r` has no whitespace at either end. */
  predicate Trimmed(r: string) {
    r == [] || (!IsSpace(r[0]) && !IsSpace(r[|r| - 1]))
  }

  /** `r` is `s` with a whitespace prefix of length `i` and a whitespace suffix removed. */
  predicate TrimmedAt(s: string, r: string, i: int) {
    0 <= i <= |s| - |r| && s[i..i + |r|] == r && AllSpace(s[..i]) && AllSpace(s[i + |r|..])
  }

  /** `strings.TrimSpace`: an untrimmed core of `s` surrounded by whitespace. */
  function TrimSpace(s: string): (r: string)
    ensures Trimmed(r)
    ensures TrimmedAt(s, r, |s| - |TrimLeft(s)|)
  {
    var l := TrimLeft(s);
    var r := TrimRight(l);
    TrimSpaceAt(s, l, r);
    r
  }

  lemma TrimSpaceAt(s: string, l: string, r: string)
    requires |l| <= |s| && l == s[|s| - |l|..] && AllSpace(s[..|s| - |l|])
    requires |r| <= |l| && r == l[..|r|] && AllSpace(l[|r|..])
    ensures TrimmedAt(s, r, |s| - |l|)
  {
    var i := |s| - |l|;
    assert s[i..i + |r|] == l[..|r|];
    assert s[i + |r|..] == l[|r|..];
  }

  /** Case mapping, restricted to ASCII letters. */
  function LowerChar(c: char): char {
    if 'A' <= c <= 'Z' then (c as int + 32) as char else c
  }

  function UpperChar(c: char): char {
    if 'a' <= c <= 'z' then (c as int - 32) as char else c
  }

  function ToLower(s: string): (r: string)
    ensures |r| == |s| && forall i :: 0 <= i < |s| ==> r[i] == LowerChar(s[i])
  {
    seq(|s|, i requires 0 <= i < |s| => LowerChar(s[i]))
  }

  function ToUpper(s: string): (r: string)
    ensures |r| == |s| && forall i :: 0 <= i < |s| ==> r[i] == UpperChar(s[i])
  {
    seq(|s|, i requires 0 <= i < |s| => UpperChar(s[i]))
  }

  predicate IsDigit(c: char) {
    '0' <= c <= '9'
  }

  predicate AllDigits(s: string) {
    forall i :: 0 <= i < |s| ==> IsDigit(s[i])
  }

  /** The decimal value of a digit string. */
  function DigitsValue(s: string): nat
    requires AllDigits(s)
  {
    if s == [] then 0 else DigitsValue(s[..|s| - 1]) * 10 + (s[|s| - 1] as int - '0' as int)
  }

  const MinInt64: int := -0x8000_0000_0000_0000
  const MaxInt64: int := 0x7FFF_FFFF_FFFF_FFFF

  /** `strconv.Atoi` on a 64-bit platform: an optional sign, one or more decimal digits, in range. */
  function Atoi(s: string): (r: Option<int>)
    ensures r.Some? ==> MinInt64 <= r.value <= MaxInt64
    ensures r.Some? ==> s != [] && (IsDigit(s[0]) || s[0] == '+' || s[0] == '-')
    ensures r.Some? ==> IsDigit(s[|s| - 1])
  {
    var signed := |s| > 0 && (s[0] == '+' || s[0] == '-');
    var digits := if signed then s[1..] else s;
    if digits == [] || !AllDigits(digits) then None
    else
      var magnitude: int := DigitsValue(digits);
      var v: int := if signed && s[0] == '-' then -magnitude else magnitude;
      if MinInt64 <= v <= MaxInt64 then Some(v) else None
  }

  /**
   * An optional sign and one or more decimal digits, read at any size: `None` exactly where the
   * text is not a signed decimal number.
   */
  function Decimal(s: string): (r: Option<int>)
    ensures r.Some? <==> var digits := if |s| > 0 && (s[0] == '+' || s[0] == '-') then s[1..] else s;
                         digits != [] && AllDigits(digits)
  {
    var signed := |s| > 0 && (s[0] == '+' || s[0] == '-');
    var digits := if signed then s[1..] else s;
    if digits == [] || !AllDigits(digits) then None
    else
      var magnitude: int := DigitsValue(digits);
      Some(if signed && s[0] == '-' then -magnitude else magnitude)
  }

  /** `strconv.Atoi` succeeds exactly on well-formed numbers within `int64`, and then gives their value. */
  lemma AtoiDecimal(s: string)
    ensures Atoi(s).Some? <==> Decimal(s).Some? && MinInt64 <= Decimal(s).value <= MaxInt64
    ensures Atoi(s).Some? ==> Atoi(s) == Decimal(s)
  {
  }

  /** The decimal digits of a natural number read back as that number. */
  lemma DecimalItoa(n: nat)
    ensures Decimal(Itoa(n)) == Some(n)
  {
    var s := Itoa(n);
    assert !(s[0] == '+' || s[0] == '-');
  }

  // ---------------------------------------------------------------------------------------
  // strconv.Atoi as Go writes it, errors included

  const MaxUint64: int := 0xFFFF_FFFF_FFFF_FFFF

  /** The outcome of a `strconv` parse: a value, or its `ErrSyntax` or `ErrRange` error. */
  datatype NumResult = Num(value: int) | SyntaxError | RangeError

  /** The text after one optional sign. */
  function Unsigned(s: string): (t: string)
    ensures t == s || (s != [] && (s[0] == '+' || s[0] == '-') && t == s[1..])
  {
    if |s| > 0 && (s[0] == '+' || s[0] == '-') then s[1..] else s
  }

  /** The longest prefix of `t` made of decimal digits. */
  function DigitRun(t: string): (r: string)
    ensures |r| <= |t| && r == t[..|r|] && AllDigits(r)
    ensures |r| == |t| || !IsDigit(t[|r|])
  {
    if t == [] || !IsDigit(t[0]) then [] else [t[0]] + DigitRun(t[1..])
  }

  /** The leading digits of `s`, after its sign, stand for a value beyond `uint64`. */
  predicate RunOverflows(s: string) {
    DigitsValue(DigitRun(Unsigned(s))) > MaxUint64
  }

  /**
   * The digit loop of `strconv.ParseUint(t, 10, 64)` from position `i` with `n` read so far: a
   * non-digit is a syntax error, and a value that passes `MaxUint64` (`n >= cutoff` before the
   * multiplication, `n1 > maxVal` after the addition) is a range error on the spot.
   */
  function ScanDigits(t: string, i: nat, n: nat): NumResult
    requires i <= |t|
    decreases |t| - i
  {
    if i == |t| then Num(n)
    else if !IsDigit(t[i]) then SyntaxError
    else if n >= MaxUint64 / 10 + 1 then RangeError
    else
      var n1 := n * 10 + (t[i] as int - '0' as int);
      if n1 > MaxUint64 then RangeError else ScanDigits(t, i + 1, n1)
  }

  /** `strconv.ParseUint(t, 10, 64)`: the empty text is a syntax error, otherwise the digit loop. */
  function ParseUint(t: string): NumResult {
    if t == [] then SyntaxError else ScanDigits(t, 0, 0)
  }

  /**
   * `strconv.ParseInt(s, 10, 64)`: one optional sign, then `ParseUint`; a range error there
   * stays one, and a magnitude beyond the signed bounds becomes one.
   */
  function ParseInt(s: string): NumResult {
    if s == [] then SyntaxError
    else
      var neg := s[0] == '-';
      match ParseUint(Unsigned(s))
      case SyntaxError => SyntaxError
      case RangeError => RangeError
      case Num(un) =>
        if !neg && un >= 0x8000_0000_0000_0000 then RangeError
        else if neg && un > 0x8000_0000_0000_0000 then RangeError
        else Num(if neg then -un else un)
  }

  /**
   * `strconv.Atoi` on a 64-bit platform: texts of 1 to 18 bytes take the fast path (one optional
   * sign, then digits only, which cannot overflow); every other text goes through `ParseInt`.
   */
  function AtoiResult(s: string): NumResult {
    if 0 < |s| < 19 then
      var t := Unsigned(s);
      if t == [] || !AllDigits(t) then SyntaxError
      else
        var magnitude: int := DigitsValue(t);
        Num(if s[0] == '-' then -magnitude else magnitude)
    else ParseInt(s)
  }

  /**
   * What `strconv.Atoi` reports: the value exactly where `Atoi` has one; `ErrRange` for a
   * well-formed number outside `int64` and for any text whose leading digits pass `uint64`,
   * whatever follows them; `ErrSyntax` for everything else.
   */
  lemma AtoiOutcome(s: string)
    ensures AtoiResult(s).Num? <==> Atoi(s).Some?
    ensures Atoi(s).Some? ==> AtoiResult(s) == Num(Atoi(s).value)
    ensures AtoiResult(s) == RangeError <==> (Decimal(s).Some? && Atoi(s).None?) || RunOverflows(s)
  {
    var t := Unsigned(s);
    if 0 < |s| < 19 {
      DigitsBelow(DigitRun(t));
      if t != [] && AllDigits(t) {
        DigitsBelow(t);
      }
    } else if s != [] && t != [] {
      assert t[..0] == [];
      ScanOutcome(t, 0, 0);
      if AllDigits(t) {
        assert DigitRun(t) == t;
      }
    }
  }

  /** Ten to the `k`. */
  function Pow10(k: nat): (p: nat)
    ensures p > 0
  {
    if k == 0 then 1 else 10 * Pow10(k - 1)
  }

  /** A digit string of length `k` stands for less than ten to the `k`; eighteen digits fit `int64`. */
  lemma {:induction false} DigitsBelow(s: string)
    requires AllDigits(s)
    ensures DigitsValue(s) < Pow10(|s|)
    ensures |s| <= 18 ==> DigitsValue(s) <= MaxInt64
  {
    if s != [] {
      DigitsBelow(s[..|s| - 1]);
    }
    if |s| <= 18 {
      Pow10Monotone(|s|, 18);
      Pow10Eighteen();
    }
  }

  /** A digit string of length `k` without a leading zero stands for at least ten to the `k - 1`. */
  lemma {:induction false} DigitsAbove(s: string)
    requires AllDigits(s) && s != [] && s[0] != '0'
    ensures DigitsValue(s) >= Pow10(|s| - 1)
  {
    if |s| > 1 {
      DigitsAbove(s[..|s| - 1]);
    }
  }

  /** Twenty-one digits without a leading zero pass `uint64`. */
  lemma TwentyOneDigitsOverflow(s: string)
    requires AllDigits(s) && |s| == 21 && s[0] != '0'
    ensures DigitsValue(s) > MaxUint64
  {
    DigitsAbove(s);
    Pow10Eighteen();
    assert Pow10(20) == 100 * Pow10(18);
  }

  lemma Pow10Eighteen()
    ensures Pow10(18) == 1_000_000_000_000_000_000
  {
    assert Pow10(9) == 1_000_000_000;
  }

  lemma {:induction false} Pow10Monotone(j: nat, k: nat)
    requires j <= k
    ensures Pow10(j) <= Pow10(k)
    decreases k
  {
    if j < k {
      Pow10Monotone(j, k - 1);
    }
  }

  /** A prefix of a digit string never stands for more than the whole. */
  lemma {:induction false} DigitsPrefix(s: string, k: nat)
    requires AllDigits(s) && k <= |s|
    ensures DigitsValue(s[..k]) <= DigitsValue(s)
    decreases |s|
  {
    if k < |s| {
      var h := s[..|s| - 1];
      assert h[..k] == s[..k];
      DigitsPrefix(h, k);
    } else {
      assert s[..k] == s;
    }
  }

  /**
   * The digit loop from a digit prefix of `t`: a range error iff the leading digit run passes
   * `MaxUint64`; otherwise a syntax error iff a non-digit follows the run, else the whole value.
   */
  lemma {:induction false} ScanOutcome(t: string, i: nat, n: nat)
    requires i <= |t| && AllDigits(t[..i]) && n == DigitsValue(t[..i]) && n <= MaxUint64
    ensures var r := DigitRun(t);
      && |r| >= i
      && (ScanDigits(t, i, n) == RangeError <==> DigitsValue(r) > MaxUint64)
      && (ScanDigits(t, i, n) == SyntaxError <==> DigitsValue(r) <= MaxUint64 && |r| < |t|)
      && (ScanDigits(t, i, n).Num? ==> AllDigits(t) && ScanDigits(t, i, n) == Num(DigitsValue(t)))
    decreases |t| - i
  {
    var r := DigitRun(t);
    RunCovers(t, i);
    if i == |t| {
      assert t[..i] == t;
    } else if !IsDigit(t[i]) {
      assert |r| == i;
    } else {
      var n1 := n * 10 + (t[i] as int - '0' as int);
      assert t[..i + 1][..i] == t[..i];
      assert DigitsValue(t[..i + 1]) == n1;
      RunCovers(t, i + 1);
      assert r[..i + 1] == t[..i + 1];
      DigitsPrefix(r, i + 1);
      if n1 <= MaxUint64 {
        ScanOutcome(t, i + 1, n1);
      }
    }
  }

  /** Digits followed by a non-digit, or by nothing, are the leading digit run. */
  lemma {:induction false} DigitRunOf(d: string, rest: string)
    requires AllDigits(d) && (rest == [] || !IsDigit(rest[0]))
    ensures DigitRun(d + rest) == d
  {
    if d != [] {
      assert (d + rest)[1..] == d[1..] + rest;
      DigitRunOf(d[1..], rest);
    }
  }

  /** A digit prefix of `t` lies inside its leading digit run. */
  lemma {:induction false} RunCovers(t: string, i: nat)
    requires i <= |t| && AllDigits(t[..i])
    ensures i <= |DigitRun(t)|
  {
    assert forall k :: 0 <= k < i ==> t[k] == t[..i][k];
  }

  /** The string with every `a` replaced by `b`, character by character. */
  function MapChar(s: string, a: char, b: char): (r: string)
    ensures |r| == |s| && forall i :: 0 <= i < |s| ==> r[i] == if s[i] == a then b else s[i]
  {
    seq(|s|, i requires 0 <= i < |s| => if s[i] == a then b else s[i])
  }

  /** `strconv.Itoa` on natural numbers: the decimal digits, without leading zeros. */
  function Itoa(n: nat): (r: string)
    ensures r != [] && AllDigits(r) && DigitsValue(r) == n
    ensures r[0] == '0' ==> n == 0
  {
    var d := [('0' as int + n % 10) as char];
    if n < 10 then
      assert DigitsValue(d) == DigitsValue(d[..0]) * 10 + n;
      d
    else
      var h := Itoa(n / 10);
      var r := h + d;
      assert r[..|r| - 1] == h;
      r
  }

  function Count(s: string, c: char): nat {
    if s == [] then 0 else (if s[0] == c then 1 else 0) + Count(s[1..], c)
  }

  // ---------------------------------------------------------------------------------------
  // Facts about the helpers above.

  /** One step of `Split`: the text before the first separator, then the split of the rest. */
  lemma SplitStep(s: string, sep: string, i: nat)
    requires |sep| > 0 && Find(s, sep) == Some(i)
    ensures i + |sep| <= |s|
    ensures Split(s, sep) == [s[..i]] + Split(s[i + |sep|..], sep)
    ensures s == s[..i] + sep + s[i + |sep|..]
  {
    assert OccursAt(s, sep, i);
    assert s[i..i + |sep|] == sep;
    assert s == s[..i] + s[i..i + |sep|] + s[i + |sep|..];
  }

  lemma {:induction false} SplitJoin(s: string, sep: string)
    requires |sep| > 0
    ensures Join(Split(s, sep), sep) == s
    decreases |s|
  {
    var f := Find(s, sep);
    if f.Some? {
      var i := f.value;
      SplitStep(s, sep, i);
      var rest := s[i + |sep|..];
      var tl := Split(rest, sep);
      SplitJoin(rest, sep);
      var parts := [s[..i]] + tl;
      assert parts[1..] == tl;
      assert Join(parts, sep) == s[..i] + sep + Join(tl, sep);
    }
  }

  /** Splitting on one character: the parts hold no separator and there is one more part than separators. */
  lemma {:induction false} SplitCharParts(s: string, c: char)
    ensures forall p :: p in Split(s, [c]) ==> c !in p
    ensures |Split(s, [c])| == Count(s, c) + 1
    decreases |s|
  {
    var f := Find(s, [c]);
    if f.None? {
      NoOccurrenceNoChar(s, c);
      CountAbsent(s, c);
    } else {
      var i := f.value;
      SplitStep(s, [c], i);
      var rest := s[i + 1..];
      SplitCharParts(rest, c);
      assert forall j :: 0 <= j < i ==> s[j] != c by {
        forall j | 0 <= j < i ensures s[j] != c {
          assert !OccursAt(s, [c], j);
          assert s[j..j + 1] == [s[j]];
        }
      }
      assert c !in s[..i];
      CountAbsent(s[..i], c);
      assert s == s[..i] + ([c] + rest);
      CountConcat(s[..i], [c] + rest, c);
      CountConcat([c], rest, c);
      assert [c][1..] == [];
      assert Count([c], c) == 1;
    }
  }

  lemma NoOccurrenceNoChar(s: string, c: char)
    requires Find(s, [c]).None?
    ensures c !in s
  {
    forall j | 0 <= j < |s| ensures s[j] != c {
      assert !OccursAt(s, [c], j);
      assert s[j..j + 1] == [s[j]];
    }
  }

  lemma {:induction false} CountAbsent(s: string, c: char)
    requires c !in s
    ensures Count(s, c) == 0
  {
    if s != [] {
      assert s[1..] == s[1..];
      CountAbsent(s[1..], c);
    }
  }

  lemma {:induction false} CountConcat(a: string, b: string, c: char)
    ensures Count(a + b, c) == Count(a, c) + Count(b, c)
  {
    if a != [] {
      assert (a + b)[1..] == a[1..] + b;
      CountConcat(a[1..], b, c);
    } else {
      assert a + b == b;
    }
  }

  /** Joining parts that hold no separator and splitting again gives the parts back. */
  lemma {:induction false} JoinSplitChar(parts: seq<string>, c: char)
    requires |parts| >= 1
    requires forall p :: p in parts ==> c !in p
    ensures Split(Join(parts, [c]), [c]) == parts
  {
    if |parts| == 1 {
      NoCharNoOccurrence(parts[0], c);
    } else {
      var rest := parts[1..];
      var s := Join(parts, [c]);
      assert s == parts[0] + [c] + Join(rest, [c]);
      assert OccursAt(s, [c], |parts[0]|) by {
        assert s[|parts[0]|..|parts[0]| + 1] == [c];
      }
      assert parts[0] in parts;
      assert forall j :: 0 <= j < |parts[0]| ==> !OccursAt(s, [c], j) by {
        forall j | 0 <= j < |parts[0]| ensures !OccursAt(s, [c], j) {
          assert s[j] == parts[0][j];
          assert parts[0][j] in parts[0];
          assert s[j..j + 1] == [s[j]];
        }
      }
      FindFirst(s, [c], |parts[0]|);
      assert s[..|parts[0]|] == parts[0];
      assert s[|parts[0]| + 1..] == Join(rest, [c]);
      assert forall p :: p in rest ==> p in parts;
      JoinSplitChar(rest, c);
    }
  }

  lemma NoCharNoOccurrence(s: string, c: char)
    requires c !in s
    ensures Find(s, [c]).None?
  {
    forall j | 0 <= j <= |s| ensures !OccursAt(s, [c], j) {
      if j + 1 <= |s| {
        assert s[j..j + 1] == [s[j]];
      }
    }
  }

  /** `Find` returns the first occurrence. */
  lemma FindFirst(s: string, sep: string, i: nat)
    requires OccursAt(s, sep, i)
    requires forall j :: 0 <= j < i ==> !OccursAt(s, sep, j)
    ensures Find(s, sep) == Some(i)
  {
  }

  /** The first occurrence of a one-character separator is that character, with none before it. */
  lemma FindChar(s: string, a: char, i: nat)
    requires Find(s, [a]) == Some(i)
    ensures i < |s| && s[i] == a
    ensures forall j :: 0 <= j < i ==> s[j] != a
  {
    var f := Find(s, [a]);
    assert OccursAt(s, [a], i);
    assert s[i] == s[i..i + 1][0];
    assert forall j :: 0 <= j < i ==> !OccursAt(s, [a], j);
    NoCharBefore(s, a, i);
  }

  /** No one-character occurrence before `i` means no such character before `i`. */
  lemma NoCharBefore(s: string, a: char, i: nat)
    requires i <= |s|
    requires forall j :: 0 <= j < i ==> !OccursAt(s, [a], j)
    ensures forall j :: 0 <= j < i ==> s[j] != a
  {
    forall j | 0 <= j < i ensures s[j] != a {
      assert !OccursAt(s, [a], j);
      assert s[j..j + 1] == [s[j]];
    }
  }

  /** Mapping around the first `a`: the text before it is kept and the `a` itself becomes `b`. */
  lemma MapCharAt(s: string, a: char, b: char, i: nat)
    requires i < |s| && s[i] == a
    requires forall j :: 0 <= j < i ==> s[j] != a
    ensures MapChar(s, a, b) == s[..i] + [b] + MapChar(s[i + 1..], a, b)
  {
    var m := s[..i] + [b] + MapChar(s[i + 1..], a, b);
    forall k | 0 <= k < |s| ensures MapChar(s, a, b)[k] == m[k] {
      if k < i {
        assert s[k] == s[..i][k];
      } else if k > i {
        assert s[k] == s[i + 1..][k - i - 1];
      }
    }
  }

  /** Replacing one character by another character is a character-wise map. */
  lemma {:induction false} ReplaceAllChar(s: string, a: char, b: char)
    ensures ReplaceAll(s, [a], [b]) == MapChar(s, a, b)
    decreases |s|
  {
    match Find(s, [a])
    case None =>
      NoOccurrenceNoChar(s, a);
      assert MapChar(s, a, b) == s;
    case Some(i) =>
      var rest := s[i + 1..];
      ReplaceAllChar(rest, a, b);
      FindChar(s, a, i);
      MapCharAt(s, a, b, i);
      var parts := Split(s, [a]);
      assert parts == [s[..i]] + Split(rest, [a]);
      assert parts[1..] == Split(rest, [a]);
  }

  /** `Split` on a separator that occurs yields at least two parts, and only then. */
  lemma SplitContains(s: string, sep: string)
    requires |sep| > 0
    ensures |Split(s, sep)| >= 2 <==> Contains(s, sep)
  {
  }

  lemma {:induction false} WordOfConcat(w: string, t: string)
    requires NoSpace(w)
    requires t == [] || IsSpace(t[0])
    ensures Word(w + t) == w
  {
    if w == [] {
      assert w + t == t;
    } else {
      assert (w + t)[1..] == w[1..] + t;
      WordOfConcat(w[1..], t);
    }
  }

  /** A single word is its own only field. */
  lemma FieldsOfWord(w: string)
    requires IsWord(w)
    ensures Fields(w) == [w]
  {
    WordOfConcat(w, []);
    assert w + [] == w;
    assert w[|w|..] == [];
  }

  /** A word followed by a space: the word is the first field, and the fields of the rest follow. */
  lemma FieldsOfWordSpace(w: string, tail: string)
    requires IsWord(w)
    ensures Fields(w + (" " + tail)) == [w] + Fields(tail)
  {
    var s := w + (" " + tail);
    WordOfConcat(w, " " + tail);
    assert s[|w|..] == " " + tail;
    assert (" " + tail)[1..] == tail;
    assert Fields(" " + tail) == Fields(tail);
  }

  /** `strings.Fields` recovers the words that `strings.Join(_, " ")` put together. */
  lemma {:induction false} FieldsOfJoin(ws: seq<string>)
    requires forall w :: w in ws ==> IsWord(w)
    ensures Fields(Join(ws, " ")) == ws
  {
    if |ws| == 1 {
      assert ws[0] in ws;
      FieldsOfWord(ws[0]);
    } else if |ws| > 1 {
      assert ws[0] in ws;
      assert forall v :: v in ws[1..] ==> v in ws;
      assert Join(ws, " ") == ws[0] + (" " + Join(ws[1..], " "));
      FieldsOfWordSpace(ws[0], Join(ws[1..], " "));
      FieldsOfJoin(ws[1..]);
      assert ws == [ws[0]] + ws[1..];
    }
  }

  /**
   * The text `strings.Join(ws, " ")` builds from words: it is empty or starts and ends with a
   * non-space character, and every whitespace character in it is a single ' ' between two
   * non-space characters.
   */
  predicate SingleSpaced(r: string) {
    && (r == [] || (!IsSpace(r[0]) && !IsSpace(r[|r| - 1])))
    && forall i :: 0 <= i < |r| && IsSpace(r[i]) ==>
        r[i] == ' ' && 0 < i < |r| - 1 && !IsSpace(r[i - 1]) && !IsSpace(r[i + 1])
  }

  lemma {:induction false} JoinWordsSingleSpaced(ws: seq<string>)
    requires forall w :: w in ws ==> IsWord(w)
    ensures SingleSpaced(Join(ws, " "))
    ensures ws != [] <==> Join(ws, " ") != []
  {
    if |ws| == 1 {
      assert ws[0] in ws;
    } else if |ws| >= 2 {
      var w := ws[0];
      assert w in ws;
      assert forall v :: v in ws[1..] ==> v in ws;
      var tail := Join(ws[1..], " ");
      JoinWordsSingleSpaced(ws[1..]);
      var r := Join(ws, " ");
      assert r == w + " " + tail;
      assert r[0] == w[0];
      assert r[|r| - 1] == tail[|tail| - 1];
      forall i | 0 <= i < |r|
        ensures IsSpace(r[i]) ==> r[i] == ' ' && 0 < i < |r| - 1 && !IsSpace(r[i - 1]) && !IsSpace(r[i + 1])
      {
        if i < |w| {
          assert r[i] == w[i];
        } else if i == |w| {
          assert r[i - 1] == w[|w| - 1];
          assert r[i + 1] == tail[0];
        } else {
          var k := i - |w| - 1;
          assert r[i] == tail[k];
          if IsSpace(tail[k]) {
            assert r[i - 1] == tail[k - 1];
            assert r[i + 1] == tail[k + 1];
          }
        }
      }
    }
  }

  /** Two words and a space between them split back into the two words. */
  lemma FieldsOfTwo(a: string, b: string)
    requires IsWord(a) && IsWord(b)
    ensures Fields(a + " " + b) == [a, b]
  {
    var ws := [a, b];
    assert Join(ws, " ") == a + " " + Join(ws[1..], " ");
    assert ws[1..] == [b];
    FieldsOfJoin(ws);
  }

  /** Mapping a character that does not occur leaves the string unchanged. */
  lemma MapCharAbsent(s: string, a: char, b: char)
    requires a !in s
    ensures MapChar(s, a, b) == s
  {
    forall i | 0 <= i < |s| ensures MapChar(s, a, b)[i] == s[i] {
      assert s[i] in s;
    }
  }

  /** A single decimal digit parses as its value. */
  lemma AtoiDigit(c: char)
    requires IsDigit(c)
    ensures Atoi([c]) == Some(c as int - '0' as int)
  {
    var s := [c];
    assert AllDigits(s);
    assert s[..0] == [];
    assert DigitsValue(s) == DigitsValue([]) * 10 + (c as int - '0' as int);
    assert !(s[0] == '+' || s[0] == '-');
  }
}
