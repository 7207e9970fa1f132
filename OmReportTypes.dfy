/**
 * The shapes shared by every omreport mapper: the metric record, what a reader hands back,
 * and the fold that runs a per-line callback over the report lines.
 *
 * A mapper's callback appends to state it captured (the values slice, a running controller
 * name, a label map). Here a callback is a function from the captured state and one line of
 * fields to the next state, or to `Panic` when the Go code indexes past the end of the line.
 */
module OmReportTypes {
  import opened Wrappers

  /** `Value`: a metric name, its value as text, and its labels. */
  datatype Value = Value(name: string, value: string, labels: map<string, string>)

  /** What a reader produces: the field lists of the lines it fed to the callback, then its error. */
  datatype ReaderOutput = ReaderOutput(lines: seq<seq<string>>, err: Option<string>)

  /** `Reader`: given the executable and the arguments, the lines and the error. */
  type Reader = (string, seq<string>) -> ReaderOutput

  /** The state after one callback, or a run-time panic. */
  datatype Step<S> = Next(state: S) | Panic

  /** A mapper's `(values, err)` result, or the panic that unwound through it. */
  datatype Outcome<S> = Completed(state: S, err: Option<string>) | Panicked

  /** `fields[i]`, or `None` where Go panics with an index out of range. */
  function At(f: seq<string>, i: nat): (r: Option<string>)
    ensures r.Some? <==> i < |f|
    ensures r.Some? ==> r.value == f[i]
  {
    if i < |f| then Some(f[i]) else None
  }

  /** The callback applied to every line in order, threading the captured state. */
  function Feed<S>(lines: seq<seq<string>>, s: S, step: (S, seq<string>) -> Step<S>): Step<S> {
    if lines == [] then Next(s)
    else
      match step(s, lines[0])
      case Panic => Panic
      case Next(s') => Feed(lines[1..], s', step)
  }

  /** The mapper's outcome for one reader run: the fed state and the reader's error. */
  function Run<S>(out: ReaderOutput, init: S, step: (S, seq<string>) -> Step<S>): Outcome<S> {
    match Feed(out.lines, init, step)
    case Panic => Panicked
    case Next(s) => Completed(s, out.err)
  }

  /** Feeding `a + b` is feeding `a`, then feeding `b` from where `a` left off. */
  lemma {:induction false} FeedConcat<S>(a: seq<seq<string>>, b: seq<seq<string>>, s: S,
                                         step: (S, seq<string>) -> Step<S>)
    ensures Feed(a + b, s, step) == match Feed(a, s, step)
                                    case Panic => Panic
                                    case Next(s') => Feed(b, s', step)
  {
    if a == [] {
      assert a + b == b;
    } else {
      assert (a + b)[1..] == a[1..] + b;
      match step(s, a[0])
      case Panic =>
      case Next(s') => FeedConcat(a[1..], b, s', step);
    }
  }

  // ---------------------------------------------------------------------------------------
  // Callbacks that only append to the values slice.

  /** The records of every line, in line order; `None` if some line panics. */
  function ConcatLines(g: seq<string> -> Option<seq<Value>>, lines: seq<seq<string>>): Option<seq<Value>> {
    if lines == [] then Some([])
    else
      var h :- g(lines[0]);
      var t :- ConcatLines(g, lines[1..]);
      Some(h + t)
  }

  /** The callback `values = append(values, g(fields)...)`. */
  function Appending(g: seq<string> -> Option<seq<Value>>): (seq<Value>, seq<string>) -> Step<seq<Value>> {
    (vals: seq<Value>, f: seq<string>) => match g(f) case None => Panic case Some(vs) => Next(vals + vs)
  }

  /** Feeding an appending callback yields the concatenated records of all lines. */
  lemma {:induction false} FeedAppending(lines: seq<seq<string>>, acc: seq<Value>,
                                         g: seq<string> -> Option<seq<Value>>)
    ensures Feed(lines, acc, Appending(g)) == match ConcatLines(g, lines)
                                             case None => Panic
                                             case Some(vs) => Next(acc + vs)
  {
    if lines != [] {
      match g(lines[0])
      case None =>
        assert Appending(g)(acc, lines[0]) == Panic;
      case Some(h) =>
        assert Appending(g)(acc, lines[0]) == Next(acc + h);
        FeedAppending(lines[1..], acc + h, g);
        match ConcatLines(g, lines[1..])
        case None =>
        case Some(t) => assert acc + h + t == acc + (h + t);
    } else {
      assert acc + [] == acc;
    }
  }

  /** The records come to nothing only through a line that panics. */
  lemma {:induction false} ConcatLinesPanics(g: seq<string> -> Option<seq<Value>>, lines: seq<seq<string>>)
    ensures ConcatLines(g, lines).None? <==> exists i :: 0 <= i < |lines| && g(lines[i]).None?
  {
    if lines != [] {
      ConcatLinesPanics(g, lines[1..]);
      if g(lines[0]).Some? && ConcatLines(g, lines[1..]).None? {
        var i :| 0 <= i < |lines[1..]| && g(lines[1..][i]).None?;
        assert g(lines[i + 1]).None?;
      }
      if g(lines[0]).Some? && ConcatLines(g, lines[1..]).Some? {
        forall i | 0 <= i < |lines| ensures g(lines[i]).Some? {
          if i > 0 {
            assert lines[i] == lines[1..][i - 1];
          }
        }
      }
    }
  }

  /** Every record shows a property that every line's own records show. */
  lemma {:induction false} ConcatLinesAll(g: seq<string> -> Option<seq<Value>>, lines: seq<seq<string>>,
                                          p: Value -> bool)
    requires forall i, v :: 0 <= i < |lines| && g(lines[i]).Some? && v in g(lines[i]).value ==> p(v)
    ensures ConcatLines(g, lines).Some? ==> forall v :: v in ConcatLines(g, lines).value ==> p(v)
  {
    if lines != [] && ConcatLines(g, lines).Some? {
      forall i, v | 0 <= i < |lines[1..]| && g(lines[1..][i]).Some? && v in g(lines[1..][i]).value
        ensures p(v)
      {
        assert lines[1..][i] == lines[i + 1];
      }
      ConcatLinesAll(g, lines[1..], p);
    }
  }

  /** The number of records of all lines, where no line panics. */
  function RecordCount(g: seq<string> -> Option<seq<Value>>, lines: seq<seq<string>>): nat {
    if lines == [] then 0
    else (match g(lines[0]) case None => 0 case Some(h) => |h|) + RecordCount(g, lines[1..])
  }

  lemma {:induction false} ConcatLinesLength(g: seq<string> -> Option<seq<Value>>, lines: seq<seq<string>>)
    ensures ConcatLines(g, lines).Some? ==> |ConcatLines(g, lines).value| == RecordCount(g, lines)
  {
    if lines != [] {
      ConcatLinesLength(g, lines[1..]);
    }
  }

  /** The number of lines a mapper selects. */
  function CountLines(p: seq<string> -> bool, lines: seq<seq<string>>): nat {
    if lines == [] then 0 else (if p(lines[0]) then 1 else 0) + CountLines(p, lines[1..])
  }

  /** A callback that emits one record per selected line emits as many records as lines it selects. */
  lemma {:induction false} RecordCountSelected(g: seq<string> -> Option<seq<Value>>, p: seq<string> -> bool,
                                               lines: seq<seq<string>>)
    requires forall f :: g(f).Some? && |g(f).value| == (if p(f) then 1 else 0)
    ensures RecordCount(g, lines) == CountLines(p, lines)
  {
    if lines != [] {
      RecordCountSelected(g, p, lines[1..]);
    }
  }

  /** Every record carries the labels `ts`. */
  predicate AllLabelled(vs: seq<Value>, ts: map<string, string>) {
    forall v :: v in vs ==> v.labels == ts
  }

  /** A record named `name` with value `r`, where `r` is present. */
  function Optional(name: string, r: Option<string>, ts: map<string, string>): (vs: seq<Value>)
    ensures |vs| == (if r.Some? then 1 else 0) && AllLabelled(vs, ts)
    ensures forall v :: v in vs ==> v.name == name && v.value == r.value
  {
    if r.Some? then [Value(name, r.value, ts)] else []
  }

  /**
   * Every record that is not a `status` record has the labels of the record before it, and the
   * first record is a `status` record: the readings of a probe follow its status record.
   */
  predicate FollowsStatus(vs: seq<Value>, status: string) {
    && (vs != [] ==> vs[0].name == status)
    && forall j :: 0 < j < |vs| && vs[j].name != status ==> vs[j].labels == vs[j - 1].labels
  }

  /** A status record followed by records with its labels. */
  lemma FollowsStatusLabelled(vs: seq<Value>, status: string, ts: map<string, string>)
    requires vs != [] && vs[0].name == status && AllLabelled(vs, ts)
    ensures FollowsStatus(vs, status)
  {
    forall j | 0 < j < |vs| ensures vs[j].labels == vs[j - 1].labels {
      assert vs[j] in vs && vs[j - 1] in vs;
    }
  }

  lemma FollowsStatusConcat(a: seq<Value>, b: seq<Value>, status: string)
    requires FollowsStatus(a, status) && FollowsStatus(b, status)
    ensures FollowsStatus(a + b, status)
  {
    var c := a + b;
    forall j | 0 < j < |c| && c[j].name != status ensures c[j].labels == c[j - 1].labels {
      if j < |a| {
        assert c[j] == a[j] && c[j - 1] == a[j - 1];
      } else if j > |a| {
        assert c[j] == b[j - |a|] && c[j - 1] == b[j - |a| - 1];
      }
    }
  }

  lemma {:induction false} ConcatLinesFollowStatus(g: seq<string> -> Option<seq<Value>>,
                                                   lines: seq<seq<string>>, status: string)
    requires forall f :: g(f).Some? ==> FollowsStatus(g(f).value, status)
    ensures ConcatLines(g, lines).Some? ==> FollowsStatus(ConcatLines(g, lines).value, status)
  {
    if lines != [] && ConcatLines(g, lines).Some? {
      ConcatLinesFollowStatus(g, lines[1..], status);
      FollowsStatusConcat(g(lines[0]).value, ConcatLines(g, lines[1..]).value, status);
    }
  }
}
