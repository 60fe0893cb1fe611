/**
 * The helpers and constants shared by the three screens
 * (app/src/main/java/com/example/activitylifecycle/Activities.java):
 * the tag that marks this application's log lines, and `getLog`, which
 * turns the `logcat -d` output into a newest-first list of the tagged
 * messages.
 *
 * The external process and its stream are not modelled: the output of
 * `logcat -d` is given as the sequence of lines that `readLine` returns
 * (none of them holds a newline), and `readFails` says whether the reader
 * raises an `IOException` once those lines have been delivered.
 */
module Activities {

  /** Marks the log lines written by the screens. */
  const TAG: string := "Activity_TAG"
  /** Name of the key-value store that holds the screens' statuses. */
  const PREFERENCES_NAME: string := "activity_statuses"
  /** Intent extra that names the calling screen. */
  const EXTRA_CALLER: string := "caller"
  /** `Message.what` of a refresh request. */
  const UPDATE_VIEWS: int := 1
  /** Delay of the poller between two refresh requests, in milliseconds. */
  const WAIT_TIME: int := 1000
  /** What `getLog` returns when reading the log fails. */
  const READ_FAILURE: string := "failed to read from logcat"

  // ---------------------------------------------------------------------
  // Java's String.indexOf and String.contains
  // ---------------------------------------------------------------------

  /** `t` occurs in `s` starting at index `i`. */
  predicate OccursAt(s: string, t: string, i: int)
  {
    0 <= i && i + |t| <= |s| && s[i..i + |t|] == t
  }

  /** `s.indexOf(t, from)`: the first occurrence of `t` at or after `from`, or -1. */
  function IndexFrom(s: string, t: string, from: nat): (r: int)
    ensures r == -1 || (from <= r && r + |t| <= |s|)
    decreases |s| - from
  {
    if from + |t| > |s| then -1
    else if s[from..from + |t|] == t then from
    else IndexFrom(s, t, from + 1)
  }

  /** `IndexFrom` finds the first occurrence at or after `from`, and -1 only when there is none. */
  lemma {:induction false} IndexFromFindsFirst(s: string, t: string, from: nat)
    ensures IndexFrom(s, t, from) == -1 ==> forall j :: from <= j ==> !OccursAt(s, t, j)
    ensures IndexFrom(s, t, from) != -1 ==> from <= IndexFrom(s, t, from) && OccursAt(s, t, IndexFrom(s, t, from))
    ensures IndexFrom(s, t, from) != -1 ==> forall j :: from <= j < IndexFrom(s, t, from) ==> !OccursAt(s, t, j)
    decreases |s| - from
  {
    if from + |t| <= |s| && s[from..from + |t|] != t {
      IndexFromFindsFirst(s, t, from + 1);
    }
  }

  /** `s.indexOf(t)`: -1, or an index at which `t` fits inside `s`. */
  function IndexOf(s: string, t: string): (r: int)
    ensures r == -1 || (0 <= r && r + |t| <= |s|)
  {
    IndexFrom(s, t, 0)
  }

  /** `indexOf` is non-negative exactly when `t` occurs in `s`, and then it is the first occurrence. */
  lemma IndexOfFindsFirst(s: string, t: string)
    ensures -1 <= IndexOf(s, t)
    ensures IndexOf(s, t) >= 0 <==> exists j :: OccursAt(s, t, j)
    ensures IndexOf(s, t) >= 0 ==> OccursAt(s, t, IndexOf(s, t))
    ensures IndexOf(s, t) >= 0 ==> forall j :: 0 <= j < IndexOf(s, t) ==> !OccursAt(s, t, j)
  {
    IndexFromFindsFirst(s, t, 0);
  }

  /** `s.contains(t)`, which Java defines as `s.indexOf(t) >= 0`. */
  predicate Contains(s: string, t: string)
    ensures Contains(s, t) ==> |t| <= |s|
  {
    IndexOf(s, t) >= 0
  }

  // ---------------------------------------------------------------------
  // One line of the log
  // ---------------------------------------------------------------------

  /** The line is one of this application's log lines. */
  predicate Tagged(line: string)
  {
    Contains(line, TAG)
  }

  /** The index `getLog` passes to `substring`: one past the character after the first `TAG`. */
  function CutPoint(line: string): int
  {
    IndexOf(line, TAG) + |TAG| + 1
  }

  /**
   * `getLog` handles the line without `substring` raising
   * `StringIndexOutOfBoundsException`. The only line that makes it raise is
   * a tagged one whose first `TAG` ends the line.
   */
  predicate CutInRange(line: string)
  {
    !Tagged(line) || CutPoint(line) <= |line|
  }

  /** `substring` raises exactly on a tagged line whose first `TAG` ends the line. */
  lemma OutOfRangeIffTagEndsLine(line: string)
    ensures !CutInRange(line) <==> Tagged(line) && IndexOf(line, TAG) + |TAG| == |line|
  {
    IndexOfFindsFirst(line, TAG);
  }

  /** Every line of `lines` is handled without a range error. */
  predicate AllInRange(lines: seq<string>)
  {
    forall j :: 0 <= j < |lines| ==> CutInRange(lines[j])
  }

  /** What a tagged line contributes to the log: the rest after `TAG` and one more character, plus a newline. */
  function Reduce(line: string): (r: string)
    requires Tagged(line) && CutInRange(line)
    ensures 1 <= |r| <= |line| - |TAG| && r[|r| - 1] == '\n'
    ensures r[..|r| - 1] == line[|line| - (|r| - 1)..]
  {
    line[CutPoint(line)..] + "\n"
  }

  /**
   * The cut is made at the FIRST occurrence of `TAG`: a line made of a
   * prefix without an earlier `TAG`, the tag, any one character and a rest
   * contributes the rest and a newline, whatever the rest holds (a later
   * `TAG` included). With an empty rest the line contributes just "\n".
   */
  lemma ReduceCutsAtFirstTag(p: string, c: char, rest: string)
    requires forall j :: 0 <= j < |p| ==> !OccursAt(p + TAG + [c] + rest, TAG, j)
    ensures Tagged(p + TAG + [c] + rest) && CutInRange(p + TAG + [c] + rest)
    ensures Reduce(p + TAG + [c] + rest) == rest + "\n"
  {
    var line := p + TAG + [c] + rest;
    assert line[|p|..|p| + |TAG|] == TAG;
    assert OccursAt(line, TAG, |p|);
    IndexOfFindsFirst(line, TAG);
    assert IndexOf(line, TAG) == |p|;
    assert line[|p| + |TAG| + 1..] == rest;
  }

  /**
   * A line whose first `TAG` ends it makes `substring` raise: `getLog`
   * stops with a range error on that line, whether or not reading would
   * have failed later.
   */
  lemma TagEndingLineRaises(p: string, readFails: bool)
    requires forall j :: 0 <= j < |p| ==> !OccursAt(p + TAG, TAG, j)
    ensures !CutInRange(p + TAG)
    ensures ExpectedLog([p + TAG], readFails) == OutOfRange(0)
  {
    var line := p + TAG;
    assert line[|p|..|p| + |TAG|] == TAG;
    assert OccursAt(line, TAG, |p|);
    IndexOfFindsFirst(line, TAG);
    assert IndexOf(line, TAG) == |p|;
  }

  // ---------------------------------------------------------------------
  // The whole log
  // ---------------------------------------------------------------------

  /** The outcome of `getLog`: its text, or the range error `substring` raises on line `line`. */
  datatype LogResult = Text(text: string) | OutOfRange(line: nat)

  /**
   * The text `getLog` builds from `lines`: each line is taken in turn and
   * its contribution, if tagged, is inserted at the front, so the last line
   * read comes first.
   */
  function NewestFirst(lines: seq<string>): (r: string)
    requires AllInRange(lines)
    ensures r == "" || r[|r| - 1] == '\n'
  {
    if lines == [] then ""
    else
      var last := lines[|lines| - 1];
      (if Tagged(last) then Reduce(last) else "") + NewestFirst(lines[..|lines| - 1])
  }

  /** Index of the first line at or after `from` on which `substring` raises, or -1. */
  function FirstOutOfRange(lines: seq<string>, from: nat): (k: int)
    ensures k == -1 ==> forall j :: from <= j < |lines| ==> CutInRange(lines[j])
    ensures k != -1 ==> from <= k < |lines| && !CutInRange(lines[k])
    ensures k != -1 ==> forall j :: from <= j < k ==> CutInRange(lines[j])
    decreases |lines| - from
  {
    if from >= |lines| then -1
    else if !CutInRange(lines[from]) then from
    else FirstOutOfRange(lines, from + 1)
  }

  /**
   * What `getLog` yields for the lines `logcat -d` delivers: the range error
   * of the first line whose `TAG` ends it; otherwise the fixed sentinel when
   * reading failed; otherwise the newest-first text.
   */
  function ExpectedLog(lines: seq<string>, readFails: bool): (r: LogResult)
    ensures r.OutOfRange? <==> !AllInRange(lines)
    ensures r.OutOfRange? ==> r.line < |lines| && !CutInRange(lines[r.line])
    ensures r.OutOfRange? ==> forall j :: 0 <= j < r.line ==> CutInRange(lines[j])
    ensures AllInRange(lines) && readFails ==> r == Text(READ_FAILURE)
    ensures AllInRange(lines) && !readFails ==> r == Text(NewestFirst(lines))
  {
    var k := FirstOutOfRange(lines, 0);
    if k >= 0 then OutOfRange(k)
    else if readFails then Text(READ_FAILURE)
    else Text(NewestFirst(lines))
  }

  /** One more line read: its contribution goes in front of what was built so far. */
  lemma NewestFirstStep(lines: seq<string>, i: nat)
    requires i < |lines| && AllInRange(lines[..i]) && CutInRange(lines[i])
    ensures AllInRange(lines[..i + 1])
    ensures NewestFirst(lines[..i + 1])
         == (if Tagged(lines[i]) then Reduce(lines[i]) else "") + NewestFirst(lines[..i])
  {
    assert lines[..i + 1][..i] == lines[..i];
    assert forall j :: 0 <= j < i ==> lines[..i][j] == lines[..i + 1][j];
    assert lines[..i + 1][i] == lines[i];
  }

  /** A line that raises, after lines that do not, decides the outcome. */
  lemma ExpectedLogRaisesAt(lines: seq<string>, readFails: bool, i: nat)
    requires i < |lines| && !CutInRange(lines[i])
    requires AllInRange(lines[..i])
    ensures ExpectedLog(lines, readFails) == OutOfRange(i)
  {
    assert forall j :: 0 <= j < i ==> lines[..i][j] == lines[j];
    var k := FirstOutOfRange(lines, 0);
    assert k == i;
  }

  /**
   * `getLog`: read the lines, keep the tagged ones, cut each after its tag
   * and insert it at the front of a string builder.
   */
  method GetLog(lines: seq<string>, readFails: bool) returns (r: LogResult)
    ensures r == ExpectedLog(lines, readFails)
  {
    var log := "";
    var i := 0;
    while i < |lines|
      invariant 0 <= i <= |lines|
      invariant AllInRange(lines[..i]) && log == NewestFirst(lines[..i])
    {
      var line := lines[i];
      if Contains(line, TAG) {
        var cut := IndexOf(line, TAG) + |TAG| + 1;
        if cut > |line| {
          ExpectedLogRaisesAt(lines, readFails, i);
          return OutOfRange(i);
        }
        var reducedLog := line[cut..] + "\n";
        log := reducedLog + log;
      }
      NewestFirstStep(lines, i);
      i := i + 1;
    }
    assert lines[..i] == lines;
    if readFails {
      return Text(READ_FAILURE);
    }
    return Text(log);
  }

  // ---------------------------------------------------------------------
  // An independent description of the log: reverse of a filter and a map
  // ---------------------------------------------------------------------

  /** The tagged lines of `lines`, in input order. */
  function Retained(lines: seq<string>): seq<string>
  {
    if lines == [] then []
    else (if Tagged(lines[0]) then [lines[0]] else []) + Retained(lines[1..])
  }

  /** Each line's contribution, in the same order. */
  function ReduceAll(lines: seq<string>): seq<string>
    requires forall j :: 0 <= j < |lines| ==> Tagged(lines[j]) && CutInRange(lines[j])
  {
    if lines == [] then [] else [Reduce(lines[0])] + ReduceAll(lines[1..])
  }

  function Reverse<T>(s: seq<T>): seq<T>
  {
    if s == [] then [] else Reverse(s[1..]) + [s[0]]
  }

  function Concat(parts: seq<string>): string
  {
    if parts == [] then "" else parts[0] + Concat(parts[1..])
  }

  /** Number of occurrences of `c` in `s`. */
  function Count(s: string, c: char): nat
  {
    if s == [] then 0 else (if s[0] == c then 1 else 0) + Count(s[1..], c)
  }

  lemma {:induction false} RetainedSubset(lines: seq<string>)
    ensures forall j :: 0 <= j < |Retained(lines)| ==> Retained(lines)[j] in lines && Tagged(Retained(lines)[j])
  {
    if lines != [] {
      RetainedSubset(lines[1..]);
    }
  }

  lemma {:induction false} RetainedSnoc(lines: seq<string>, x: string)
    ensures Retained(lines + [x]) == Retained(lines) + (if Tagged(x) then [x] else [])
  {
    if lines == [] {
      assert lines + [x] == [x];
    } else {
      assert (lines + [x])[1..] == lines[1..] + [x];
      RetainedSnoc(lines[1..], x);
    }
  }

  lemma {:induction false} ReduceAllSnoc(lines: seq<string>, x: string)
    requires forall j :: 0 <= j < |lines| ==> Tagged(lines[j]) && CutInRange(lines[j])
    requires Tagged(x) && CutInRange(x)
    ensures ReduceAll(lines + [x]) == ReduceAll(lines) + [Reduce(x)]
  {
    if lines == [] {
      assert lines + [x] == [x];
    } else {
      assert (lines + [x])[1..] == lines[1..] + [x];
      ReduceAllSnoc(lines[1..], x);
    }
  }

  lemma {:induction false} ReverseSnoc<T>(s: seq<T>, x: T)
    ensures Reverse(s + [x]) == [x] + Reverse(s)
  {
    if s == [] {
      assert s + [x] == [x];
    } else {
      assert (s + [x])[1..] == s[1..] + [x];
      ReverseSnoc(s[1..], x);
    }
  }

  /** Element `k` of the reverse is element `|s| - 1 - k` of `s`. */
  lemma {:induction false} ReverseAt<T>(s: seq<T>, k: nat)
    requires k < |s|
    ensures |Reverse(s)| == |s| && Reverse(s)[k] == s[|s| - 1 - k]
  {
    if k < |s| - 1 {
      ReverseAt(s[1..], k);
    } else {
      ReverseLength(s[1..]);
    }
  }

  lemma {:induction false} ReverseLength<T>(s: seq<T>)
    ensures |Reverse(s)| == |s|
  {
    if s != [] {
      ReverseLength(s[1..]);
    }
  }

  /**
   * The log `getLog` builds is the concatenation, newest first, of the
   * contributions of exactly the tagged lines: the reverse of a filter and
   * a map over the input.
   */
  lemma {:induction false} NewestFirstIsReversedFilterMap(lines: seq<string>)
    requires AllInRange(lines)
    ensures forall j :: 0 <= j < |Retained(lines)| ==> Tagged(Retained(lines)[j]) && CutInRange(Retained(lines)[j])
    ensures NewestFirst(lines) == Concat(Reverse(ReduceAll(Retained(lines))))
  {
    RetainedSubset(lines);
    if lines != [] {
      var init, last := lines[..|lines| - 1], lines[|lines| - 1];
      assert lines == init + [last];
      assert AllInRange(init) by {
        assert forall j :: 0 <= j < |init| ==> init[j] == lines[j];
      }
      NewestFirstIsReversedFilterMap(init);
      RetainedSnoc(init, last);
      if Tagged(last) {
        ReduceAllSnoc(Retained(init), last);
        ReverseSnoc(ReduceAll(Retained(init)), Reduce(last));
      } else {
        assert Retained(lines) == Retained(init);
      }
    }
  }

  /** With no tagged line, including an empty log, `getLog` yields the empty text. */
  lemma {:induction false} NoTaggedLineGivesEmptyLog(lines: seq<string>)
    requires forall j :: 0 <= j < |lines| ==> !Tagged(lines[j])
    ensures AllInRange(lines) && NewestFirst(lines) == ""
    ensures ExpectedLog(lines, false) == Text("")
  {
    if lines != [] {
      var init := lines[..|lines| - 1];
      assert forall j :: 0 <= j < |init| ==> init[j] == lines[j];
      NoTaggedLineGivesEmptyLog(init);
    }
  }

  lemma {:induction false} CountAppend(a: string, b: string, c: char)
    ensures Count(a + b, c) == Count(a, c) + Count(b, c)
  {
    if a == [] {
      assert a + b == b;
    } else {
      assert (a + b)[1..] == a[1..] + b;
      CountAppend(a[1..], b, c);
    }
  }

  lemma {:induction false} CountAbsent(s: string, c: char)
    requires c !in s
    ensures Count(s, c) == 0
  {
    if s != [] {
      CountAbsent(s[1..], c);
    }
  }

  /**
   * Since `readLine` returns lines without their newline, the text has
   * exactly one newline per tagged line.
   */
  lemma {:induction false} NewlinePerTaggedLine(lines: seq<string>)
    requires AllInRange(lines)
    requires forall j :: 0 <= j < |lines| ==> '\n' !in lines[j]
    ensures Count(NewestFirst(lines), '\n') == |Retained(lines)|
  {
    if lines != [] {
      var init, last := lines[..|lines| - 1], lines[|lines| - 1];
      assert lines == init + [last];
      assert forall j :: 0 <= j < |init| ==> init[j] == lines[j];
      NewlinePerTaggedLine(init);
      RetainedSnoc(init, last);
      if Tagged(last) {
        var rest := last[CutPoint(last)..];
        assert '\n' !in rest by {
          assert forall k :: 0 <= k < |rest| ==> rest[k] == last[CutPoint(last) + k];
        }
        CountAbsent(rest, '\n');
        CountAppend(rest, "\n", '\n');
        CountAppend(Reduce(last), NewestFirst(init), '\n');
      } else {
        assert NewestFirst(lines) == NewestFirst(init);
      }
    }
  }
}
