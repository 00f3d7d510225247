/** The bounded conversation summary (app/mneme/domains/chat/context.py, `_bounded_summary`):
    the most recent whole lines that fit. */
module BoundedSummary {
  import opened Sorting
  import opened Text

  // ----- specification: drop lines from the front until the rest fits

  function LastChars(s: string, n: nat): (r: string)
    ensures |r| <= n
  {
    if |s| <= n then s else s[|s| - n..]
  }

  /** The longest suffix of whole lines of at most `max` characters; the end of the last line if none fits. */
  function Fitting(lines: seq<string>, max: nat): (r: string)
    ensures |r| <= max
  {
    if lines == [] then ""
    else if |JoinLines(lines)| <= max then JoinLines(lines)
    else if |lines| == 1 then LastChars(lines[0], max)
    else Fitting(lines[1..], max)
  }

  predicate NotEmpty(s: string) {
    s != ""
  }

  function Parts(existing: string, entries: seq<string>): seq<string> {
    Filter(NotEmpty, [Strip(existing)] + entries)
  }

  function Summary(existing: string, entries: seq<string>, max: int): (r: string)
    ensures |r| <= if max >= 0 then max else 0
  {
    var combined := JoinLines(Parts(existing, entries));
    if max <= 0 then ""
    else if |combined| <= max then combined
    else Fitting(SplitLines(combined), max)
  }

  lemma {:induction false} JoinedLength(a: seq<string>, b: seq<string>)
    ensures |JoinLines(a + b)| == |JoinLines(a)| + |JoinLines(b)| + if a != [] && b != [] then 1 else 0
  {
    if a == [] {
      assert a + b == b;
    } else if b == [] {
      assert a + b == a;
    } else {
      JoinAppend(a, b);
    }
  }

  /** A line that makes the suffix too long makes every longer suffix too long. */
  lemma {:induction false} FittingFrom(lines: seq<string>, max: nat, i: nat)
    requires i <= |lines|
    requires i > 0 ==> |JoinLines(lines[i - 1..])| > max
    ensures Fitting(lines, max) == if i == 0 then Fitting(lines, max)
                                   else if i == |lines| then LastChars(lines[|lines| - 1], max)
                                   else Fitting(lines[i..], max)
  {
    if i > 0 {
      assert lines[..i - 1] + lines[i - 1..] == lines;
      JoinedLength(lines[..i - 1], lines[i - 1..]);
      if |lines| > 1 {
        if i == 1 {
          assert lines[0..] == lines;
        } else {
          assert lines[1..][i - 2..] == lines[i - 1..] && lines[1..][i - 1..] == lines[i..];
          FittingFrom(lines[1..], max, i - 1);
        }
      }
    }
  }

  /** The loop takes lines from the end while they fit. */
  method TakeFromEnd(lines: seq<string>, max: nat) returns (r: string)
    ensures r == Fitting(lines, max)
  {
    var selected: seq<string> := [];
    var used, i := 0, |lines|;
    while i > 0
      invariant 0 <= i <= |lines|
      invariant Reversed(selected) == lines[i..]
      invariant used == |JoinLines(lines[i..])| <= max
    {
      var line := lines[i - 1];
      var separator := if selected == [] then 0 else 1;
      assert lines[i - 1..] == [line] + lines[i..];
      JoinedLength([line], lines[i..]);
      if |line| + separator + used <= max {
        ReversedAppend(selected, [line]);
        assert Reversed([line]) == [line];
        selected := selected + [line];
        used := used + |line| + separator;
        i := i - 1;
      } else {
        FittingFrom(lines, max, i);
        if selected == [] {
          selected := selected + [LastChars(line, max)];
        }
        break;
      }
    }
    r := JoinLines(Reversed(selected));
    if i == 0 {
      assert lines[0..] == lines;
    } else if i == |lines| {
      assert Reversed(selected) == [LastChars(lines[i - 1], max)];
    }
  }

  /** `_bounded_summary`. */
  method BoundSummary(existing: string, entries: seq<string>, max: int) returns (r: string)
    ensures r == Summary(existing, entries, max)
  {
    if max <= 0 {
      return "";
    }
    var combined := JoinLines(Parts(existing, entries));
    if |combined| <= max {
      return combined;
    }
    r := TakeFromEnd(SplitLines(combined), max);
  }

  // ----- bounding what is already bounded

  predicate Tidy(line: string) {
    line != "" && SingleSpaced(line)
  }

  predicate AllTidy(lines: seq<string>) {
    forall i | 0 <= i < |lines| :: Tidy(lines[i])
  }

  /** Text with no whitespace around it. */
  predicate Trimmed(s: string) {
    s != "" && !IsSpace(s[0]) && !IsSpace(s[|s| - 1])
  }

  lemma {:induction false} JoinedTrimmed(lines: seq<string>)
    requires lines != [] && forall i | 0 <= i < |lines| :: Trimmed(lines[i])
    ensures Trimmed(JoinLines(lines))
  {
    if |lines| > 1 {
      JoinedTrimmed(lines[1..]);
    }
  }

  lemma {:induction false} FilterAll(lines: seq<string>)
    requires forall i | 0 <= i < |lines| :: NotEmpty(lines[i])
    ensures Filter(NotEmpty, lines) == lines
  {
    if lines != [] {
      FilterAll(lines[1..]);
    }
  }

  /** The joined parts are the joined lines. */
  lemma PartsOfTidy(lines: seq<string>, entries: seq<string>)
    requires AllTidy(lines) && AllTidy(entries)
    ensures JoinLines(Parts(JoinLines(lines), entries)) == JoinLines(lines + entries)
  {
    FilterAll(entries);
    var s := JoinLines(lines);
    assert ([Strip(s)] + entries)[1..] == entries;
    if lines == [] {
      assert lines + entries == entries;
    } else {
      JoinedTrimmed(lines);
      StripFixed(s);
      assert Parts(s, entries) == [s] + entries;
      if entries == [] {
        assert [s] + entries == [s] && lines + entries == lines;
      } else {
        JoinAppend([s], entries);
        JoinAppend(lines, entries);
      }
    }
  }

  lemma SplitTidy(lines: seq<string>)
    requires AllTidy(lines)
    ensures SplitLines(JoinLines(lines)) == lines
  {
    forall l | l in lines ensures OneLine(l) && l != "" {
      var i :| 0 <= i < |lines| && lines[i] == l;
      assert Tidy(lines[i]);
      SingleSpacedIsOneLine(l);
    }
    SplitJoined(lines);
  }

  lemma FittingAll(lines: seq<string>, max: nat)
    requires |JoinLines(lines)| <= max
    ensures Fitting(lines, max) == JoinLines(lines)
  {
  }

  /** For tidy lines the summary is the fitting suffix of all of them. */
  lemma SummaryOfTidy(lines: seq<string>, entries: seq<string>, max: int)
    requires AllTidy(lines) && AllTidy(entries) && max > 0
    ensures Summary(JoinLines(lines), entries, max) == Fitting(lines + entries, max)
  {
    hide Tidy, SplitLines, JoinLines, Strip, Parts, Fitting, Filter;
    var all := lines + entries;
    PartsOfTidy(lines, entries);
    SplitTidy(all);
    if |JoinLines(all)| <= max {
      FittingAll(all, max);
    }
  }

  lemma SuffixTidy(line: string, k: nat)
    requires Tidy(line) && k < |line| && !IsSpace(line[k])
    ensures Tidy(line[k..]) && Trimmed(line[k..]) && Strip(line[k..]) == line[k..]
  {
    var tail := line[k..];
    assert forall i | 0 <= i < |tail| :: tail[i] == line[k + i];
  }

  /** The end of a tidy line: at most one leading space is lost by stripping it. */
  lemma TailStripped(line: string, max: nat)
    requires Tidy(line) && 0 < max < |line|
    ensures Tidy(Strip(LastChars(line, max))) && |Strip(LastChars(line, max))| >= max - 1 >= 0
  {
    hide Tidy, Strip, IsSpace;
    var k := |line| - max;
    if IsSpace(line[k]) {
      OneLeadingSpace(line, k);
    } else {
      SuffixTidy(line, k);
    }
  }

  lemma OneLeadingSpace(line: string, k: nat)
    requires Tidy(line) && k < |line| && IsSpace(line[k])
    ensures k + 1 < |line| && Tidy(line[k + 1..]) && Strip(line[k..]) == line[k + 1..]
  {
    assert !IsSpace(line[|line| - 1]);
    SuffixTidy(line, k + 1);
    var tail := line[k..];
    assert tail[1..] == line[k + 1..];
  }

  /** Lines in front of a suffix that does not fit together with what follows are dropped anyway. */
  lemma {:induction false} FittingSkips(front: seq<string>, rest: seq<string>, max: nat)
    requires rest != [] && (front != [] ==> |front[|front| - 1]| + 1 + |JoinLines(rest)| > max)
    ensures Fitting(front + rest, max) == Fitting(rest, max)
  {
    if front != [] {
      var n := |front|;
      var all := front + rest;
      assert all[n - 1..] == [front[n - 1]] + rest && all[n..] == rest;
      JoinedLength([front[n - 1]], rest);
      FittingFrom(all, max, n);
    } else {
      assert front + rest == rest;
    }
  }

  /** Bounding the old summary before new entries are appended does not change the result. */
  lemma {:induction false} BoundingFirstChangesNothing(lines: seq<string>, entries: seq<string>, max: int)
    requires AllTidy(lines) && AllTidy(entries) && entries != []
    ensures Summary(Summary(JoinLines(lines), [], max), entries, max) == Summary(JoinLines(lines), entries, max)
  {
    hide Tidy, Summary, Fitting, JoinLines;
    if max > 0 {
      assert lines + [] == lines;
      SummaryOfTidy(lines, [], max);
      SummaryOfTidy(lines, entries, max);
      BoundedThenExtended(lines, entries, max);
    } else {
      assert Summary(Summary(JoinLines(lines), [], max), entries, max) == Summary(JoinLines(lines), entries, max);
    }
  }

  lemma {:induction false} BoundedThenExtended(lines: seq<string>, entries: seq<string>, max: nat)
    requires AllTidy(lines) && AllTidy(entries) && entries != [] && max > 0
    ensures Summary(Fitting(lines, max), entries, max) == Fitting(lines + entries, max)
  {
    if |JoinLines(lines)| <= max {
      FittingAll(lines, max);
      SummaryOfTidy(lines, entries, max);
    } else {
      DropFirst(lines, entries, max);
      if |lines| == 1 {
        LongLineThenExtended(lines[0], entries, max);
      } else {
        BoundedThenExtended(lines[1..], entries, max);
      }
    }
  }

  /** When the lines alone do not fit, the first one is dropped with or without the entries. */
  lemma DropFirst(lines: seq<string>, entries: seq<string>, max: nat)
    requires |JoinLines(lines)| > max && entries != []
    ensures lines != []
    ensures |lines| == 1 ==> lines == [lines[0]] && Fitting(lines, max) == LastChars(lines[0], max) && |lines[0]| > max
    ensures |lines| > 1 ==> Fitting(lines, max) == Fitting(lines[1..], max)
                            && Fitting(lines + entries, max) == Fitting(lines[1..] + entries, max)
  {
    JoinedLength(lines, entries);
    assert (lines + entries)[1..] == lines[1..] + entries;
  }

  lemma NonEmptyJoined(entries: seq<string>)
    requires AllTidy(entries) && entries != []
    ensures |JoinLines(entries)| >= 1
  {
    assert Tidy(entries[0]);
  }

  /** A cut line never fits in front of an entry, nor did the whole line. */
  lemma LongLineThenExtended(line: string, entries: seq<string>, max: nat)
    requires Tidy(line) && AllTidy(entries) && entries != [] && 0 < max < |line|
    ensures Summary(LastChars(line, max), entries, max) == Fitting([line] + entries, max)
  {
    hide Tidy, IsSpace, SplitLines, Strip;
    TailStripped(line, max);
    var t := Strip(LastChars(line, max));
    StripFixed(t);
    assert Parts(LastChars(line, max), entries) == Parts(t, entries);
    assert JoinLines([t]) == t;
    SummaryOfTidy([t], entries, max);
    NonEmptyJoined(entries);
    FittingSkips([t], entries, max);
    FittingSkips([line], entries, max);
  }

  // ----- a summary bounded again and again

  /** Only the stripped old summary matters. */
  lemma SameStripped(a: string, b: string, entries: seq<string>, max: int)
    requires Strip(a) == Strip(b)
    ensures Summary(a, entries, max) == Summary(b, entries, max)
  {
  }

  /** Bounding what has been bounded to more is bounding once, up to the space a cut line may begin with. */
  lemma BoundedAgain(existing: string, lines: seq<string>, before: nat, max: nat)
    requires AllTidy(lines) && max <= before && Strip(existing) == Strip(Fitting(lines, before))
    ensures Strip(Summary(existing, [], max)) == Strip(Fitting(lines, max))
  {
    hide Tidy, AllTidy, Summary, Fitting, Strip, JoinLines;
    SameStripped(existing, Fitting(lines, before), [], max);
    if max > 0 {
      FittedAgain(lines, before, max);
    } else {
      assert Summary(existing, [], max) == Fitting(lines, max);
    }
  }

  lemma FittingStep(lines: seq<string>, max: nat)
    requires |JoinLines(lines)| > max
    ensures lines != []
    ensures |lines| == 1 ==> lines == [lines[0]] && |lines[0]| > max && Fitting(lines, max) == LastChars(lines[0], max)
    ensures |lines| > 1 ==> Fitting(lines, max) == Fitting(lines[1..], max)
  {
  }

  lemma {:induction false} FittedAgain(lines: seq<string>, before: nat, max: nat)
    requires AllTidy(lines) && 0 < max <= before
    ensures Strip(Summary(Fitting(lines, before), [], max)) == Strip(Fitting(lines, max))
    decreases |lines|
  {
    hide Tidy, Summary, Fitting, Strip, JoinLines;
    if |JoinLines(lines)| <= before {
      FittingAll(lines, before);
      SummaryOfTidy(lines, [], max);
      assert lines + [] == lines;
    } else {
      FittingStep(lines, before);
      if |lines| == 1 {
        CutAgain(lines[0], before, max);
      } else {
        FittingStep(lines, max);
        FittedAgain(lines[1..], before, max);
      }
    }
  }

  lemma CutAgain(line: string, before: nat, max: nat)
    requires Tidy(line) && 0 < max <= before < |line|
    ensures Strip(Summary(LastChars(line, before), [], max)) == Strip(Fitting([line], max))
  {
    hide Tidy, IsSpace, SplitLines, Strip, Summary;
    var cut := LastChars(line, before);
    var t := Strip(cut);
    TailStripped(line, before);
    StripOfTail(line, before);
    StripOfTidy(t);
    SameStripped(cut, t, [], max);
    assert JoinLines([t]) == t && [t] + [] == [t];
    SummaryOfTidy([t], [], max);
    TailOfTail(line, t, cut, before, max);
  }

  lemma TailOfTail(line: string, t: string, cut: string, before: nat, max: nat)
    requires 0 < max <= before < |line| && cut == LastChars(line, before) && t == Strip(cut)
    requires before - 1 <= |t| <= before && t == line[|line| - |t|..] && Strip(t) == t
    ensures Strip(Fitting([t], max)) == Strip(Fitting([line], max))
  {
    hide Strip;
    assert JoinLines([t]) == t && JoinLines([line]) == line;
    if |t| > max {
      assert LastChars(t, max) == LastChars(line, max);
    } else {
      assert |t| == max ==> t == LastChars(line, max);
      assert |t| < max ==> LastChars(line, max) == cut;
    }
  }

  lemma StripOfTidy(t: string)
    requires Tidy(t)
    ensures Strip(t) == t
  {
    StripFixed(t);
  }

  /** The stripped end of a tidy line is an end of it. */
  lemma StripOfTail(line: string, max: nat)
    requires Tidy(line) && 0 < max < |line|
    ensures var t := Strip(LastChars(line, max)); |t| <= max && t == line[|line| - |t|..]
  {
    hide Tidy, Strip, IsSpace;
    var k := |line| - max;
    if IsSpace(line[k]) {
      OneLeadingSpace(line, k);
    } else {
      SuffixTidy(line, k);
    }
  }

  /** A bounded summary extended by entries is what bounding all lines at once gives. */
  lemma BoundedExtended(existing: string, lines: seq<string>, entries: seq<string>, max: nat)
    requires AllTidy(lines) && AllTidy(entries) && entries != [] && max > 0
    requires Strip(existing) == Strip(Fitting(lines, max))
    ensures Summary(existing, entries, max) == Fitting(lines + entries, max)
  {
    SameStripped(existing, Fitting(lines, max), entries, max);
    BoundedThenExtended(lines, entries, max);
  }

  // ----- what a fitting suffix is

  /** Of the suffixes of whole lines the longest that fits; if not even the last line fits, its end. */
  lemma {:induction false} FittingIsLongest(lines: seq<string>, max: nat) returns (i: nat)
    ensures i <= |lines| && forall j | 0 <= j < i :: |JoinLines(lines[j..])| > max
    ensures lines == [] ==> Fitting(lines, max) == ""
    ensures i < |lines| ==> |JoinLines(lines[i..])| <= max && Fitting(lines, max) == JoinLines(lines[i..])
    ensures lines != [] && i == |lines| ==>
              |lines[i - 1]| > max && Fitting(lines, max) == LastChars(lines[i - 1], max)
    decreases |lines|
  {
    hide Fitting, JoinLines;
    NothingToFit(max);
    assert lines[0..] == lines;
    if lines == [] || |JoinLines(lines)| <= max {
      i := 0;
      FittingIfShort(lines, max);
    } else {
      FittingStep(lines, max);
      if |lines| == 1 {
        i := 1;
      } else {
        var rest := lines[1..];
        var k := FittingIsLongest(rest, max);
        i := k + 1;
        assert forall j | 0 <= j <= |rest| :: rest[j..] == lines[j + 1..];
        forall j | 0 <= j < i ensures |JoinLines(lines[j..])| > max {
          if j > 0 {
            assert rest[j - 1..] == lines[j..];
          }
        }
      }
    }
  }

  lemma NothingToFit(max: nat)
    ensures Fitting([], max) == "" == JoinLines([])
  {
  }

  lemma FittingIfShort(lines: seq<string>, max: nat)
    ensures |JoinLines(lines)| <= max ==> Fitting(lines, max) == JoinLines(lines)
  {
  }

  /** `x` is the end of `y`. */
  predicate IsEnd(x: string, y: string) {
    |x| <= |y| && x == y[|y| - |x|..]
  }

  /** The last lines of `lines`, the first of them perhaps cut at its beginning. */
  ghost predicate TailOf(tail: seq<string>, lines: seq<string>) {
    && |tail| <= |lines|
    && (tail != [] ==> IsEnd(tail[0], lines[|lines| - |tail|]))
    && forall i | 0 < i < |tail| :: tail[i] == lines[|lines| - |tail| + i]
  }

  lemma TailsChain(a: seq<string>, b: seq<string>, c: seq<string>)
    requires TailOf(a, b) && TailOf(b, c)
    ensures TailOf(a, c)
  {
    var k := |b| - |a|;
    forall i | 0 < i < |a| ensures a[i] == c[|c| - |a| + i] {
      assert a[i] == b[k + i] == c[|c| - |b| + (k + i)];
    }
    if a != [] && k > 0 {
      assert b[k] == c[|c| - |b| + k];
    }
  }

  lemma TailExtended(a: seq<string>, b: seq<string>, more: seq<string>)
    requires TailOf(a, b)
    ensures TailOf(a + more, b + more)
  {
    var x, y := a + more, b + more;
    forall i | 0 < i < |x| ensures x[i] == y[|y| - |x| + i] {
      if i < |a| {
        assert a[i] == b[|b| - |a| + i];
      }
    }
  }

  /** Joined, the last lines are the end of all joined lines. */
  lemma TailIsEnd(tail: seq<string>, lines: seq<string>)
    requires TailOf(tail, lines)
    ensures IsEnd(JoinLines(tail), JoinLines(lines))
  {
    if tail != [] {
      var k := |lines| - |tail|;
      var front, back := lines[..k], lines[k..];
      assert lines == front + back;
      SameBehindFirst(tail, back);
      if front != [] {
        JoinAppend(front, back);
      }
    }
  }

  lemma SameBehindFirst(a: seq<string>, b: seq<string>)
    requires |a| == |b| > 0 && IsEnd(a[0], b[0]) && forall i | 0 < i < |a| :: a[i] == b[i]
    ensures IsEnd(JoinLines(a), JoinLines(b))
  {
    assert a[1..] == b[1..];
  }

  /** What fits of tidy lines is, but for the space a cut line may begin with, made of such last lines. */
  lemma {:induction false} FittingTail(lines: seq<string>, max: nat) returns (tail: seq<string>)
    requires AllTidy(lines)
    ensures AllTidy(tail) && TailOf(tail, lines) && Strip(Fitting(lines, max)) == JoinLines(tail)
    decreases |lines|
  {
    hide Fitting, JoinLines, Tidy, Strip;
    if lines == [] || |JoinLines(lines)| <= max {
      tail := lines;
      NothingToFit(max);
      FittingIfShort(lines, max);
      StripJoined(lines);
    } else {
      FittingStep(lines, max);
      if |lines| > 1 {
        tail := FittingTail(lines[1..], max);
      } else if max == 0 {
        tail := [];
        NothingToFit(max);
        StripJoined([]);
        assert Fitting(lines, max) == "";
      } else {
        tail := [Strip(LastChars(lines[0], max))];
        TailStripped(lines[0], max);
        StripOfTail(lines[0], max);
        OneJoined(tail[0]);
      }
    }
  }

  lemma OneJoined(line: string)
    ensures JoinLines([line]) == line
  {
  }

  lemma StripJoined(lines: seq<string>)
    requires AllTidy(lines)
    ensures Strip(JoinLines(lines)) == JoinLines(lines)
  {
    if lines != [] {
      TidyTrimmed(lines);
      JoinedTrimmed(lines);
    }
    hide Tidy;
    StripFixed(JoinLines(lines));
  }

  lemma TidyTrimmed(lines: seq<string>)
    requires AllTidy(lines)
    ensures forall i | 0 <= i < |lines| :: Trimmed(lines[i])
  {
  }

  /** Whatever the limits were, bounding a tail of the lines with more entries gives a tail of all of them. */
  lemma BoundedTail(existing: string, tail: seq<string>, lines: seq<string>, entries: seq<string>, max: nat)
    returns (next: seq<string>)
    requires AllTidy(tail) && AllTidy(entries) && TailOf(tail, lines) && Strip(existing) == JoinLines(tail)
    ensures AllTidy(next) && TailOf(next, lines + entries) && Strip(Summary(existing, entries, max)) == JoinLines(next)
  {
    hide Fitting, JoinLines, Tidy, Strip, TailOf, Summary;
    StripJoined(tail);
    SameStripped(existing, JoinLines(tail), entries, max);
    if max > 0 {
      SummaryOfTidy(tail, entries, max);
      next := FittingTail(tail + entries, max);
      TailExtended(tail, lines, entries);
      TailsChain(next, tail + entries, lines + entries);
    } else {
      next := [];
      NoTail(existing, lines + entries, entries);
    }
  }

  lemma NoTail(existing: string, lines: seq<string>, entries: seq<string>)
    ensures TailOf([], lines) && Strip(Summary(existing, entries, 0)) == JoinLines([]) && AllTidy([])
  {
  }

  /** Two spaces in a row matter: a cut that falls between them frees a character, so that bounding first keeps
      part of a line that bounding once drops. */
  lemma DoubleSpaceMatters(line: string, entry: string, x: char, y: char)
    requires line == [x, ' ', ' ', y] && |entry| == 1 && !IsSpace(x) && !IsSpace(y) && !IsSpace(entry[0])
    ensures Summary(Summary(line, [], 3), [entry], 3) == [y] + "\n" + entry
    ensures Summary(line, [entry], 3) == entry
  {
    assert IsSpace(' ');
    hide SplitLines, Strip, IsSpace;
    SpacedLine(line, entry, x, y);
    StripFixed(line);
    StripTail(line, y);
    assert Parts(line, []) == [line] && Parts(line, [entry]) == [line, entry] by {
      TwoParts(line, entry);
    }
    assert Parts(line[1..], [entry]) == [[y], entry] by {
      TwoParts(line[1..], entry);
    }
    FourThenOne(line, entry, y);
  }

  lemma TwoParts(a: string, b: string)
    requires Strip(a) != "" && b != ""
    ensures Parts(a, []) == [Strip(a)] && Parts(a, [b]) == [Strip(a), b]
  {
    hide Strip;
    var t := Strip(a);
    FilterAll([t]);
    FilterAll([t, b]);
    assert [t] + [] == [t] && [t] + [b] == [t, b];
  }

  lemma FourThenOne(line: string, entry: string, y: char)
    requires |line| == 4 && |entry| == 1
    ensures |JoinLines([line])| == 4 && Fitting([line], 3) == line[1..]
    ensures |JoinLines([line, entry])| == 6 && Fitting([line, entry], 3) == entry
    ensures JoinLines([[y], entry]) == [y] + "\n" + entry
  {
    assert [line, entry][1..] == [entry] && [[y], entry][1..] == [entry];
    assert JoinLines([entry]) == entry;
  }

  lemma SpacedLine(line: string, entry: string, x: char, y: char)
    requires line == [x, ' ', ' ', y] && |entry| == 1 && !IsSpace(x) && !IsSpace(y) && !IsSpace(entry[0])
    ensures SplitLines(JoinLines([line])) == [line] && SplitLines(JoinLines([line, entry])) == [line, entry]
  {
    hide SplitLines;
    assert OneLine(line) && OneLine(entry);
    SplitJoined([line]);
    SplitJoined([line, entry]);
  }

  lemma StripTail(line: string, y: char)
    requires |line| == 4 && IsSpace(line[1]) && IsSpace(line[2]) && line[3] == y && !IsSpace(y)
    ensures Strip(line[1..]) == [y]
  {
    hide IsSpace;
    assert line[1..][1..][1..] == [y];
    TrimOne(line[1..]);
    TrimOne(line[1..][1..]);
    assert [y][0] == y;
    StripFixed([y]);
    assert TrimLeft([y]) == [y];
  }

  lemma TrimOne(s: string)
    requires s != "" && IsSpace(s[0])
    ensures TrimLeft(s) == TrimLeft(s[1..])
  {
  }
}
