/**
 * What `parseTimelineText` guarantees about the markers it returns: every
 * marker comes from the accumulators (seconds converted from its own time,
 * label and description cleaned), every time is a `DD:DD` token except
 * possibly the first marker's, there are at most one more markers than
 * time-range lines, they come out in input order, and lines of each kind
 * affect the accumulators as the loop's branches say.
 */
module TimelineProperties {
  import opened Wrappers
  import opened Text
  import opened TimelineParser

  /** The start times captured from the time-range lines among `lines`, in order. */
  function StartTimes(lines: seq<string>): (r: seq<string>)
    ensures forall k :: 0 <= k < |r| ==> IsClock(r[k])
    ensures |r| <= |lines|
  {
    if lines == [] then
      []
    else
      var earlier := StartTimes(lines[..|lines| - 1]);
      match TimeRangeStart(lines[|lines| - 1])
      case Some(t) => earlier + [t]
      case None => earlier
  }

  /** The `time` fields of a list of markers. */
  function Times(ms: seq<Marker>): (r: seq<string>)
    ensures |r| == |ms| && forall k :: 0 <= k < |ms| ==> r[k] == ms[k].time
  {
    seq(|ms|, k requires 0 <= k < |ms| => ms[k].time)
  }

  /** `a` can be obtained from `b` by deleting elements: its elements occur in `b` in the same order. */
  ghost predicate IsSubsequence(a: seq<string>, b: seq<string>)
  {
    if b == [] then
      a == []
    else
      || (a != [] && a[|a| - 1] == b[|b| - 1] && IsSubsequence(a[..|a| - 1], b[..|b| - 1]))
      || IsSubsequence(a, b[..|b| - 1])
  }

  lemma {:induction false} SubsequenceDropLast(a: seq<string>, y: string, b: seq<string>)
    requires IsSubsequence(a + [y], b)
    ensures IsSubsequence(a, b)
  {
    if b != [] {
      var b' := b[..|b| - 1];
      assert (a + [y])[..|a + [y]| - 1] == a;
      if IsSubsequence(a + [y], b') {
        SubsequenceDropLast(a, y, b');
      }
    }
  }

  lemma SubsequenceAppend(a: seq<string>, b: seq<string>, x: string)
    requires IsSubsequence(a, b)
    ensures IsSubsequence(a + [x], b + [x])
  {
    assert (a + [x])[..|a + [x]| - 1] == a;
    assert (b + [x])[..|b + [x]| - 1] == b;
  }

  /** `m` was pushed from accumulators holding a non-empty label. */
  ghost predicate Pushed(m: Marker)
  {
    exists start, title, desc {:trigger MarkerOf(start, title, desc)} ::
      title != "" && m == MarkerOf(start, title, desc)
  }

  /** What holds of the loop's state after it has visited `lines`. */
  ghost predicate Invariant(a: Acc, lines: seq<string>)
  {
    var starts := StartTimes(lines);
    && a.start == (if starts == [] then "" else starts[|starts| - 1])
    && |a.markers| <= |starts|
    && (forall k :: 0 <= k < |a.markers| ==> Pushed(a.markers[k]))
    && (forall k :: 0 <= k < |a.markers| ==> IsClock(a.markers[k].time) || (k == 0 && a.markers[k].time == ""))
    && IsSubsequence(Times(a.markers) + [a.start], [""] + starts)
  }

  lemma TimesAppend(ms: seq<Marker>, m: Marker)
    ensures Times(ms + [m]) == Times(ms) + [m.time]
  {
  }

  lemma StepInvariant(a: Acc, lines: seq<string>, line: string)
    requires Invariant(a, lines)
    ensures Invariant(Step(a, line), lines + [line])
  {
    assert (lines + [line])[..|lines|] == lines;
    if TimeRangeStart(line).Some? {
      RangeLineInvariant(a, lines, line);
    } else {
      assert StartTimes(lines + [line]) == StartTimes(lines);
      var b := Step(a, line);
      assert b.markers == a.markers && b.start == a.start;
    }
  }

  lemma RangeLineInvariant(a: Acc, lines: seq<string>, line: string)
    requires Invariant(a, lines) && TimeRangeStart(line).Some?
    ensures Invariant(Step(a, line), lines + [line])
  {
    var starts := StartTimes(lines);
    var t := TimeRangeStart(line).value;
    assert (lines + [line])[..|lines|] == lines;
    var starts' := StartTimes(lines + [line]);
    assert starts' == starts + [t];
    assert [""] + starts' == ([""] + starts) + [t];
    var b := Step(a, line);
    assert b.start == t && b.start == starts'[|starts'| - 1];
    if a.title != "" {
      var m := MarkerOf(a.start, a.title, a.desc);
      assert b.markers == a.markers + [m];
      assert Pushed(m);
      TimesAppend(a.markers, m);
      SubsequenceAppend(Times(a.markers) + [a.start], [""] + starts, t);
      assert IsSubsequence(Times(b.markers) + [b.start], [""] + starts');
      assert a.start == "" ==> a.markers == [];
      MarkersAppend(a.markers, m);
    } else {
      assert b.markers == a.markers;
      SubsequenceDropLast(Times(a.markers), a.start, [""] + starts);
      SubsequenceAppend(Times(a.markers), [""] + starts, t);
    }
  }

  /** Appending a pushed marker keeps every marker pushed, with a clock time unless it is the very first. */
  lemma MarkersAppend(ms: seq<Marker>, m: Marker)
    requires forall k :: 0 <= k < |ms| ==> Pushed(ms[k])
    requires forall k :: 0 <= k < |ms| ==> IsClock(ms[k].time) || (k == 0 && ms[k].time == "")
    requires Pushed(m) && (IsClock(m.time) || (ms == [] && m.time == ""))
    ensures forall k :: 0 <= k < |ms + [m]| ==> Pushed((ms + [m])[k])
    ensures forall k :: 0 <= k < |ms + [m]| ==> IsClock((ms + [m])[k].time) || (k == 0 && (ms + [m])[k].time == "")
  {
    forall k | 0 <= k < |ms + [m]|
      ensures Pushed((ms + [m])[k])
      ensures IsClock((ms + [m])[k].time) || (k == 0 && (ms + [m])[k].time == "")
    {
      if k < |ms| {
        assert (ms + [m])[k] == ms[k];
      } else {
        assert (ms + [m])[k] == m;
      }
    }
  }

  /** The loop invariant, for every number of lines visited. */
  lemma {:induction false} FoldInvariant(lines: seq<string>)
    ensures Invariant(Fold(lines), lines)
  {
    if lines == [] {
      assert Times([]) + [""] == [""] + [];
      assert IsSubsequence([], []);
    } else {
      var init := lines[..|lines| - 1];
      FoldInvariant(init);
      DropLast(lines);
      StepInvariant(Fold(init), init, lines[|lines| - 1]);
    }
  }

  /** The seconds of a pushed marker whose time is a clock token or empty. */
  lemma PushedSeconds(m: Marker)
    requires Pushed(m) && (IsClock(m.time) || m.time == "")
    ensures m.seconds == TimeStringToSeconds(m.time)
    ensures m.seconds.Finite? && 0 <= m.seconds.value <= 99 * 60 + 99
    ensures m.time == "" ==> m.seconds == Finite(0)
    ensures NoBold(m.title) && Trimmed(m.title) && NoBold(m.desc) && Trimmed(m.desc)
  {
    if IsClock(m.time) {
      ClockSeconds(m.time);
    }
  }

  /**
   * Every marker `parseTimelineText` returns was pushed from the
   * accumulators: its seconds are `timeStringToSeconds` of its time, its
   * label is the cleaned form of a non-empty raw label and its description
   * the cleaned form of the raw description. Its time is a `DD:DD` token,
   * except that the first marker may have the empty time (a plain line
   * before the first time range became its label), and its seconds lie
   * between 0 and 99 * 60 + 99 (0 for the empty time).
   */
  lemma ParsedMarkers(text: string)
    ensures var r := Parse(text);
      forall k :: 0 <= k < |r| ==>
        && Pushed(r[k])
        && r[k].seconds == TimeStringToSeconds(r[k].time)
        && NoBold(r[k].title) && Trimmed(r[k].title) && NoBold(r[k].desc) && Trimmed(r[k].desc)
        && (IsClock(r[k].time) || (k == 0 && r[k].time == "" && r[k].seconds == Finite(0)))
        && r[k].seconds.Finite? && 0 <= r[k].seconds.value <= 99 * 60 + 99
  {
    if text != "" {
      var lines := Lines(text);
      FoldInvariant(lines);
      FinishMarkers(Fold(lines), lines);
    }
  }

  /** The final flush keeps the loop invariant's facts about the markers. */
  lemma FinishMarkers(a: Acc, lines: seq<string>)
    requires Invariant(a, lines)
    ensures var r := Finish(a);
      forall k :: 0 <= k < |r| ==>
        && Pushed(r[k])
        && r[k].seconds == TimeStringToSeconds(r[k].time)
        && NoBold(r[k].title) && Trimmed(r[k].title) && NoBold(r[k].desc) && Trimmed(r[k].desc)
        && (IsClock(r[k].time) || (k == 0 && r[k].time == "" && r[k].seconds == Finite(0)))
        && r[k].seconds.Finite? && 0 <= r[k].seconds.value <= 99 * 60 + 99
  {
    var r := Finish(a);
    if a.title != "" && a.start != "" {
      var m := MarkerOf(a.start, a.title, a.desc);
      assert Pushed(m);
      assert r == a.markers + [m];
      MarkersAppend(a.markers, m);
    }
    assert forall k :: 0 <= k < |r| ==> Pushed(r[k]) && (IsClock(r[k].time) || (k == 0 && r[k].time == ""));
    forall k | 0 <= k < |r|
      ensures r[k].seconds == TimeStringToSeconds(r[k].time)
      ensures NoBold(r[k].title) && Trimmed(r[k].title) && NoBold(r[k].desc) && Trimmed(r[k].desc)
      ensures r[k].seconds.Finite? && 0 <= r[k].seconds.value <= 99 * 60 + 99
      ensures r[k].time == "" ==> r[k].seconds == Finite(0)
    {
      PushedSeconds(r[k]);
    }
  }

  /**
   * At most one marker more than there are time-range lines; none at all
   * when there is no time-range line (in particular for the empty text).
   */
  lemma MarkerCount(text: string)
    ensures |Parse(text)| <= |StartTimes(Lines(text))| + 1
    ensures StartTimes(Lines(text)) == [] ==> Parse(text) == []
  {
    if text != "" {
      FoldInvariant(Lines(text));
    }
  }

  /** A text none of whose lines contains a time range yields no marker. */
  lemma NoTimeRangeNoMarkers(text: string)
    requires forall k :: 0 <= k < |Lines(text)| ==> TimeRangeStart(Lines(text)[k]).None?
    ensures Parse(text) == []
  {
    NoStartTimes(Lines(text));
    MarkerCount(text);
  }

  lemma {:induction false} NoStartTimes(lines: seq<string>)
    requires forall k :: 0 <= k < |lines| ==> TimeRangeStart(lines[k]).None?
    ensures StartTimes(lines) == []
  {
    if lines != [] {
      NoStartTimes(lines[..|lines| - 1]);
    }
  }

  /**
   * Markers come out in input order, never sorted: their times occur, in the
   * same order, in the list of start times of the time-range lines (preceded
   * by the empty time of an implicit first marker).
   */
  lemma MarkersInInputOrder(text: string)
    ensures IsSubsequence(Times(Parse(text)), [""] + StartTimes(Lines(text)))
  {
    var starts := StartTimes(Lines(text));
    if text == "" {
      EmptySubsequence([""] + starts);
    } else {
      var a := Fold(Lines(text));
      FoldInvariant(Lines(text));
      if a.title != "" && a.start != "" {
        TimesAppend(a.markers, MarkerOf(a.start, a.title, a.desc));
      } else {
        SubsequenceDropLast(Times(a.markers), a.start, [""] + starts);
      }
    }
  }

  lemma {:induction false} EmptySubsequence(b: seq<string>)
    ensures IsSubsequence([], b)
  {
    if b != [] {
      EmptySubsequence(b[..|b| - 1]);
    }
  }

  /** Visiting more lines only appends markers: earlier markers are never removed or reordered. */
  lemma {:induction false} MarkersOnlyGrow(lines: seq<string>, more: seq<string>)
    ensures Fold(lines).markers <= Fold(lines + more).markers
  {
    if more == [] {
      assert lines + more == lines;
    } else {
      var init, last := more[..|more| - 1], more[|more| - 1];
      var a := Fold(lines + init);
      MarkersOnlyGrow(lines, init);
      AppendSnoc(lines, more);
      FoldSnoc(lines + init, last);
      StepMarkersGrow(a, last);
      PrefixTransitive(Fold(lines).markers, a.markers, Fold(lines + more).markers);
    }
  }

  lemma PrefixTransitive(a: seq<Marker>, b: seq<Marker>, c: seq<Marker>)
    requires a <= b && b <= c
    ensures a <= c
  {
    assert c[..|a|] == c[..|b|][..|a|];
  }

  /** `Fold` visits the last line last. */
  lemma FoldSnoc(lines: seq<string>, line: string)
    ensures Fold(lines + [line]) == Step(Fold(lines), line)
  {
    assert (lines + [line])[..|lines|] == lines;
  }

  /** One step keeps the markers already pushed, possibly appending one. */
  lemma StepMarkersGrow(a: Acc, line: string)
    ensures a.markers <= Step(a, line).markers
    ensures |Step(a, line).markers| <= |a.markers| + 1
  {
  }

  /** A line that starts with '#' and holds no time range can be deleted without changing the result. */
  lemma HeaderLineIgnored(before: seq<string>, header: string, after: seq<string>)
    requires StartsWith(header, "#") && TimeRangeStart(header).None?
    ensures Fold(before + [header] + after) == Fold(before + after)
  {
    FoldSnoc(before, header);
    HeaderStep(Fold(before), header);
    FoldSameAppend(before + [header], before, after);
  }

  /** Line lists that fold to the same state still do so after the same further lines. */
  lemma {:induction false} FoldSameAppend(xs: seq<string>, ys: seq<string>, zs: seq<string>)
    requires Fold(xs) == Fold(ys)
    ensures Fold(xs + zs) == Fold(ys + zs)
    decreases |zs|
  {
    if zs == [] {
      assert xs + zs == xs && ys + zs == ys;
    } else {
      var init, last := zs[..|zs| - 1], zs[|zs| - 1];
      FoldSameAppend(xs, ys, init);
      AppendSnoc(xs, zs);
      AppendSnoc(ys, zs);
      FoldSameSnoc(xs + init, ys + init, last);
    }
  }

  /** Splitting off the last element of the second operand of a concatenation. */
  lemma AppendSnoc(xs: seq<string>, zs: seq<string>)
    requires zs != []
    ensures xs + zs == (xs + zs[..|zs| - 1]) + [zs[|zs| - 1]]
  {
    assert zs == zs[..|zs| - 1] + [zs[|zs| - 1]];
  }

  /** A non-empty sequence is its front followed by its last element. */
  lemma DropLast(xs: seq<string>)
    requires xs != []
    ensures xs[..|xs| - 1] + [xs[|xs| - 1]] == xs
  {
  }

  lemma FoldSameSnoc(xs: seq<string>, ys: seq<string>, line: string)
    requires Fold(xs) == Fold(ys)
    ensures Fold(xs + [line]) == Fold(ys + [line])
  {
    FoldSnoc(xs, line);
    FoldSnoc(ys, line);
  }

  /** A header line on its own leaves the state as it is. */
  lemma HeaderStep(a: Acc, header: string)
    requires StartsWith(header, "#") && TimeRangeStart(header).None?
    ensures Step(a, header) == a
  {
    assert !StartsWith(header, ">");
  }

  /** A '>' line with a non-empty remainder replaces the description; it does not append. */
  lemma DescriptionLineReplaces(a: Acc, line: string)
    requires TimeRangeStart(line).None? && StartsWith(line, ">") && Trim(line[1..]) != ""
    ensures Step(a, line) == a.(desc := Trim(line[1..]))
  {
  }

  /** A '>' line whose remainder is blank changes nothing. */
  lemma BlankDescriptionLineIgnored(a: Acc, line: string)
    requires TimeRangeStart(line).None? && StartsWith(line, ">") && Trim(line[1..]) == ""
    ensures Step(a, line) == a
  {
  }

  /**
   * A time-range line pushes the pending marker when it has a label, then
   * starts a new one: its start time is the captured group, its label is
   * read from the same line (or empty) and its description is reset.
   */
  lemma TimeRangeLineStartsMarker(a: Acc, line: string)
    requires TimeRangeStart(line).Some?
    ensures var b := Step(a, line);
      && b.start == TimeRangeStart(line).value
      && b.desc == ""
      && (LabelMatch(line).None? ==> b.title == "")
      && (LabelMatch(line).Some? ==> b.title == Trim(LabelMatch(line).value))
      && (a.title != "" ==> b.markers == a.markers + [MarkerOf(a.start, a.title, a.desc)])
      && (a.title == "" ==> b.markers == a.markers)
  {
  }

  /** A plain line becomes the label only while the label is empty; otherwise it is ignored. */
  lemma PlainLineSetsEmptyLabel(a: Acc, line: string)
    requires TimeRangeStart(line).None? && !StartsWith(line, ">") && !StartsWith(line, "#") && line != ""
    ensures Step(a, line) == if a.title == "" then a.(title := line) else a
  {
  }

  // ---------------------------------------------------------------------------
  // Canonical lines and a worked example

  /** The lines the loop visits are exactly the pieces of a text joined with '\n' when every piece is already trimmed and non-empty. */
  lemma LinesOfJoined(parts: seq<string>)
    requires |parts| >= 1
    requires forall k :: 0 <= k < |parts| ==> parts[k] != "" && Trimmed(parts[k]) && '\n' !in parts[k]
    ensures Lines(Join(parts, '\n')) == parts
  {
    SplitJoin(parts, '\n');
    NonBlankKeeps(parts);
    var r := Lines(Join(parts, '\n'));
    assert |r| == |parts|;
    forall k | 0 <= k < |parts| ensures r[k] == parts[k] {
      TrimOfTrimmed(parts[k]);
    }
  }

  lemma {:induction false} NonBlankKeeps(lines: seq<string>)
    requires forall k :: 0 <= k < |lines| ==> lines[k] != "" && Trimmed(lines[k])
    ensures NonBlank(lines) == lines
  {
    if lines != [] {
      NonBlankKeeps(lines[1..]);
      TrimOfTrimmed(lines[0]);
      assert lines == [lines[0]] + lines[1..];
    }
  }

  /** A line without '[' from position `i` on holds no time range there. */
  lemma {:induction false} NoRangeWithoutBracket(line: string, i: nat)
    requires i <= |line| && forall k :: i <= k < |line| ==> line[k] != '['
    ensures FindRange(line, i).None?
    decreases |line| - i
  {
    if i < |line| {
      NoRangeWithoutBracket(line, i + 1);
    }
  }

  /** Positions where no label match begins are skipped by the leftmost search. */
  lemma {:induction false} FindLabelFrom(line: string, j: nat, j': nat)
    requires j < j' <= |line|
    requires forall p :: j <= p < j' ==> LabelAt(line, p).None?
    ensures FindLabel(line, j) == FindLabel(line, j')
    decreases j' - j
  {
    FindLabelStep(line, j);
    if j + 1 < j' {
      FindLabelFrom(line, j + 1, j');
    }
  }

  lemma FindLabelStep(line: string, j: nat)
    requires j < |line| && LabelAt(line, j).None?
    ensures FindLabel(line, j) == FindLabel(line, j + 1)
  {
  }

  /** The time-range line `[t1] - [t2] : label` as the timeline texts write it. */
  function RangeLine(t1: string, t2: string, title: string): string
  {
    "[" + t1 + "] - [" + t2 + "] : " + title
  }

  /** A canonical time-range line starts at its first clock and is labelled with what follows the colon. */
  lemma RangeLineMatches(t1: string, t2: string, title: string)
    requires IsClock(t1) && IsClock(t2) && title != [] && !IsSpace(title[0])
    requires forall p :: 0 <= p < |title| ==> !IsLineTerminator(title[p])
    ensures TimeRangeStart(RangeLine(t1, t2, title)) == Some(t1)
    ensures LabelMatch(RangeLine(t1, t2, title)) == Some(title)
  {
    RangeLineStart(t1, t2, title);
    RangeLineLabel(t1, t2, title);
  }

  /** The characters of a time-range line, position by position. */
  lemma RangeLineShape(t1: string, t2: string, title: string)
    requires |t1| == 5 && |t2| == 5
    ensures var line := RangeLine(t1, t2, title);
      |line| == 20 + |title| &&
      line[0] == '[' && line[1..6] == t1 && line[6] == ']' && line[7] == ' ' && line[8] == '-' &&
      line[9] == ' ' && line[10] == '[' && line[11..16] == t2 && line[16] == ']' &&
      line[17] == ' ' && line[18] == ':' && line[19] == ' ' && line[20..] == title
  {
  }

  lemma RangeLineStart(t1: string, t2: string, title: string)
    requires IsClock(t1) && IsClock(t2)
    ensures TimeRangeStart(RangeLine(t1, t2, title)) == Some(t1)
  {
    var line := RangeLine(t1, t2, title);
    RangeLineShape(t1, t2, title);
    assert SkipSpace(line, 7) == 8;
    assert SkipSpace(line, 9) == 10;
    assert RangeAt(line, 0) == Some(t1);
  }

  lemma RangeLineLabel(t1: string, t2: string, title: string)
    requires IsClock(t1) && IsClock(t2) && title != [] && !IsSpace(title[0])
    requires forall p :: 0 <= p < |title| ==> !IsLineTerminator(title[p])
    ensures LabelMatch(RangeLine(t1, t2, title)) == Some(title)
  {
    var line := RangeLine(t1, t2, title);
    RangeLineNoEarlyLabel(t1, t2, title);
    FindLabelFrom(line, 0, 16);
    RangeLineLabelAt(t1, t2, title);
    RangeLineShape(t1, t2, title);
    assert FindLabel(line, 16) == LabelAt(line, 16);
  }

  /** No `]` before the second time's closes a `] : label` match. */
  lemma RangeLineNoEarlyLabel(t1: string, t2: string, title: string)
    requires IsClock(t1) && IsClock(t2)
    ensures forall p :: 0 <= p < 16 ==> LabelAt(RangeLine(t1, t2, title), p).None?
  {
    RangeLineFirstClose(t1, t2, title);
    RangeLineBrackets(t1, t2, title);
  }

  /** Before position 16 the only `]` is the one closing the first time, at 6. */
  lemma RangeLineBrackets(t1: string, t2: string, title: string)
    requires IsClock(t1) && IsClock(t2)
    ensures |RangeLine(t1, t2, title)| > 16
    ensures forall p :: 0 <= p < 16 && p != 6 ==> RangeLine(t1, t2, title)[p] != ']'
  {
    var line := RangeLine(t1, t2, title);
    RangeLineShape(t1, t2, title);
    forall p | 0 <= p < 16 && p != 6 ensures line[p] != ']' {
      if 1 <= p < 6 {
        assert line[p] == t1[p - 1];
      } else if 11 <= p < 16 {
        assert line[p] == t2[p - 11];
      }
    }
  }

  /** The `]` closing the first time is followed by `-`, not by `:`. */
  lemma RangeLineFirstClose(t1: string, t2: string, title: string)
    requires IsClock(t1) && IsClock(t2)
    ensures LabelAt(RangeLine(t1, t2, title), 6).None?
  {
    RangeLineShape(t1, t2, title);
    assert SkipSpace(RangeLine(t1, t2, title), 7) == 8;
  }

  /** The `]` closing the second time starts the label match. */
  lemma RangeLineLabelAt(t1: string, t2: string, title: string)
    requires IsClock(t1) && IsClock(t2) && title != [] && !IsSpace(title[0])
    requires forall p :: 0 <= p < |title| ==> !IsLineTerminator(title[p])
    ensures LabelAt(RangeLine(t1, t2, title), 16) == Some(title)
  {
    var line := RangeLine(t1, t2, title);
    RangeLineShape(t1, t2, title);
    assert SkipSpace(line, 17) == 18;
    assert SkipSpace(line, 19) == 20;
    forall p | 20 <= p < |line| ensures !IsLineTerminator(line[p]) {
      assert line[p] == title[p - 20];
    }
  }

  /** The description line `> desc`. */
  function DescLine(desc: string): string
  {
    "> " + desc
  }

  /** A description line with a trimmed, non-empty text and no '[' sets the description to that text. */
  lemma DescLineSets(a: Acc, desc: string)
    requires desc != "" && Trimmed(desc) && '[' !in desc
    ensures Step(a, DescLine(desc)) == a.(desc := desc)
  {
    var line := DescLine(desc);
    NoRangeWithoutBracket(line, 0);
    assert line[1..] == [' '] + desc;
    assert TrimStart(line[1..]) == desc;
    TrimOfTrimmed(desc);
  }

  /** Removing the bold markers around a star-free text gives the text. */
  lemma {:induction false} StripBoldAround(s: string)
    requires '*' !in s
    ensures StripBold("**" + s + "**") == s
  {
    assert ("**" + s + "**")[2..] == s + "**";
    StripBoldBefore(s);
  }

  lemma {:induction false} StripBoldBefore(s: string)
    requires '*' !in s
    ensures StripBold(s + "**") == s
  {
    if s == [] {
      assert s + "**" == "**";
      assert StripBold("**"[2..]) == [];
    } else {
      assert (s + "**")[1..] == s[1..] + "**";
      StripBoldBefore(s[1..]);
      assert s == [s[0]] + s[1..];
    }
  }

  /** What a timeline text may put after `: ` in a canonical time-range line. */
  predicate LabelText(title: string)
  {
    title != [] && Trimmed(title) && forall p :: 0 <= p < |title| ==> !IsLineTerminator(title[p])
  }

  /** What a timeline text may put after `> ` in a canonical description line. */
  predicate DescText(desc: string)
  {
    desc != [] && Trimmed(desc) && '[' !in desc && '\n' !in desc
  }

  /**
   * Two markers, each written as a time-range line followed by a description
   * line, come out as two markers in that order, each with its own label and
   * description.
   */
  lemma TwoMarkers(t1: string, t2: string, title1: string, desc1: string,
                   t3: string, t4: string, title2: string, desc2: string)
    requires IsClock(t1) && IsClock(t2) && IsClock(t3) && IsClock(t4)
    requires LabelText(title1) && LabelText(title2) && DescText(desc1) && DescText(desc2)
    ensures Parse(Join([RangeLine(t1, t2, title1), DescLine(desc1), RangeLine(t3, t4, title2), DescLine(desc2)], '\n'))
         == [MarkerOf(t1, title1, desc1), MarkerOf(t3, title2, desc2)]
  {
    var l1, l2, l3, l4 := RangeLine(t1, t2, title1), DescLine(desc1), RangeLine(t3, t4, title2), DescLine(desc2);
    var lines := [l1, l2, l3, l4];
    CanonicalLine(t1, t2, title1);
    CanonicalLine(t3, t4, title2);
    DescLineTrimmed(desc1);
    DescLineTrimmed(desc2);
    LinesOfJoined(lines);
    RangeLineMatches(t1, t2, title1);
    RangeLineMatches(t3, t4, title2);
    TrimOfTrimmed(title1);
    TrimOfTrimmed(title2);
    var text := Join(lines, '\n');
    assert text == l1 + "\n" + Join(lines[1..], '\n');
    assert Parse(text) == Finish(Fold(lines));
    FinishTwoPairs(l1, l2, l3, l4, t1, title1, desc1, t3, title2, desc2);
  }

  /** Two time-range lines, each followed by a description line, flush to two markers. */
  lemma FinishTwoPairs(l1: string, l2: string, l3: string, l4: string,
                       t1: string, title1: string, desc1: string, t3: string, title2: string, desc2: string)
    requires t3 != ""
    requires TimeRangeStart(l1) == Some(t1) && LabelMatch(l1) == Some(title1) && Trim(title1) == title1 && title1 != ""
    requires TimeRangeStart(l3) == Some(t3) && LabelMatch(l3) == Some(title2) && Trim(title2) == title2 && title2 != ""
    requires DescLine(desc1) == l2 && DescText(desc1) && DescLine(desc2) == l4 && DescText(desc2)
    ensures Finish(Fold([l1, l2, l3, l4])) == [MarkerOf(t1, title1, desc1), MarkerOf(t3, title2, desc2)]
  {
    var first, lines := [l1, l2], [l1, l2, l3, l4];
    var m1, m2 := MarkerOf(t1, title1, desc1), MarkerOf(t3, title2, desc2);
    assert first + [l3, l4] == lines;
    assert [] + [m1] == [m1] && [m1] + [m2] == [m1, m2];
    FoldFirstPair(l1, l2, t1, title1, desc1);
    var a2 := Acc([], t1, title1, desc1);
    FoldRangeDesc(a2, first, l3, l4, t3, title2, desc2);
    assert Fold(lines) == Acc([m1], t3, title2, desc2);
    FinishPushes(Fold(lines));
  }

  lemma FoldFirstPair(l1: string, l2: string, t1: string, title1: string, desc1: string)
    requires TimeRangeStart(l1) == Some(t1) && LabelMatch(l1) == Some(title1) && Trim(title1) == title1
    requires DescLine(desc1) == l2 && DescText(desc1)
    ensures Fold([l1, l2]) == Acc([], t1, title1, desc1)
  {
    assert [] + [l1, l2] == [l1, l2];
    FoldRangeDesc(Start, [], l1, l2, t1, title1, desc1);
  }

  /**
   * The final flush pushes the pending marker exactly when it has a label
   * and a start time; otherwise the markers are returned as they are.
   */
  lemma FinishPushes(a: Acc)
    ensures a.title != "" && a.start != "" ==> Finish(a) == a.markers + [MarkerOf(a.start, a.title, a.desc)]
    ensures !(a.title != "" && a.start != "") ==> Finish(a) == a.markers
  {
  }

  /**
   * A time-range line followed by a description line: the pending marker is
   * pushed (when it has a label) and a new one is opened with the line's
   * start time, label and description.
   */
  lemma FoldRangeDesc(a: Acc, lines: seq<string>, range: string, desc: string,
                      t: string, title: string, text: string)
    requires Fold(lines) == a
    requires TimeRangeStart(range) == Some(t) && LabelMatch(range) == Some(title) && Trim(title) == title
    requires DescLine(text) == desc && DescText(text)
    ensures Fold(lines + [range, desc])
         == Acc(if a.title != "" then a.markers + [MarkerOf(a.start, a.title, a.desc)] else a.markers, t, title, text)
  {
    FoldSnoc(lines, range);
    var b := Step(a, range);
    TimeRangeLineStartsMarker(a, range);
    assert b == Acc(if a.title != "" then a.markers + [MarkerOf(a.start, a.title, a.desc)] else a.markers, t, title, "");
    FoldSnoc(lines + [range], desc);
    DescLineSets(b, text);
    assert lines + [range] + [desc] == lines + [range, desc];
  }

  /** A canonical time-range line is non-empty, trimmed and one line long. */
  lemma CanonicalLine(t1: string, t2: string, title: string)
    requires IsClock(t1) && IsClock(t2) && LabelText(title)
    ensures var line := RangeLine(t1, t2, title);
      line != "" && Trimmed(line) && '\n' !in line
  {
    var line := RangeLine(t1, t2, title);
    assert line[|line| - 1] == title[|title| - 1];
    assert line == "[" + t1 + "] - [" + t2 + "] : " + title;
    assert '\n' !in t1 && '\n' !in t2 && '\n' !in title;
  }

  lemma DescLineTrimmed(desc: string)
    requires DescText(desc)
    ensures DescLine(desc) != "" && Trimmed(DescLine(desc)) && '\n' !in DescLine(desc)
  {
    assert DescLine(desc)[|DescLine(desc)| - 1] == desc[|desc| - 1];
  }

  /**
   * A label written in bold between two `**` pairs, such as `**Intro**`,
   * reaches the marker without the asterisks; a plain description is kept.
   */
  lemma BoldTitleMarker(start: string, title: string, desc: string)
    requires '*' !in title && Trimmed(title) && '*' !in desc && Trimmed(desc)
    ensures MarkerOf(start, "**" + title + "**", desc) == Marker(start, TimeStringToSeconds(start), title, desc)
  {
    CleanBold(title);
    CleanPlain(desc);
    MarkerFields(start, "**" + title + "**", desc, TimeStringToSeconds(start), title, desc);
  }

  /** `MarkerOf` field by field. */
  lemma MarkerFields(start: string, title: string, desc: string, seconds: Number, cleanTitle: string, cleanDesc: string)
    requires TimeStringToSeconds(start) == seconds && CleanMarkdown(title) == cleanTitle && CleanMarkdown(desc) == cleanDesc
    ensures MarkerOf(start, title, desc) == Marker(start, seconds, cleanTitle, cleanDesc)
  {
  }

  /** A label written in bold is cleaned to the label itself. */
  lemma CleanBold(s: string)
    requires '*' !in s && Trimmed(s)
    ensures CleanMarkdown("**" + s + "**") == s
  {
    StripBoldAround(s);
    CleanPlain(s);
  }
}
