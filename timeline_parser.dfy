/**
 * The timeline text parser: `timeStringToSeconds`, `cleanMarkdown` and
 * `parseTimelineText` of src/utils/timelineParser.js.
 *
 * `ParseTimelineText` is the source's single loop over the trimmed, non-blank
 * lines with its three accumulators; `Parse` is the same computation written
 * as a left fold (`Fold` of `Step` over the lines, then `Finish`), and the
 * method is proved to compute it. The properties of `Parse` are proved in
 * module TimelineProperties.
 */
module TimelineParser {
  import opened Wrappers
  import opened Text

  /** A JavaScript number as the parser can produce one: an integer or NaN. */
  datatype Number = Finite(value: int) | NaN

  /** Length of the longest prefix of `s` made of decimal digits. */
  function DigitPrefix(s: string): (n: nat)
    ensures n <= |s| && AllDigits(s[..n])
    ensures n < |s| ==> !IsDigit(s[n])
    ensures AllDigits(s) ==> n == |s|
  {
    if s != [] && IsDigit(s[0]) then
      var m := DigitPrefix(s[1..]);
      assert s[..1 + m] == [s[0]] + s[1..][..m];
      1 + m
    else
      0
  }

  /**
   * `parseInt(s, 10)`: leading whitespace is skipped, then an optional sign,
   * then the longest run of decimal digits is read; with no digit at all the
   * result is NaN.
   */
  function ParseInt(s: string): (r: Number)
    ensures s != [] && AllDigits(s) ==> r == Finite(DigitsValue(s))
    ensures AllSpace(s) ==> r == NaN
  {
    var t := TrimStart(s);
    TrimStartOfSpace(s);
    var negative := t != [] && t[0] == '-';
    var body := if t != [] && (t[0] == '-' || t[0] == '+') then t[1..] else t;
    var n := DigitPrefix(body);
    if n == 0 then NaN
    else if negative then Finite(-(DigitsValue(body[..n]) as int))
    else
      assert AllDigits(s) && s != [] ==> t == s && body == s && body[..n] == s;
      Finite(DigitsValue(body[..n]))
  }

  /**
   * `timeStringToSeconds`: the string is split at ':' and every piece read
   * with `parseInt`; two pieces are minutes and seconds, three are hours,
   * minutes and seconds, and any other number of pieces gives 0.
   */
  function TimeStringToSeconds(timeString: string): (r: Number)
    ensures Count(timeString, ':') != 1 && Count(timeString, ':') != 2 ==> r == Finite(0)
  {
    var parts := Split(timeString, ':');
    if |parts| == 2 then
      var minutes, seconds := ParseInt(parts[0]), ParseInt(parts[1]);
      if minutes.Finite? && seconds.Finite? then Finite(minutes.value * 60 + seconds.value) else NaN
    else if |parts| == 3 then
      var hours, minutes, seconds := ParseInt(parts[0]), ParseInt(parts[1]), ParseInt(parts[2]);
      if hours.Finite? && minutes.Finite? && seconds.Finite? then
        Finite(hours.value * 3600 + minutes.value * 60 + seconds.value)
      else
        NaN
    else
      Finite(0)
  }

  /** Two colon-separated digit groups `m:s` are `m * 60 + s` seconds. */
  lemma MinutesSeconds(m: string, s: string)
    requires m != [] && AllDigits(m) && s != [] && AllDigits(s)
    ensures TimeStringToSeconds(m + ":" + s) == Finite(DigitsValue(m) * 60 + DigitsValue(s))
  {
    NoColonInDigits(m);
    NoColonInDigits(s);
    SplitTwoPieces(m, s, ':');
    assert m + ":" + s == m + [':'] + s;
  }

  /**
   * A string that splits at ':' into three pieces `h`, `m`, `s` is
   * `h * 3600 + m * 60 + s` seconds when `parseInt` reads every piece, and
   * NaN when it reads none of one of them. `ClockSplit` shows that `h:m:s`
   * with digit groups splits so, and `ParseInt` reads a digit group as its
   * decimal value.
   */
  lemma HoursMinutesSeconds(t: string, h: string, m: string, s: string)
    requires Split(t, ':') == [h, m, s]
    ensures ParseInt(h).Finite? && ParseInt(m).Finite? && ParseInt(s).Finite? ==>
              TimeStringToSeconds(t) == Finite(ParseInt(h).value * 3600 + ParseInt(m).value * 60 + ParseInt(s).value)
    ensures ParseInt(h).NaN? || ParseInt(m).NaN? || ParseInt(s).NaN? ==> TimeStringToSeconds(t) == NaN
  {
  }

  /** Three colon-separated digit groups `h:m:s` are `h * 3600 + m * 60 + s` seconds. */
  lemma HoursMinutesSecondsDigits(h: string, m: string, s: string)
    requires h != [] && AllDigits(h) && m != [] && AllDigits(m) && s != [] && AllDigits(s)
    ensures TimeStringToSeconds(h + ":" + m + ":" + s) ==
      Finite(DigitsValue(h) * 3600 + DigitsValue(m) * 60 + DigitsValue(s))
  {
    ClockSplit(h, m, s);
    DigitPieces(h, m, s);
  }

  /** The step of `HoursMinutesSecondsDigits` once the split into `h`, `m`, `s` is known. */
  lemma DigitPieces(h: string, m: string, s: string)
    requires h != [] && AllDigits(h) && m != [] && AllDigits(m) && s != [] && AllDigits(s)
    requires Split(h + ":" + m + ":" + s, ':') == [h, m, s]
    ensures TimeStringToSeconds(h + ":" + m + ":" + s) ==
      Finite(DigitsValue(h) * 3600 + DigitsValue(m) * 60 + DigitsValue(s))
  {
    HoursMinutesSeconds(h + ":" + m + ":" + s, h, m, s);
  }

  /** Digit groups glued with ':' split back into those groups. */
  lemma ClockSplit(h: string, m: string, s: string)
    requires AllDigits(h) && AllDigits(m) && AllDigits(s)
    ensures Split(h + ":" + m + ":" + s, ':') == [h, m, s]
  {
    NoColonInDigits(h);
    NoColonInDigits(m);
    NoColonInDigits(s);
    assert h + ":" + m + ":" + s == h + [':'] + m + [':'] + s;
    SplitThreePieces(h, m, s, ':');
  }

  lemma NoColonInDigits(s: string)
    requires AllDigits(s)
    ensures ':' !in s
  {
  }

  /** A `DD:DD` clock token, as captured by the group `(\d{2}:\d{2})`. */
  predicate IsClock(t: string)
  {
    |t| == 5 && IsDigit(t[0]) && IsDigit(t[1]) && t[2] == ':' && IsDigit(t[3]) && IsDigit(t[4])
  }

  /**
   * A clock token `DD:DD` converts to its minutes times 60 plus its seconds,
   * digit by digit, so to at most 99 * 60 + 99 seconds.
   */
  lemma ClockSeconds(t: string)
    requires IsClock(t)
    ensures TimeStringToSeconds(t)
         == Finite((DigitValue(t[0]) * 10 + DigitValue(t[1])) * 60 + DigitValue(t[3]) * 10 + DigitValue(t[4]))
    ensures 0 <= TimeStringToSeconds(t).value <= 99 * 60 + 99
  {
    var m, s := t[..2], t[3..];
    assert t == m + ":" + s;
    MinutesSeconds(m, s);
    TwoDigits(m);
    TwoDigits(s);
  }

  /** Entries of the lesson's timestamp list: "05:40" is 340 seconds and "10:20" is 620. */
  lemma TimestampListSeconds(t: string)
    requires t == "05:40" || t == "10:20"
    ensures TimeStringToSeconds(t) == Finite(if t == "05:40" then 340 else 620)
  {
    ClockSeconds(t);
  }

  /** Two decimal digits are worth at most 99. */
  lemma TwoDigits(d: string)
    requires |d| == 2 && AllDigits(d)
    ensures DigitsValue(d) == DigitValue(d[0]) * 10 + DigitValue(d[1]) <= 99
  {
    assert d[..1] == [d[0]] && d[..1][..0] == [];
    assert DigitsValue(d[..1]) == DigitValue(d[0]);
  }

  // ---------------------------------------------------------------------------
  // cleanMarkdown

  /** No two adjacent asterisks. */
  predicate NoBold(s: string)
  {
    forall k :: 0 <= k < |s| - 1 ==> !(s[k] == '*' && s[k + 1] == '*')
  }

  /** The characters of `s` other than '*', in order. */
  function NonStar(s: string): string
  {
    if s == [] then [] else (if s[0] == '*' then [] else [s[0]]) + NonStar(s[1..])
  }

  /**
   * `text.replace(/\*\*\/g, "")`: every `**` found scanning left to right is
   * removed (non-overlapping). The result has no `**` left, keeps every
   * character other than `*` in order, and leaves a string without `**` as it
   * is; `StripBoldFirstMatch` says which `*` survive.
   */
  function StripBold(s: string): (r: string)
    ensures NoBold(r)
    ensures NonStar(r) == NonStar(s)
    ensures s != [] && s[0] != '*' ==> r != [] && r[0] == s[0]
    ensures NoBold(s) ==> r == s
  {
    if |s| >= 2 && s[0] == '*' && s[1] == '*' then
      assert s[1..][1..] == s[2..];
      StripBold(s[2..])
    else if s == [] then
      []
    else
      var rest := StripBold(s[1..]);
      assert ([s[0]] + rest)[1..] == rest;
      assert s == [s[0]] + s[1..];
      [s[0]] + rest
  }

  /**
   * The scan removes the first `**` it meets: text before it without `**`
   * that does not end in `*` is kept as it is, and the scan goes on after
   * the match. With `NoBold(s) ==> StripBold(s) == s` this fixes the result,
   * which `*` of an odd run survives included ("a***b" gives "a*b").
   */
  lemma {:induction false} StripBoldFirstMatch(x: string, y: string)
    requires NoBold(x) && (x == [] || x[|x| - 1] != '*')
    ensures StripBold(x + "**" + y) == x + StripBold(y)
    decreases |x|
  {
    if x == [] {
      assert x + "**" + y == "**" + y;
      StripBoldLeading(y);
    } else {
      assert !(|x| >= 2 && x[0] == '*' && x[1] == '*');
      NoBoldSlice(x, 1, |x|);
      StripBoldFirstMatch(x[1..], y);
      StripBoldFirstMatchStep(x, y);
    }
  }

  /** The step of `StripBoldFirstMatch`: the first character of `x` is kept. */
  lemma StripBoldFirstMatchStep(x: string, y: string)
    requires x != [] && x[|x| - 1] != '*'
    requires !(|x| >= 2 && x[0] == '*' && x[1] == '*')
    requires StripBold(x[1..] + "**" + y) == x[1..] + StripBold(y)
    ensures StripBold(x + "**" + y) == x + StripBold(y)
  {
    var s := x + "**" + y;
    BoldAfterSplit(x, y);
    StripBoldKeepPrefix(s, x, StripBold(y));
  }

  /** How `x + "**" + y` looks from its first character on. */
  lemma BoldAfterSplit(x: string, y: string)
    requires x != [] && x[|x| - 1] != '*'
    requires !(|x| >= 2 && x[0] == '*' && x[1] == '*')
    ensures (x + "**" + y)[0] == x[0]
    ensures !((x + "**" + y)[0] == '*' && (x + "**" + y)[1] == '*')
    ensures (x + "**" + y)[1..] == x[1..] + "**" + y
  {
    var s := x + "**" + y;
    assert s[1] == (if |x| >= 2 then x[1] else '*');
  }

  /** `**` at the very start is removed. */
  lemma StripBoldLeading(y: string)
    ensures StripBold("**" + y) == StripBold(y)
  {
    var s := "**" + y;
    assert s[2..] == y;
    StripBoldDrop(s);
  }

  /** A kept first character joins the result of the rest. */
  lemma StripBoldKeepPrefix(s: string, x: string, t: string)
    requires s != [] && !(|s| >= 2 && s[0] == '*' && s[1] == '*')
    requires x != [] && s[0] == x[0]
    requires StripBold(s[1..]) == x[1..] + t
    ensures StripBold(s) == x + t
  {
    StripBoldKeep(s);
    ConsJoin(s[0], StripBold(s[1..]), x, t);
  }

  lemma ConsJoin(c: char, u: string, x: string, t: string)
    requires x != [] && c == x[0] && u == x[1..] + t
    ensures [c] + u == x + t
  {
    assert x == [x[0]] + x[1..];
  }

  /** A leading `**` is dropped. */
  lemma StripBoldDrop(s: string)
    requires |s| >= 2 && s[0] == '*' && s[1] == '*'
    ensures StripBold(s) == StripBold(s[2..])
  {
  }

  /** A leading character that does not start `**` is kept. */
  lemma StripBoldKeep(s: string)
    requires s != [] && !(|s| >= 2 && s[0] == '*' && s[1] == '*')
    ensures StripBold(s) == [s[0]] + StripBold(s[1..])
  {
  }

  /** A slice of a string without `**` has none either. */
  lemma NoBoldSlice(s: string, i: nat, j: nat)
    requires NoBold(s) && i <= j <= |s|
    ensures NoBold(s[i..j])
  {
    forall k | 0 <= k < j - i - 1 ensures !(s[i..j][k] == '*' && s[i..j][k + 1] == '*') {
      assert s[i..j][k] == s[i + k] && s[i..j][k + 1] == s[i + k + 1];
    }
  }

  /**
   * `cleanMarkdown`: `""` for an empty text, otherwise the text with every
   * `**` removed and then trimmed. The result contains no `**` and has no
   * outer whitespace.
   */
  function CleanMarkdown(text: string): (r: string)
    ensures NoBold(r) && Trimmed(r)
    ensures text == "" ==> r == ""
    ensures NoBold(text) ==> r == Trim(text)
  {
    if text == "" then
      ""
    else
      var stripped := StripBold(text);
      NoBoldTrim(stripped);
      Trim(stripped)
  }

  /** Trimming a string without `**` leaves none. */
  lemma NoBoldTrim(s: string)
    requires NoBold(s)
    ensures NoBold(Trim(s))
  {
    TrimSlice(s);
    var i := |s| - |TrimStart(s)|;
    NoBoldSlice(s, i, i + |Trim(s)|);
  }

  /** Cleaning twice is cleaning once. */
  lemma CleanMarkdownIdempotent(text: string)
    ensures CleanMarkdown(CleanMarkdown(text)) == CleanMarkdown(text)
  {
    var r := CleanMarkdown(text);
    if r != "" {
      TrimOfTrimmed(r);
    }
  }

  /** A text without '*' and without outer whitespace is left as it is. */
  lemma CleanPlain(text: string)
    requires '*' !in text && Trimmed(text)
    ensures CleanMarkdown(text) == text
  {
    assert NoBold(text);
    TrimOfTrimmed(text);
  }

  // ---------------------------------------------------------------------------
  // The two regular expressions of the parser

  /** End of the run of whitespace starting at `i` (what a greedy `\s*` consumes). */
  function SkipSpace(line: string, i: nat): (j: nat)
    requires i <= |line|
    ensures i <= j <= |line|
    ensures j < |line| ==> !IsSpace(line[j])
    decreases |line| - i
  {
    if i < |line| && IsSpace(line[i]) then SkipSpace(line, i + 1) else i
  }

  /** Everything `SkipSpace` steps over is whitespace. */
  lemma {:induction false} SkipSpaceAll(line: string, i: nat)
    requires i <= |line|
    ensures AllSpace(line[i..SkipSpace(line, i)])
    decreases |line| - i
  {
    if i < |line| && IsSpace(line[i]) {
      SkipSpaceAll(line, i + 1);
      assert line[i..SkipSpace(line, i)] == [line[i]] + line[i + 1..SkipSpace(line, i + 1)];
    }
  }

  /** A clock token starts at position `i`. */
  predicate ClockAt(line: string, i: nat)
  {
    i + 5 <= |line| && IsClock(line[i..i + 5])
  }

  /**
   * A match of `\[(\d{2}:\d{2})\]\s*-\s*\[(\d{2}:\d{2})\]` that begins at
   * position `i`, given as its first group. The `\s*` runs are followed by a
   * non-space character, so the greedy run is the only one that can succeed.
   */
  function RangeAt(line: string, i: nat): (r: Option<string>)
    requires i <= |line|
    ensures r.Some? ==> IsClock(r.value)
  {
    if i + 7 <= |line| && line[i] == '[' && ClockAt(line, i + 1) && line[i + 6] == ']' then
      var j := SkipSpace(line, i + 7);
      if j < |line| && line[j] == '-' then
        var k := SkipSpace(line, j + 1);
        if k + 7 <= |line| && line[k] == '[' && ClockAt(line, k + 1) && line[k + 6] == ']' then
          Some(line[i + 1..i + 6])
        else
          None
      else
        None
    else
      None
  }

  /** The leftmost match starting at or after `i`: `String.prototype.match` without the `g` flag. */
  function FindRange(line: string, i: nat): (r: Option<string>)
    requires i <= |line|
    ensures r.Some? ==> IsClock(r.value)
    decreases |line| - i
  {
    if i == |line| then
      None
    else
      var m := RangeAt(line, i);
      if m.Some? then m else FindRange(line, i + 1)
  }

  /**
   * `FindRange` finds the leftmost match: its result is the match at some
   * position `k`, and there is no match at any position before `k`; when it
   * finds nothing there is no match at all.
   */
  lemma FindRangeLeftmost(line: string, i: nat)
    requires i <= |line|
    ensures FindRange(line, i).Some? ==>
      exists k :: i <= k < |line| && RangeAt(line, k) == FindRange(line, i)
        && forall p :: i <= p < k ==> RangeAt(line, p).None?
    ensures FindRange(line, i).None? ==> forall p :: i <= p <= |line| ==> RangeAt(line, p).None?
  {
    FindRangeFound(line, i);
    FindRangeNotFound(line, i);
  }

  /** Where the leftmost match from `i` begins, `|line|` when there is none. */
  function RangeIndex(line: string, i: nat): (k: nat)
    requires i <= |line|
    ensures i <= k <= |line|
    decreases |line| - i
  {
    if i == |line| || RangeAt(line, i).Some? then i else RangeIndex(line, i + 1)
  }

  /** A found match is the one at `RangeIndex`, and no match begins between `i` and it. */
  lemma {:induction false} FindRangeFound(line: string, i: nat)
    requires i <= |line|
    ensures var k := RangeIndex(line, i);
      && (k < |line| ==> FindRange(line, i) == RangeAt(line, k))
      && (k == |line| ==> FindRange(line, i).None?)
      && forall p :: i <= p < k ==> RangeAt(line, p).None?
    decreases |line| - i
  {
    if i < |line| && RangeAt(line, i).None? {
      FindRangeFound(line, i + 1);
      var k := RangeIndex(line, i + 1);
      forall p | i <= p < k
        ensures RangeAt(line, p).None?
      {
      }
    }
  }

  /** When nothing is found, no match begins at any position from `i` on. */
  lemma {:induction false} FindRangeNotFound(line: string, i: nat)
    requires i <= |line|
    ensures FindRange(line, i).None? ==> forall p :: i <= p <= |line| ==> RangeAt(line, p).None?
    decreases |line| - i
  {
    if i < |line| && RangeAt(line, i).None? {
      FindRangeNotFound(line, i + 1);
    }
  }


  /** The start time captured from a line containing a time range, if it contains one. */
  function TimeRangeStart(line: string): (r: Option<string>)
    ensures r.Some? ==> IsClock(r.value)
  {
    FindRange(line, 0)
  }

  /**
   * A match of `\]\s*:\s*(.+)$` whose `]` is at position `j`, given as its
   * group. `.` matches anything but a line terminator. When the second `\s*`
   * has eaten the rest of the line, backtracking hands its last character to
   * `.+`.
   */
  function LabelAt(line: string, j: nat): (r: Option<string>)
    requires j <= |line|
    ensures r.Some? ==> j < |line| && line[j] == ']' && r.value != []
  {
    if j < |line| && line[j] == ']' then
      var k := SkipSpace(line, j + 1);
      if k < |line| && line[k] == ':' then
        var m := SkipSpace(line, k + 1);
        if m < |line| then
          if forall p :: m <= p < |line| ==> !IsLineTerminator(line[p]) then Some(line[m..]) else None
        else if m > k + 1 && !IsLineTerminator(line[m - 1]) then
          Some(line[m - 1..])
        else
          None
      else
        None
    else
      None
  }

  /** The leftmost label match starting at or after `j`. */
  function FindLabel(line: string, j: nat): (r: Option<string>)
    requires j <= |line|
    ensures r.Some? ==> r.value != []
    ensures (forall p :: j <= p < |line| ==> line[p] != ']') ==> r.None?
    decreases |line| - j
  {
    if j == |line| then
      None
    else
      var m := LabelAt(line, j);
      if m.Some? then m else FindLabel(line, j + 1)
  }

  /** The label group of `line.match(/\]\s*:\s*(.+)$/)`, if the line matches. */
  function LabelMatch(line: string): (r: Option<string>)
    ensures r.Some? ==> r.value != []
    ensures (forall p :: 0 <= p < |line| ==> line[p] != ']') ==> r.None?
  {
    FindLabel(line, 0)
  }

  /** A label the parser captures is a non-empty, single-line tail of the line. */
  lemma {:induction false} LabelIsTail(line: string, j: nat)
    requires j <= |line|
    ensures var r := FindLabel(line, j);
      r.Some? ==> && r.value != [] && |r.value| <= |line| && r.value == line[|line| - |r.value|..]
                  && forall p :: 0 <= p < |r.value| ==> !IsLineTerminator(r.value[p])
    decreases |line| - j
  {
    if j < |line| && LabelAt(line, j).None? {
      LabelIsTail(line, j + 1);
    }
  }

  // ---------------------------------------------------------------------------
  // parseTimelineText

  /** One navigation point `{time, seconds, label, desc}`; `label` is called `title` here, `label` being a Dafny keyword. */
  datatype Marker = Marker(time: string, seconds: Number, title: string, desc: string)

  /** The marker pushed for the accumulated start time, label and description. */
  function MarkerOf(start: string, title: string, desc: string): Marker
  {
    Marker(start, TimeStringToSeconds(start), CleanMarkdown(title), CleanMarkdown(desc))
  }

  /**
   * The lines the loop visits: the text split at '\n', blank lines dropped,
   * each line trimmed.
   */
  function NonBlank(lines: seq<string>): (r: seq<string>)
    ensures forall k :: 0 <= k < |r| ==> Trim(r[k]) != ""
  {
    if lines == [] then
      []
    else
      var rest := NonBlank(lines[1..]);
      if Trim(lines[0]) == "" then rest else [lines[0]] + rest
  }

  function Lines(text: string): (r: seq<string>)
    ensures forall k :: 0 <= k < |r| ==> r[k] != "" && Trimmed(r[k])
  {
    var raw := NonBlank(Split(text, '\n'));
    seq(|raw|, k requires 0 <= k < |raw| => Trim(raw[k]))
  }

  /** The loop's state: markers pushed so far and the three accumulators. */
  datatype Acc = Acc(markers: seq<Marker>, start: string, title: string, desc: string)

  const Start: Acc := Acc([], "", "", "")

  /**
   * One iteration of the loop on a trimmed line. It appends at most the
   * pending marker, and only a time-range line appends one or changes the
   * start time; such a line starts a new marker with an empty description.
   */
  function Step(a: Acc, line: string): (r: Acc)
    ensures r.markers == a.markers || r.markers == a.markers + [MarkerOf(a.start, a.title, a.desc)]
    ensures r.start == a.start || IsClock(r.start)
  {
    match TimeRangeStart(line)
    case Some(startTime) =>
      var markers := if a.title != "" then a.markers + [MarkerOf(a.start, a.title, a.desc)] else a.markers;
      var title := match LabelMatch(line) case Some(group) => Trim(group) case None => "";
      Acc(markers, startTime, title, "")
    case None =>
      if StartsWith(line, ">") then
        var desc := Trim(line[1..]);
        if desc != "" then a.(desc := desc) else a
      else if StartsWith(line, "##") || StartsWith(line, "#") then
        a
      else if line != "" && a.title == "" then
        a.(title := line)
      else
        a
  }

  /** Visiting one more line is one more step. */
  lemma FoldNext(lines: seq<string>, i: nat)
    requires i < |lines|
    ensures Fold(lines[..i + 1]) == Step(Fold(lines[..i]), lines[i])
  {
    assert lines[..i + 1][..i] == lines[..i];
  }

  /** The state after the loop has visited `lines`, in order. */
  function Fold(lines: seq<string>): Acc
  {
    if lines == [] then Start else Step(Fold(lines[..|lines| - 1]), lines[|lines| - 1])
  }

  /** The final flush: the last marker is pushed when it has both a label and a start time. */
  function Finish(a: Acc): seq<Marker>
  {
    if a.title != "" && a.start != "" then a.markers + [MarkerOf(a.start, a.title, a.desc)] else a.markers
  }

  /** What `parseTimelineText` returns, as a function of the text. */
  function Parse(text: string): seq<Marker>
  {
    if text == "" then [] else Finish(Fold(Lines(text)))
  }

  /** `parseTimelineText`: the single pass over the lines with three accumulators. */
  method ParseTimelineText(timelineText: string) returns (timestamps: seq<Marker>)
    ensures timestamps == Parse(timelineText)
  {
    if timelineText == "" {
      return [];
    }
    var lines := NonBlank(Split(timelineText, '\n'));
    ghost var trimmed := Lines(timelineText);
    timestamps := [];
    var currentStartTime, currentLabel, currentDesc := "", "", "";
    var i := 0;
    while i < |lines|
      invariant 0 <= i <= |lines| == |trimmed|
      invariant Fold(trimmed[..i]) == Acc(timestamps, currentStartTime, currentLabel, currentDesc)
    {
      var line := Trim(lines[i]);
      assert line == trimmed[i];
      ghost var before := Acc(timestamps, currentStartTime, currentLabel, currentDesc);
      FoldNext(trimmed, i);
      var timeRangeMatch := TimeRangeStart(line);
      if timeRangeMatch.Some? {
        if currentLabel != "" {
          timestamps := timestamps + [Marker(currentStartTime, TimeStringToSeconds(currentStartTime),
                                             CleanMarkdown(currentLabel), CleanMarkdown(currentDesc))];
        }
        currentStartTime := timeRangeMatch.value;
        currentLabel := "";
        currentDesc := "";
        var labelMatch := LabelMatch(line);
        if labelMatch.Some? {
          currentLabel := Trim(labelMatch.value);
        }
        assert Step(before, line) == Acc(timestamps, currentStartTime, currentLabel, currentDesc);
      } else if StartsWith(line, ">") {
        var desc := Trim(line[1..]);
        if desc != "" {
          currentDesc := desc;
        }
        assert Step(before, line) == Acc(timestamps, currentStartTime, currentLabel, currentDesc);
      } else if StartsWith(line, "##") || StartsWith(line, "#") {
        // a header line is skipped
        assert Step(before, line) == before;
      } else if line != "" && currentLabel == "" {
        currentLabel := line;
        assert Step(before, line) == Acc(timestamps, currentStartTime, currentLabel, currentDesc);
      }
      i := i + 1;
    }
    assert trimmed[..i] == trimmed;
    if currentLabel != "" && currentStartTime != "" {
      timestamps := timestamps + [Marker(currentStartTime, TimeStringToSeconds(currentStartTime),
                                         CleanMarkdown(currentLabel), CleanMarkdown(currentDesc))];
    }
  }
}
